/** The CSV writer and reader (section 2 of RFC 4180), and the exact condition for the round trip. */
module Csv {

  // The writer

  /** A cell: nothing, or the text `String(value)` gives. */
  datatype CsvValue = Missing | Text(text: string)

  datatype CsvTable = CsvTable(headers: seq<CsvValue>, rows: seq<seq<CsvValue>>)

  const BOM := '\U{FEFF}'

  /** A leading character a spreadsheet would read as a formula is defused with a quote. */
  function Guard(text: string): string {
    if text != "" && text[0] in "=+-@\t\r" then "'" + text else text
  }

  function Guarded(v: CsvValue): string {
    match v case Missing => "" case Text(text) => Guard(text)
  }

  predicate NeedsQuotes(s: string) {
    '"' in s || ',' in s || '\r' in s || '\n' in s
  }

  /** Every quote doubled. */
  function Doubled(s: string): string {
    if s == "" then "" else (if s[0] == '"' then "\"\"" else [s[0]]) + Doubled(s[1..])
  }

  function Quote(s: string): string {
    if NeedsQuotes(s) then "\"" + Doubled(s) + "\"" else s
  }

  function EscapeField(v: CsvValue): string {
    match v
    case Missing => ""
    case Text(text) => Quote(Guard(text))
  }

  function Join(parts: seq<string>, separator: string): string {
    if parts == [] then ""
    else if |parts| == 1 then parts[0]
    else parts[0] + separator + Join(parts[1..], separator)
  }

  function EscapeRow(row: seq<CsvValue>): seq<string> {
    seq(|row|, i requires 0 <= i < |row| => EscapeField(row[i]))
  }

  function ToCsv(table: CsvTable): string {
    var rows := [table.headers] + table.rows;
    Join(seq(|rows|, i requires 0 <= i < |rows| => Join(EscapeRow(rows[i]), ",")), "\r\n")
  }

  // The reader

  datatype Reader = Reader(rows: seq<seq<string>>, row: seq<string>, field: string, quoted: bool, started: bool)

  function EndField(st: Reader): Reader {
    st.(row := st.row + [st.field], field := "", started := false)
  }

  /** A row of one empty field is a blank line and is dropped. */
  predicate Blank(row: seq<string>) {
    row == [] || row == [""]
  }

  function EndRow(st: Reader): Reader {
    var ended := EndField(st);
    ended.(rows := if Blank(ended.row) then ended.rows else ended.rows + [ended.row], row := [])
  }

  /** What the reader makes of the rest of its input. */
  function Read(st: Reader, s: string): seq<seq<string>>
    decreases |s|
  {
    if s == "" then
      if st.field != "" || st.row != [] then EndRow(st).rows else st.rows
    else if st.quoted then
      if s[0] != '"' then Read(st.(field := st.field + [s[0]]), s[1..])
      else if |s| > 1 && s[1] == '"' then Read(st.(field := st.field + "\""), s[2..])
      else Read(st.(quoted := false), s[1..])
    else if s[0] == '"' then
      if !st.started && st.field == "" then Read(st.(quoted := true, started := true), s[1..])
      else Read(st.(field := st.field + "\"", started := true), s[1..])
    else if s[0] == ',' then Read(EndField(st), s[1..])
    else if s[0] == '\r' then
      if |s| > 1 && s[1] == '\n' then Read(EndRow(st), s[2..]) else Read(EndRow(st), s[1..])
    else if s[0] == '\n' then Read(EndRow(st), s[1..])
    else Read(st.(field := st.field + [s[0]], started := true), s[1..])
  }

  const FRESH := Reader([], [], "", false, false)

  function WithoutBom(text: string): string {
    if text != "" && text[0] == BOM then text[1..] else text
  }

  function Parsed(text: string): seq<seq<string>> {
    Read(FRESH, WithoutBom(text))
  }

  /** The character state machine. */
  method ParseCsv(text: string) returns (rows: seq<seq<string>>)
    ensures rows == Parsed(text)
  {
    rows := [];
    var row: seq<string>, field, quoted, started := [], "", false, false;
    var input := WithoutBom(text);
    var i := 0;
    while i < |input|
      invariant 0 <= i <= |input|
      invariant Read(Reader(rows, row, field, quoted, started), input[i..]) == Parsed(text)
    {
      var c := input[i];
      assert input[i..][0] == c && input[i..][1..] == input[i + 1..];
      assert i + 1 < |input| ==> input[i..][1] == input[i + 1] && input[i..][2..] == input[i + 2..];
      if quoted {
        if c != '"' {
          field := field + [c];
        } else if i + 1 < |input| && input[i + 1] == '"' {
          field := field + "\"";
          i := i + 1;
        } else {
          quoted := false;
        }
      } else if c == '"' {
        if !started && field == "" { quoted := true; } else { field := field + [c]; }
        started := true;
      } else if c == ',' {
        row := row + [field];
        field, started := "", false;
      } else if c == '\r' || c == '\n' {
        if c == '\r' && i + 1 < |input| && input[i + 1] == '\n' { i := i + 1; }
        row := row + [field];
        field, started := "", false;
        if |row| > 1 || row[0] != "" { rows := rows + [row]; }
        row := [];
      } else {
        field := field + [c];
        started := true;
      }
      i := i + 1;
    }
    assert input[|input|..] == "";
    if field != "" || |row| > 0 {
      row := row + [field];
      if |row| > 1 || row[0] != "" { rows := rows + [row]; }
    }
  }

  // The round trip

  /** The texts a table prints, cell by cell, headers first. */
  function Grid(table: CsvTable): seq<seq<string>> {
    var rows := [table.headers] + table.rows;
    seq(|rows|, i requires 0 <= i < |rows| => GuardedRow(rows[i]))
  }

  function GuardedRow(row: seq<CsvValue>): seq<string> {
    seq(|row|, i requires 0 <= i < |row| => Guarded(row[i]))
  }

  function PrintRow(row: seq<string>): string {
    if row == [] then ""
    else if |row| == 1 then Quote(row[0])
    else Quote(row[0]) + "," + PrintRow(row[1..])
  }

  function Print(grid: seq<seq<string>>): string {
    if grid == [] then ""
    else if |grid| == 1 then PrintRow(grid[0])
    else PrintRow(grid[0]) + "\r\n" + Print(grid[1..])
  }

  /** The rows that are not blank lines. */
  function Kept(grid: seq<seq<string>>): seq<seq<string>> {
    if grid == [] then [] else (if Blank(grid[0]) then [] else [grid[0]]) + Kept(grid[1..])
  }

  lemma {:induction false} JoinedRow(row: seq<CsvValue>)
    ensures Join(EscapeRow(row), ",") == PrintRow(GuardedRow(row))
  {
    if |row| > 1 {
      JoinedRow(row[1..]);
      assert EscapeRow(row)[1..] == EscapeRow(row[1..]);
      assert GuardedRow(row)[1..] == GuardedRow(row[1..]);
    }
  }

  lemma {:induction false} JoinedRows(rows: seq<seq<CsvValue>>)
    ensures Join(seq(|rows|, i requires 0 <= i < |rows| => Join(EscapeRow(rows[i]), ",")), "\r\n")
            == Print(seq(|rows|, i requires 0 <= i < |rows| => GuardedRow(rows[i])))
  {
    if rows != [] { JoinedRow(rows[0]); }
    if |rows| > 1 {
      JoinedRows(rows[1..]);
      assert seq(|rows|, i requires 0 <= i < |rows| => Join(EscapeRow(rows[i]), ","))[1..]
          == seq(|rows[1..]|, i requires 0 <= i < |rows[1..]| => Join(EscapeRow(rows[1..][i]), ","));
      assert seq(|rows|, i requires 0 <= i < |rows| => GuardedRow(rows[i]))[1..]
          == seq(|rows[1..]|, i requires 0 <= i < |rows[1..]| => GuardedRow(rows[1..][i]));
    }
  }

  /** A run of ordinary characters is collected as it stands. */
  lemma {:induction false} ReadPlain(st: Reader, t: string, rest: string)
    requires !st.quoted && !NeedsQuotes(t)
    ensures Read(st, t + rest) == Read(st.(field := st.field + t, started := st.started || t != ""), rest)
    decreases |t|
  {
    if t == "" {
      assert t + rest == rest && st.field + t == st.field;
    } else {
      assert (t + rest)[1..] == t[1..] + rest;
      ReadPlain(st.(field := st.field + [t[0]], started := true), t[1..], rest);
      assert st.field + [t[0]] + t[1..] == st.field + t;
    }
  }

  /** Inside quotes, doubled quotes read back single, up to the closing quote. */
  lemma {:induction false} ReadQuoted(st: Reader, t: string, rest: string)
    requires st.quoted && (rest == "" || rest[0] != '"')
    ensures Read(st, Doubled(t) + "\"" + rest) == Read(st.(field := st.field + t, quoted := false), rest)
    decreases |t|
  {
    var s := Doubled(t) + "\"" + rest;
    if t == "" {
      assert s[1..] == rest && st.field + t == st.field;
    } else {
      var tail := Doubled(t[1..]) + "\"" + rest;
      ReadQuoted(st.(field := st.field + [t[0]]), t[1..], rest);
      assert st.field + [t[0]] + t[1..] == st.field + t;
      if t[0] == '"' {
        assert s == "\"\"" + tail;
        assert s[2..] == tail;
      } else {
        assert s == [t[0]] + tail;
      }
    }
  }

  predicate AtBoundary(rest: string) {
    rest == "" || rest[0] == ',' || rest[0] == '\r'
  }

  /** The reader at the start of a field, having read some rows and some fields. */
  function At(rows: seq<seq<string>>, row: seq<string>): Reader {
    Reader(rows, row, "", false, false)
  }

  /** A printed field reads back as its text. */
  lemma ReadField(st: Reader, t: string, rest: string)
    requires st.field == "" && !st.quoted && !st.started && AtBoundary(rest)
    ensures Read(st, Quote(t) + rest) == Read(st.(field := t, started := t != ""), rest)
  {
    if NeedsQuotes(t) {
      var inside, tail := st.(quoted := true, started := true), Doubled(t) + "\"" + rest;
      assert Quote(t) + rest == "\"" + tail;
      assert ("\"" + tail)[1..] == tail;
      assert Read(st, "\"" + tail) == Read(inside, tail);
      hide Read, Doubled;
      ReadQuoted(inside, t, rest);
      assert inside.field + t == t;
    } else {
      ReadPlain(st, t, rest);
      assert st.field + t == t;
    }
  }

  lemma ReadComma(st: Reader, rest: string)
    requires !st.quoted
    ensures Read(st, "," + rest) == Read(At(st.rows, st.row + [st.field]), rest)
  {
    assert ("," + rest)[1..] == rest;
  }

  lemma ReadBreak(st: Reader, rest: string)
    requires !st.quoted
    ensures var row := st.row + [st.field];
            Read(st, "\r\n" + rest) == Read(At(if Blank(row) then st.rows else st.rows + [row], []), rest)
  {
    assert ("\r\n" + rest)[2..] == rest;
  }

  lemma ReadEnd(st: Reader)
    ensures var row := st.row + [st.field];
            Read(st, "") == if Blank(row) then st.rows else st.rows + [row]
  {
  }

  /** A printed row at the end of the input. */
  lemma {:induction false} ReadLastRow(rows: seq<seq<string>>, done: seq<string>, row: seq<string>)
    requires row != []
    ensures Read(At(rows, done), PrintRow(row)) == if Blank(done + row) then rows else rows + [done + row]
    decreases |row|
  {
    hide Read, Quote;
    var st, after := At(rows, done), At(rows, done).(field := row[0], started := row[0] != "");
    if |row| == 1 {
      assert Quote(row[0]) + "" == Quote(row[0]) && done + row == done + [row[0]];
      ReadField(st, row[0], "");
      ReadEnd(after);
    } else {
      var rest := PrintRow(row[1..]);
      assert PrintRow(row) == Quote(row[0]) + ("," + rest);
      ReadField(st, row[0], "," + rest);
      ReadComma(after, rest);
      ReadLastRow(rows, done + [row[0]], row[1..]);
      assert done + [row[0]] + row[1..] == done + row;
    }
  }

  /** A printed row followed by a line break. */
  lemma {:induction false} ReadRow(rows: seq<seq<string>>, done: seq<string>, row: seq<string>, rest: string)
    requires row != []
    ensures Read(At(rows, done), PrintRow(row) + "\r\n" + rest)
            == Read(At(if Blank(done + row) then rows else rows + [done + row], []), rest)
    decreases |row|
  {
    hide Read, Quote, Blank;
    var st, after := At(rows, done), At(rows, done).(field := row[0], started := row[0] != "");
    if |row| == 1 {
      assert PrintRow(row) + "\r\n" + rest == Quote(row[0]) + ("\r\n" + rest) && done + row == done + [row[0]];
      ReadField(st, row[0], "\r\n" + rest);
      ReadBreak(after, rest);
    } else {
      var tail := PrintRow(row[1..]) + "\r\n" + rest;
      assert PrintRow(row) + "\r\n" + rest == Quote(row[0]) + ("," + tail);
      ReadField(st, row[0], "," + tail);
      ReadComma(after, tail);
      ReadRow(rows, done + [row[0]], row[1..], rest);
      assert done + [row[0]] + row[1..] == done + row;
    }
  }

  /** Reading what was printed gives back every row that is not a blank line. */
  lemma {:induction false} ReadPrinted(rows: seq<seq<string>>, grid: seq<seq<string>>)
    ensures Read(At(rows, []), Print(grid)) == rows + Kept(grid)
    decreases |grid|
  {
    if grid != [] {
      var first, rest := grid[0], Print(grid[1..]);
      assert [] + first == first;
      if |grid| == 1 {
        if first != [] { ReadLastRow(rows, [], first); }
        assert Kept(grid[1..]) == [];
      } else {
        var rows' := if Blank(first) then rows else rows + [first];
        if first == [] {
          assert Print(grid) == "\r\n" + rest && Print(grid)[2..] == rest;
        } else {
          ReadRow(rows, [], first, rest);
        }
        ReadPrinted(rows', grid[1..]);
      }
    }
  }

  lemma {:induction false} KeptIsShorter(grid: seq<seq<string>>)
    ensures |Kept(grid)| <= |grid|
    ensures |Kept(grid)| == |grid| <==> forall i :: 0 <= i < |grid| ==> !Blank(grid[i])
    ensures |Kept(grid)| == |grid| ==> Kept(grid) == grid
  {
    if grid != [] {
      KeptIsShorter(grid[1..]);
      assert grid == [grid[0]] + grid[1..];
      assert forall i :: 0 < i < |grid| ==> grid[i] == grid[1..][i - 1];
    }
  }

  /** The first cell is printed bare and begins with a byte-order mark, which the reader strips. */
  predicate BomFirst(grid: seq<seq<string>>) {
    && grid != [] && grid[0] != []
    && var first := grid[0][0];
    && first != "" && first[0] == BOM && !NeedsQuotes(first)
  }

  /** The first character of a printed row is its first field's, or the comma after an empty one. */
  lemma RowBegins(row: seq<string>)
    ensures row == [] || row == [""] ==> PrintRow(row) == ""
    ensures |row| > 1 && row[0] == "" ==> PrintRow(row) != "" && PrintRow(row)[0] == ','
    ensures row != [] && row[0] != "" ==>
              PrintRow(row) != "" && PrintRow(row)[0] == if NeedsQuotes(row[0]) then '"' else row[0][0]
  {
    if |row| > 1 && row[0] == "" {
      assert Quote(row[0]) == "" && "" + "," + PrintRow(row[1..]) == "," + PrintRow(row[1..]);
    }
  }

  lemma TextBeginsWithBom(grid: seq<seq<string>>)
    ensures BomFirst(grid) <==> Print(grid) != "" && Print(grid)[0] == BOM
  {
    if grid != [] {
      RowBegins(grid[0]);
      hide PrintRow, NeedsQuotes;
      if PrintRow(grid[0]) == "" && |grid| > 1 {
        assert Print(grid) == "\r\n" + Print(grid[1..]);
      }
    }
  }

  lemma BomIsLost(grid: seq<seq<string>>)
    requires BomFirst(grid)
    ensures Read(FRESH, Print(grid)[1..]) != grid
  {
    var first := grid[0][0];
    var row := [first[1..]] + grid[0][1..];
    var less := [row] + grid[1..];
    assert !NeedsQuotes(first[1..]);
    assert row[1..] == grid[0][1..] && less[1..] == grid[1..];
    assert PrintRow(grid[0])[1..] == PrintRow(row) && PrintRow(grid[0]) != "";
    assert Print(grid)[1..] == Print(less);
    ReadPrinted([], less);
    assert [] + Kept(less) == Kept(less);
    KeptIsShorter(less);
    assert less[0][0] != grid[0][0];
  }

  /**
   Reading a written table gives back every cell's guarded text, exactly when every row has
   a field and is not a single empty one, and the text does not begin with a bare byte-order mark.
   */
  lemma RoundTrip(table: CsvTable)
    ensures Parsed(ToCsv(table)) == Grid(table) <==>
            (forall i :: 0 <= i < |Grid(table)| ==> !Blank(Grid(table)[i])) && !BomFirst(Grid(table))
    ensures !BomFirst(Grid(table)) ==> Parsed(ToCsv(table)) == Kept(Grid(table))
  {
    var grid := Grid(table);
    JoinedRows([table.headers] + table.rows);
    assert ToCsv(table) == Print(grid);
    TextBeginsWithBom(grid);
    KeptIsShorter(grid);
    if BomFirst(grid) {
      BomIsLost(grid);
    } else {
      ReadPrinted([], grid);
      assert [] + Kept(grid) == Kept(grid);
    }
  }

  // What is written

  /** The guard adds one quote to a text that begins like a formula, and leaves any other alone. */
  lemma GuardAddsOneQuote(text: string)
    ensures Guard(text) == text || Guard(text) == "'" + text
    ensures Guard(text) != "" ==> Guard(text)[0] !in "=+-@\t\r"
    ensures Guard(text) == text <==>
            text == "" || (text[0] != '=' && text[0] != '+' && text[0] != '-' && text[0] != '@' &&
                           text[0] != '\t' && text[0] != '\r')
  {
  }

  /** A cell is put in quotes if, and only if, it has a comma, a quote or a line break. */
  lemma QuotedIfNeeded(text: string)
    ensures EscapeField(Missing) == ""
    ensures EscapeField(Text(text)) == Guard(text) <==>
            ',' !in text && '"' !in text && '\r' !in text && '\n' !in text
    ensures EscapeField(Text(text)) != Guard(text) ==>
              EscapeField(Text(text)) == "\"" + Doubled(Guard(text)) + "\""
  {
    hide Doubled;
    assert forall c :: c in "'" + text <==> c == '\'' || c in text;
    DoubledIsLonger(Guard(text));
  }

  lemma {:induction false} DoubledIsLonger(s: string)
    ensures |Doubled(s)| >= |s|
  {
    if s != "" { DoubledIsLonger(s[1..]); }
  }

  lemma {:induction false} JoinOneMore(parts: seq<string>, part: string, separator: string)
    ensures Join(parts + [part], separator) == if parts == [] then part else Join(parts, separator) + separator + part
  {
    if parts == [] {
      assert parts + [part] == [part];
    } else {
      assert (parts + [part])[1..] == parts[1..] + [part];
      JoinOneMore(parts[1..], part, separator);
    }
  }

  /** A table of headers alone is their line; each row more is a line break, CR and LF, and its line. */
  lemma OneMoreRow(headers: seq<CsvValue>, rows: seq<seq<CsvValue>>, row: seq<CsvValue>)
    ensures ToCsv(CsvTable(headers, [])) == Join(EscapeRow(headers), ",")
    ensures ToCsv(CsvTable(headers, rows + [row])) ==
            ToCsv(CsvTable(headers, rows)) + "\r\n" + Join(EscapeRow(row), ",")
  {
    hide Join, EscapeRow;
    var lines := (table: seq<seq<CsvValue>>) =>
      seq(|table|, i requires 0 <= i < |table| => Join(EscapeRow(table[i]), ","));
    assert [headers] + (rows + [row]) == ([headers] + rows) + [row];
    assert lines([headers] + (rows + [row])) == lines([headers] + rows) + [Join(EscapeRow(row), ",")];
    JoinOneMore(lines([headers] + rows), Join(EscapeRow(row), ","), "\r\n");
    assert lines([headers] + []) == [] + [Join(EscapeRow(headers), ",")];
    JoinOneMore([], Join(EscapeRow(headers), ","), "\r\n");
  }

  /** A line is its cells with commas between. */
  lemma OneMoreCell(row: seq<CsvValue>, v: CsvValue)
    ensures Join(EscapeRow([v]), ",") == EscapeField(v)
    ensures row != [] ==> Join(EscapeRow(row + [v]), ",") == Join(EscapeRow(row), ",") + "," + EscapeField(v)
  {
    hide Join, EscapeField;
    assert EscapeRow([v]) == [] + [EscapeField(v)];
    JoinOneMore([], EscapeField(v), ",");
    assert EscapeRow(row + [v]) == EscapeRow(row) + [EscapeField(v)];
    JoinOneMore(EscapeRow(row), EscapeField(v), ",");
  }

  // What the reader makes of other writers

  /** CR and LF, LF alone and CR alone all end a row outside quotes; a byte-order mark in front is not read. */
  lemma LineEndsAlike(st: Reader, rest: string)
    requires !st.quoted
    ensures Read(st, "\n" + rest) == Read(st, "\r\n" + rest)
    ensures rest != "" && rest[0] != '\n' ==> Read(st, "\r" + rest) == Read(st, "\r\n" + rest)
    ensures Parsed("\U{FEFF}" + rest) == Read(FRESH, rest)
  {
    assert ("\n" + rest)[1..] == rest && ("\r\n" + rest)[2..] == rest && ("\r" + rest)[1..] == rest;
    assert ("\U{FEFF}" + rest)[1..] == rest;
  }

  /** A quote in a field that has begun is read as itself. */
  lemma QuoteInsideField(st: Reader, rest: string)
    requires !st.quoted && (st.started || st.field != "")
    ensures Read(st, "\"" + rest) == Read(st.(field := st.field + "\"", started := true), rest)
  {
    assert ("\"" + rest)[1..] == rest;
  }
}
