/**
 Text as the program compares it: lexicographically by character, and numbers written as
 zero-padded numerals so that text order is number order.
 */
module Text {
  import opened Orders

  /** Lexicographic order on strings, a proper prefix coming first. */
  predicate Less(a: string, b: string) {
    if b == [] then false
    else if a == [] then true
    else if a[0] != b[0] then a[0] < b[0]
    else Less(a[1..], b[1..])
  }

  lemma {:induction false} LessTransitive(a: string, b: string, c: string)
    requires Less(a, b) && Less(b, c)
    ensures Less(a, c)
  {
    if a != [] && a[0] == b[0] == c[0] {
      LessTransitive(a[1..], b[1..], c[1..]);
    }
  }

  lemma {:induction false} LessTrichotomy(a: string, b: string)
    ensures !Less(a, a)
    ensures a == b || Less(a, b) || Less(b, a)
    ensures !(Less(a, b) && Less(b, a))
  {
    if a != [] {
      if b != [] && a[0] == b[0] {
        assert a == [a[0]] + a[1..] && b == [b[0]] + b[1..];
        LessTrichotomy(a[1..], b[1..]);
      } else {
        LessTrichotomy(a[1..], []);
      }
    }
  }

  lemma LessIsStrictTotal()
    ensures StrictTotal(Less)
  {
    forall a, b ensures !Less(a, a) && (a == b || Less(a, b) || Less(b, a)) {
      LessTrichotomy(a, b);
    }
    forall a, b, c | Less(a, b) && Less(b, c) ensures Less(a, c) {
      LessTransitive(a, b, c);
    }
  }

  /** Two texts with heads of equal length are ordered by their heads, then by their tails. */
  lemma {:induction false} LessOfConcat(a: string, x: string, b: string, y: string)
    requires |a| == |b|
    ensures Less(a + x, b + y) <==> Less(a, b) || (a == b && Less(x, y))
  {
    if a == [] {
      assert a + x == x && b + y == y;
    } else {
      assert (a + x)[1..] == a[1..] + x && (b + y)[1..] == b[1..] + y;
      assert a == [a[0]] + a[1..] && b == [b[0]] + b[1..];
      LessOfConcat(a[1..], x, b[1..], y);
    }
  }

  /** A common head does not affect the order. */
  lemma LessOfCommonHead(a: string, x: string, y: string)
    ensures Less(a + x, a + y) <==> Less(x, y)
  {
    LessTrichotomy(a, a);
    LessOfConcat(a, x, a, y);
  }

  /** Three dash-separated fields compare field by field. */
  lemma DashedOrder(y1: string, m1: string, d1: string, y2: string, m2: string, d2: string)
    requires |y1| == |y2| && |m1| == |m2|
    ensures Less(y1 + "-" + m1 + "-" + d1, y2 + "-" + m2 + "-" + d2) <==>
            Less(y1, y2) || (y1 == y2 && (Less(m1, m2) || (m1 == m2 && Less(d1, d2))))
  {
    var t1, t2 := m1 + ("-" + d1), m2 + ("-" + d2);
    assert y1 + "-" + m1 + "-" + d1 == y1 + ("-" + t1) && y2 + "-" + m2 + "-" + d2 == y2 + ("-" + t2);
    LessOfConcat(y1, "-" + t1, y2, "-" + t2);
    LessOfCommonHead("-", t1, t2);
    LessOfConcat(m1, "-" + d1, m2, "-" + d2);
    LessOfCommonHead("-", d1, d2);
  }

  // Numerals

  /** The program writes numbers in base 10 and, for the clock counter, base 16. */
  type Base = b: int | b == 10 || b == 16 witness 10

  function DigitChar(d: nat): char
    requires d < 16
  {
    "0123456789abcdef"[d]
  }

  function DigitValue(c: char): (d: nat)
    ensures d <= 16
  {
    if '0' <= c <= '9' then c as int - '0' as int
    else if 'a' <= c <= 'f' then c as int - 'a' as int + 10
    else 16
  }

  predicate IsDigit(base: Base, c: char) {
    DigitValue(c) < base
  }

  predicate AllDigits(base: Base, s: string) {
    forall i :: 0 <= i < |s| ==> IsDigit(base, s[i])
  }

  lemma DigitOfValue(d: nat)
    requires d < 16
    ensures DigitValue(DigitChar(d)) == d
  {
    assert "0123456789abcdef"[d] == if d < 10 then (d + '0' as int) as char else (d - 10 + 'a' as int) as char;
  }

  lemma DigitOrder(base: Base, a: char, b: char)
    requires IsDigit(base, a) && IsDigit(base, b)
    ensures a < b <==> DigitValue(a) < DigitValue(b)
    ensures a == b <==> DigitValue(a) == DigitValue(b)
  {
  }

  /** A number written without padding. */
  function Numeral(base: Base, n: nat): (s: string)
    ensures 1 <= |s| && AllDigits(base, s)
    decreases n
  {
    DigitOfValue(n % base);
    if n < base then [DigitChar(n)] else Numeral(base, n / base) + [DigitChar(n % base)]
  }

  /** Pads on the left with zeros to a width; a longer text is left alone. */
  function PadStart(s: string, width: nat): (r: string)
    ensures |r| == if |s| < width then width else |s|
    decreases width - |s|
  {
    if |s| < width then PadStart("0" + s, width) else s
  }

  /** The number a run of digits denotes. */
  function Value(base: Base, s: string): nat {
    if s == [] then 0 else Value(base, s[..|s| - 1]) * base + DigitValue(s[|s| - 1])
  }

  // Reading numbers as JavaScript does

  predicate IsSpace(c: char) {
    || c in " \t\n\r\U{0B}\U{0C}\U{A0}\U{1680}\U{2028}\U{2029}\U{202F}\U{205F}\U{3000}\U{FEFF}"
    || '\U{2000}' <= c <= '\U{200A}'
  }

  /** By code: the white space and line terminators of ECMAScript (sections 12.2 and 12.3). */
  lemma SpacesByCode(c: char)
    ensures IsSpace(c) <==>
            var code := c as int;
            || 9 <= code <= 13 || code == 32 || code == 160 || code == 5760 || 8192 <= code <= 8202
            || code == 8232 || code == 8233 || code == 8239 || code == 8287 || code == 12288 || code == 65279
  {
  }

  function LowerCase(c: char): char {
    if 'A' <= c <= 'F' then c + 32 as char else c
  }

  /** The hexadecimal digits a text begins with, in lower case. */
  function LeadingHex(s: string): string {
    if s == [] || !IsDigit(16, LowerCase(s[0])) then [] else [LowerCase(s[0])] + LeadingHex(s[1..])
  }

  function SkipSpace(s: string): string {
    if s != [] && IsSpace(s[0]) then SkipSpace(s[1..]) else s
  }

  datatype ParsedInt = NotANumber | Parsed(value: nat)

  /** `parseInt(s, 16)` of a text without a minus sign: space, a sign and a prefix are skipped, a tail ignored. */
  function ParseHex(s: string): ParsedInt {
    var trimmed := SkipSpace(s);
    var unsigned := if trimmed != [] && trimmed[0] == '+' then trimmed[1..] else trimmed;
    var body := if |unsigned| >= 2 && unsigned[0] == '0' && unsigned[1] in "xX" then unsigned[2..] else unsigned;
    var digits := LeadingHex(body);
    if digits == [] then NotANumber else Parsed(Value(16, digits))
  }

  lemma {:induction false} LeadingHexOfDigits(s: string)
    requires AllDigits(16, s)
    ensures LeadingHex(s) == s
  {
    if s != [] {
      LeadingHexOfDigits(s[1..]);
      assert s == [s[0]] + s[1..];
    }
  }

  /** Four digits as the program writes them read back as their value. */
  lemma ParseHexOfDigits(s: string)
    requires s != [] && AllDigits(16, s)
    ensures ParseHex(s) == Parsed(Value(16, s))
  {
    LeadingHexOfDigits(s);
    assert IsDigit(16, s[0]) && !IsSpace(s[0]);
    assert |s| >= 2 ==> IsDigit(16, s[1]);
  }

  lemma {:induction false} LeadingHexStops(digits: string, tail: string)
    requires AllDigits(16, digits) && (tail != [] ==> !IsDigit(16, LowerCase(tail[0])))
    ensures LeadingHex(digits + tail) == digits
  {
    if digits == [] {
      assert digits + tail == tail;
    } else {
      assert (digits + tail)[1..] == digits[1..] + tail;
      LeadingHexStops(digits[1..], tail);
      assert digits == [digits[0]] + digits[1..];
    }
  }

  /** Digits are read up to the first other character, also behind a plus sign or `0x`. */
  lemma ParseHexReadsOn(digits: string, tail: string)
    requires digits != [] && AllDigits(16, digits)
    requires tail != [] ==> !IsDigit(16, LowerCase(tail[0])) && tail[0] !in "xX"
    ensures ParseHex(digits + tail) == Parsed(Value(16, digits))
    ensures ParseHex("+" + (digits + tail)) == Parsed(Value(16, digits))
    ensures ParseHex("0x" + (digits + tail)) == ParseHex("0X" + (digits + tail)) == Parsed(Value(16, digits))
  {
    hide IsSpace, Value, IsDigit, LowerCase, LeadingHex;
    LeadingHexStops(digits, tail);
    var s := digits + tail;
    HexDigitIsNoSpace(digits[0]);
    assert s[0] == digits[0] && (|s| >= 2 ==> s[1] !in "xX") by {
      if |digits| > 1 { HexDigitIsNoSpace(digits[1]); }
    }
    BareHex(s);
    BareHex("+" + s);
    BareHex("0x" + s);
    BareHex("0X" + s);
    assert ("+" + s)[1..] == s && ("0x" + s)[2..] == s && ("0X" + s)[2..] == s;
  }

  lemma BareHex(s: string)
    ensures IsSpace('+') == IsSpace('0') == false
    ensures s != [] && !IsSpace(s[0]) ==> SkipSpace(s) == s
  {
    assert '0' !in " \t\n\r\U{0B}\U{0C}\U{A0}\U{1680}\U{2028}\U{2029}\U{202F}\U{205F}\U{3000}\U{FEFF}";
  }

  /** White space in front is skipped, capitals count, and a text that begins otherwise is no number. */
  lemma ParseHexOfFirst(c: char, rest: string)
    ensures IsSpace(c) ==> ParseHex([c] + rest) == ParseHex(rest)
    ensures 'A' <= c <= 'F' ==> ParseHex([c]) == Parsed(c as int - 'A' as int + 10)
    ensures !IsSpace(c) && c != '+' && !IsDigit(16, LowerCase(c)) ==> ParseHex([c] + rest).NotANumber?
    ensures ParseHex("").NotANumber?
  {
    hide IsSpace;
    assert ([c] + rest)[1..] == rest;
    if 'A' <= c <= 'F' {
      assert !IsSpace(c) by { SpacesByCode(c); }
      assert LeadingHex([c]) == [LowerCase(c)] && Value(16, []) == 0 && [LowerCase(c)][..0] == [];
      assert Value(16, [LowerCase(c)]) == DigitValue(LowerCase(c));
    }
  }

  lemma HexDigitIsNoSpace(c: char)
    requires IsDigit(16, c)
    ensures !IsSpace(c) && c != '+' && c !in "xX"
  {
  }

  lemma {:induction false} ValueOfNumeral(base: Base, n: nat)
    ensures Value(base, Numeral(base, n)) == n
    decreases n
  {
    var s := Numeral(base, n);
    DigitOfValue(n % base);
    if n < base {
      assert s[..0] == [];
    } else {
      var q := n / base;
      ValueOfNumeral(base, q);
      assert s[..|s| - 1] == Numeral(base, q);
      assert n == q * base + n % base by {
        if base == 10 { assert n == (n / 10) * 10 + n % 10; } else { assert n == (n / 16) * 16 + n % 16; }
      }
    }
  }

  lemma {:induction false} ValueOfLeadingZero(base: Base, s: string)
    ensures Value(base, "0" + s) == Value(base, s)
  {
    if s == [] {
      assert Value(base, ("0" + s)[..0]) == 0;
    } else {
      assert ("0" + s)[..|s|] == "0" + s[..|s| - 1];
      ValueOfLeadingZero(base, s[..|s| - 1]);
    }
  }

  lemma {:induction false} ValueOfPadded(base: Base, s: string, width: nat)
    requires AllDigits(base, s)
    ensures Value(base, PadStart(s, width)) == Value(base, s)
    ensures AllDigits(base, PadStart(s, width))
    decreases width - |s|
  {
    if |s| < width {
      ValueOfLeadingZero(base, s);
      ValueOfPadded(base, "0" + s, width);
    }
  }

  function Power(base: Base, width: nat): nat {
    if width == 0 then 1 else base * Power(base, width - 1)
  }

  lemma {:induction false} PowerIsPositive(base: Base, width: nat)
    ensures Power(base, width) >= 1
  {
    if width > 0 { PowerIsPositive(base, width - 1); }
  }

  lemma {:induction false} NumeralFits(base: Base, n: nat, width: nat)
    requires 0 < width && n < Power(base, width)
    ensures |Numeral(base, n)| <= width
    decreases width
  {
    if n >= base {
      assert n / base < Power(base, width - 1) by {
        if base == 10 { assert Power(10, width) == 10 * Power(10, width - 1); }
        else { assert Power(16, width) == 16 * Power(16, width - 1); }
      }
      NumeralFits(base, n / base, width - 1);
    }
  }

  /** Digit texts of one width are ordered as the numbers they denote. */
  lemma {:induction false} DigitsOrder(base: Base, a: string, b: string)
    requires |a| == |b| && AllDigits(base, a) && AllDigits(base, b)
    ensures Less(a, b) <==> Value(base, a) < Value(base, b)
    ensures a == b <==> Value(base, a) == Value(base, b)
  {
    if a != [] {
      var n := |a| - 1;
      assert a == a[..n] + [a[n]] && b == b[..n] + [b[n]];
      DigitsOrder(base, a[..n], b[..n]);
      LessOfConcat(a[..n], [a[n]], b[..n], [b[n]]);
      assert Less([a[n]], [b[n]]) <==> a[n] < b[n] by {
        assert [a[n]][1..] == [] && [b[n]][1..] == [];
      }
      DigitOrder(base, a[n], b[n]);
    }
  }

  /** A number in a fixed-width field, as the program formats stamps and dates. */
  function Field(base: Base, n: nat, width: nat): string {
    PadStart(Numeral(base, n), width)
  }

  /** A number that fits its field has the field's width, reads back, and orders as a number. */
  lemma FieldFaithful(base: Base, n: nat, width: nat)
    requires 0 < width && n < Power(base, width)
    ensures |Field(base, n, width)| == width
    ensures AllDigits(base, Field(base, n, width))
    ensures Value(base, Field(base, n, width)) == n
  {
    NumeralFits(base, n, width);
    ValueOfNumeral(base, n);
    ValueOfPadded(base, Numeral(base, n), width);
  }

  lemma FieldOrder(base: Base, m: nat, n: nat, width: nat)
    requires 0 < width && m < Power(base, width) && n < Power(base, width)
    ensures Less(Field(base, m, width), Field(base, n, width)) <==> m < n
    ensures Field(base, m, width) == Field(base, n, width) <==> m == n
  {
    FieldFaithful(base, m, width);
    FieldFaithful(base, n, width);
    DigitsOrder(base, Field(base, m, width), Field(base, n, width));
  }
}
