/** When a recurring rule falls due, catching up in chunks, and the ids of what it produces. */
module Schedules {
  import opened Text
  import opened Calendar
  import opened Domain

  const MAX_SCAN := 25_000

  /** The nth occurrence, always measured from the start so that clamping does not accumulate. */
  function OccurrenceAt(s: Schedule, index: int): Date {
    var step := s.interval * index;
    match s.every
    case Day => AddDays(s.startDate, step)
    case Week => AddDays(s.startDate, step * 7)
    case Month => AddMonths(s.startDate, step)
    case Year => AddMonths(s.startDate, step * 12)
  }

  predicate WithinLimits(s: Schedule, index: int, date: Date) {
    && (s.maxOccurrences.None? || index < s.maxOccurrences.value)
    && (s.endDate.None? || NotAfter(date, s.endDate.value))
  }

  /** Occurrence `index` has fallen due by `asOf`, within the rule's limits and the scan bound. */
  predicate Due(s: Schedule, asOf: Date, index: int) {
    && 0 <= index < MAX_SCAN
    && NotAfter(OccurrenceAt(s, index), asOf)
    && WithinLimits(s, index, OccurrenceAt(s, index))
  }

  lemma OccurrencesAscend(s: Schedule, i: int, j: int)
    requires s.interval >= 1 && i < j
    ensures Earlier(OccurrenceAt(s, i), OccurrenceAt(s, j))
  {
    assert s.interval * i < s.interval * j;
    match s.every
    case Day => AddDaysIsAnAction(s.startDate, s.interval * i, s.interval * j);
    case Week => AddDaysIsAnAction(s.startDate, s.interval * i * 7, s.interval * j * 7);
    case Month => AddMonthsLands(s.startDate, s.interval * i, s.interval * j);
    case Year => AddMonthsLands(s.startDate, s.interval * i * 12, s.interval * j * 12);
  }

  /** What is due has no gaps before it, which is why the scan may stop at the first that is not. */
  lemma DueIsDownward(s: Schedule, asOf: Date, i: int, j: int)
    requires s.interval >= 1 && 0 <= i <= j && Due(s, asOf, j)
    ensures Due(s, asOf, i)
  {
    if i < j {
      OccurrencesAscend(s, i, j);
      hide OccurrenceAt;
      assert Due(s, asOf, i);
    }
  }

  predicate PassedOver(s: Schedule, after: Option<Date>, date: Date) {
    (after.Some? && NotAfter(date, after.value)) || date in s.skipped
  }

  /** Everything a scan from `index` finds, with no limit on how much. */
  function Scan(s: Schedule, asOf: Date, after: Option<Date>, index: nat): seq<Date>
    decreases MAX_SCAN - index
  {
    if !Due(s, asOf, index) then []
    else
      var rest := Scan(s, asOf, after, index + 1);
      if PassedOver(s, after, OccurrenceAt(s, index)) then rest else [OccurrenceAt(s, index)] + rest
  }

  function Take<T>(n: nat, xs: seq<T>): seq<T> {
    if |xs| <= n then xs else xs[..n]
  }

  /** The unskipped occurrences due by a date: the whole schedule so far. */
  function FullSchedule(s: Schedule, asOf: Date): seq<Date> {
    if s.interval < 1 then [] else Scan(s, asOf, None, 0)
  }

  /** Occurrences up to and including `asOf`, past `after`, at most `limit` of them. */
  method OccurrencesUpTo(s: Schedule, asOf: Date, limit: int := 500, after: Option<Date> := None)
    returns (dates: seq<Date>)
    ensures s.interval < 1 || limit < 1 ==> dates == []
    ensures s.interval >= 1 && limit >= 1 ==> dates == Take(limit, Scan(s, asOf, after, 0))
  {
    hide OccurrenceAt, WithinLimits, NotAfter, Scan, Take;
    if s.interval < 1 || limit < 1 { return []; }
    dates := [];
    var index := 0;
    assert dates + Scan(s, asOf, after, 0) == Scan(s, asOf, after, 0);
    while index < MAX_SCAN
      invariant 0 <= index <= MAX_SCAN && |dates| < limit
      invariant Scan(s, asOf, after, 0) == dates + Scan(s, asOf, after, index)
    {
      var date := OccurrenceAt(s, index);
      ScanStep(s, asOf, after, index, dates);
      if !NotAfter(date, asOf) { break; }
      if !WithinLimits(s, index, date) { break; }
      if after.Some? && NotAfter(date, after.value) { index := index + 1; continue; }
      if date in s.skipped { index := index + 1; continue; }
      dates := dates + [date];
      if |dates| >= limit {
        TakeAll(dates, Scan(s, asOf, after, index + 1), limit);
        return;
      }
      index := index + 1;
    }
    NothingAfterBound(s, asOf, after, index);
    assert dates + [] == dates;
    TakeAll(dates, [], limit);
  }

  /** One turn of the scan: it ends, passes the date over, or yields it. */
  lemma ScanStep(s: Schedule, asOf: Date, after: Option<Date>, index: nat, dates: seq<Date>)
    ensures !Due(s, asOf, index) ==> Scan(s, asOf, after, index) == []
    ensures Due(s, asOf, index) ==>
              var date, rest := OccurrenceAt(s, index), Scan(s, asOf, after, index + 1);
              dates + Scan(s, asOf, after, index) ==
              if PassedOver(s, after, date) then dates + rest else dates + [date] + rest
  {
    hide OccurrenceAt, Due, PassedOver;
  }

  lemma NothingAfterBound(s: Schedule, asOf: Date, after: Option<Date>, index: nat)
    requires index >= MAX_SCAN || !Due(s, asOf, index)
    ensures Scan(s, asOf, after, index) == []
  {
  }

  lemma TakeAll(dates: seq<Date>, rest: seq<Date>, limit: nat)
    requires |dates| == limit || (rest == [] && |dates| <= limit)
    ensures Take(limit, dates + rest) == dates
  {
  }

  // What a scan finds

  lemma {:induction false} ScanFinds(s: Schedule, asOf: Date, after: Option<Date>, index: nat, d: Date)
    requires s.interval >= 1
    ensures d in Scan(s, asOf, after, index) <==>
            exists i :: i >= index && Due(s, asOf, i) && OccurrenceAt(s, i) == d && !PassedOver(s, after, d)
    decreases MAX_SCAN - index
  {
    hide OccurrenceAt, WithinLimits, PassedOver, NotAfter;
    if Due(s, asOf, index) {
      ScanFinds(s, asOf, after, index + 1, d);
    } else {
      forall i | i >= index ensures !Due(s, asOf, i) {
        if Due(s, asOf, i) { DueIsDownward(s, asOf, index, i); }
      }
    }
  }

  lemma {:induction false} ScanAscends(s: Schedule, asOf: Date, after: Option<Date>, index: nat)
    requires s.interval >= 1
    ensures DatesAscend(Scan(s, asOf, after, index))
    decreases MAX_SCAN - index
  {
    hide OccurrenceAt, WithinLimits, PassedOver, Earlier;
    if Due(s, asOf, index) {
      ScanAscends(s, asOf, after, index + 1);
      var rest := Scan(s, asOf, after, index + 1);
      forall k | 0 <= k < |rest| ensures Earlier(OccurrenceAt(s, index), rest[k]) {
        ScanFinds(s, asOf, after, index + 1, rest[k]);
        var i :| i >= index + 1 && Due(s, asOf, i) && OccurrenceAt(s, i) == rest[k];
        OccurrencesAscend(s, index, i);
      }
    }
  }

  /** The schedule is strictly ascending and holds exactly the unskipped occurrences due. */
  lemma ScheduleIsExact(s: Schedule, asOf: Date)
    requires s.interval >= 1
    ensures DatesAscend(FullSchedule(s, asOf))
    ensures forall d: Date :: d in FullSchedule(s, asOf) <==>
            d !in s.skipped && exists i :: Due(s, asOf, i) && OccurrenceAt(s, i) == d
  {
    ScanAscends(s, asOf, None, 0);
    forall d: Date
      ensures d in FullSchedule(s, asOf) <==> d !in s.skipped && exists i :: Due(s, asOf, i) && OccurrenceAt(s, i) == d
    {
      ScanFinds(s, asOf, None, 0, d);
    }
  }

  /** By day numbers and months, without the program's arithmetic: `d` is occurrence number `n`. */
  predicate FallsOn(s: Schedule, n: nat, d: Date) {
    match s.every
    case Day => DaysBetween(s.startDate, d) == s.interval * n
    case Week => DaysBetween(s.startDate, d) == 7 * (s.interval * n)
    case Month => MonthIndex(d) == MonthIndex(s.startDate) + s.interval * n && SameDayOf(d, s.startDate.day)
    case Year =>
      d.year == s.startDate.year + s.interval * n && d.month == s.startDate.month && SameDayOf(d, s.startDate.day)
  }

  lemma OccurrenceFallsOn(s: Schedule, n: nat, d: Date)
    ensures OccurrenceAt(s, n) == d <==> FallsOn(s, n, d)
  {
    hide AddDays, AddMonths, DayNumber;
    var step := s.interval * n;
    match s.every
    case Day => DaysApart(s.startDate, step, d);
    case Week => DaysApart(s.startDate, step * 7, d);
    case Month => AddMonthsLands(s.startDate, 0, step);
    case Year => AddMonthsLands(s.startDate, 0, step * 12);
  }

  lemma DaysApart(from: Date, days: int, d: Date)
    ensures AddDays(from, days) == d <==> DaysBetween(from, d) == days
  {
    hide AddDays, DayNumber;
    AddDaysIsAnAction(from, days, days);
    AddDaysReaches(from, d);
  }

  /** One of the first 25,000 occurrences, within the rule's own count, falls on the date. */
  ghost predicate IsOccurrence(s: Schedule, d: Date) {
    exists n: nat :: n < 25_000 && (s.maxOccurrences.Some? ==> n < s.maxOccurrences.value) && FallsOn(s, n, d)
  }

  lemma DueIsOccurrence(s: Schedule, asOf: Date, d: Date)
    ensures (exists i :: Due(s, asOf, i) && OccurrenceAt(s, i) == d) <==>
            !Earlier(asOf, d) && (s.endDate.Some? ==> !Earlier(s.endDate.value, d)) && IsOccurrence(s, d)
  {
    hide FallsOn, OccurrenceAt, Earlier;
    if i :| Due(s, asOf, i) && OccurrenceAt(s, i) == d {
      OccurrenceFallsOn(s, i, d);
    }
    if !Earlier(asOf, d) && (s.endDate.Some? ==> !Earlier(s.endDate.value, d)) && IsOccurrence(s, d) {
      var n: nat :| n < 25_000 && (s.maxOccurrences.Some? ==> n < s.maxOccurrences.value) && FallsOn(s, n, d);
      OccurrenceFallsOn(s, n, d);
      assert Due(s, asOf, n);
    }
  }

  /** What a schedule holds: the unskipped occurrences by `asOf` and by the rule's own end. */
  lemma ScheduleMeans(s: Schedule, asOf: Date)
    ensures s.interval < 1 ==> FullSchedule(s, asOf) == []
    ensures s.interval >= 1 ==>
              forall d: Date :: d in FullSchedule(s, asOf) <==>
                && d !in s.skipped && !Earlier(asOf, d)
                && (s.endDate.Some? ==> !Earlier(s.endDate.value, d)) && IsOccurrence(s, d)
  {
    hide IsOccurrence, OccurrenceAt, Earlier, Scan, Due;
    if s.interval >= 1 {
      ScheduleIsExact(s, asOf);
      forall d: Date ensures d in FullSchedule(s, asOf) <==>
        && d !in s.skipped && !Earlier(asOf, d)
        && (s.endDate.Some? ==> !Earlier(s.endDate.value, d)) && IsOccurrence(s, d)
      {
        DueIsOccurrence(s, asOf, d);
      }
    }
  }

  /** What is due by a date is a beginning of what is due by a later one, wherever the scan resumes. */
  lemma {:induction false} ScanExtends(s: Schedule, date: Date, later: Date, after: Option<Date>, index: nat)
    requires NotAfter(date, later)
    ensures Scan(s, date, after, index) <= Scan(s, later, after, index)
    decreases MAX_SCAN - index
  {
    hide OccurrenceAt, WithinLimits, PassedOver;
    if Due(s, date, index) {
      assert Due(s, later, index);
      ScanExtends(s, date, later, after, index + 1);
    }
  }

  function Later(xs: seq<Date>, after: Date): seq<Date> {
    if xs == [] then [] else (if NotAfter(xs[0], after) then [] else [xs[0]]) + Later(xs[1..], after)
  }

  lemma {:induction false} ScanAfter(s: Schedule, asOf: Date, after: Date, index: nat)
    ensures Scan(s, asOf, Some(after), index) == Later(Scan(s, asOf, None, index), after)
    decreases MAX_SCAN - index
  {
    if Due(s, asOf, index) {
      ScanAfter(s, asOf, after, index + 1);
    }
  }

  lemma {:induction false} LaterOfAscending(xs: seq<Date>, n: nat)
    requires DatesAscend(xs) && 0 < n <= |xs|
    ensures Later(xs, xs[n - 1]) == xs[n..]
  {
    assert xs == [xs[0]] + xs[1..];
    if n > 1 {
      assert Earlier(xs[0], xs[n - 1]);
      LaterOfAscending(xs[1..], n - 1);
      assert xs[1..][n - 2] == xs[n - 1] && xs[1..][n - 1..] == xs[n..];
    } else {
      AllLater(xs[1..], xs[0]);
    }
  }

  lemma {:induction false} AllLater(xs: seq<Date>, after: Date)
    requires forall k :: 0 <= k < |xs| ==> Earlier(after, xs[k])
    ensures Later(xs, after) == xs
  {
    if xs != [] {
      assert xs == [xs[0]] + xs[1..];
      AllLater(xs[1..], after);
    }
  }

  /** Resuming after the nth date of the schedule yields the rest of the schedule. */
  lemma ResumeYieldsRest(s: Schedule, asOf: Date, n: nat)
    requires s.interval >= 1 && 0 < n <= |FullSchedule(s, asOf)|
    ensures Scan(s, asOf, Some(FullSchedule(s, asOf)[n - 1]), 0) == FullSchedule(s, asOf)[n..]
  {
    ScanAscends(s, asOf, None, 0);
    ScanAfter(s, asOf, FullSchedule(s, asOf)[n - 1], 0);
    LaterOfAscending(FullSchedule(s, asOf), n);
  }

  /** Repeated bounded calls, each resuming after the last date the one before returned. */
  function CatchUp(s: Schedule, asOf: Date, limits: seq<nat>, after: Option<Date>): seq<Date>
    decreases |limits|
  {
    if limits == [] then []
    else
      var chunk := Take(limits[0], Scan(s, asOf, after, 0));
      if chunk == [] then [] else chunk + CatchUp(s, asOf, limits[1..], Some(chunk[|chunk| - 1]))
  }

  function Sum(xs: seq<nat>): nat {
    if xs == [] then 0 else xs[0] + Sum(xs[1..])
  }

  lemma {:induction false} CatchUpFrom(s: Schedule, asOf: Date, limits: seq<nat>, n: nat, after: Option<Date>)
    requires s.interval >= 1 && n <= |FullSchedule(s, asOf)|
    requires forall i :: 0 <= i < |limits| ==> limits[i] >= 1
    requires after == if n == 0 then None else Some(FullSchedule(s, asOf)[n - 1])
    ensures CatchUp(s, asOf, limits, after) == Take(Sum(limits), FullSchedule(s, asOf)[n..])
    decreases |limits|
  {
    hide Scan, Earlier, Take;
    var all := FullSchedule(s, asOf);
    if limits == [] {
      TakeNone(all[n..]);
    } else {
      if n > 0 { ResumeYieldsRest(s, asOf, n); }
      assert Scan(s, asOf, after, 0) == all[n..];
      var chunk := Take(limits[0], all[n..]);
      TakeTwice(all, n, limits[0], Sum(limits[1..]));
      if chunk != [] {
        var m := n + |chunk|;
        CatchUpFrom(s, asOf, limits[1..], m, Some(all[m - 1]));
      }
    }
  }

  lemma TakeNone(xs: seq<Date>)
    ensures Take(0, xs) == []
  {
  }

  /** Taking from a list and then from what is left is taking both at once. */
  lemma TakeTwice(all: seq<Date>, n: nat, first: nat, second: nat)
    requires n <= |all| && first >= 1
    ensures var chunk := Take(first, all[n..]); var m := n + |chunk|;
            && m <= |all| && (chunk == [] ==> Take(first + second, all[n..]) == [])
            && (chunk != [] ==> chunk[|chunk| - 1] == all[m - 1])
            && Take(first + second, all[n..]) == chunk + Take(second, all[m..])
  {
    var chunk := Take(first, all[n..]);
    assert all[n..][|chunk|..] == all[n + |chunk|..];
  }

  /** Catching up in chunks of any sizes gives the schedule in order; enough chunks give all of it. */
  lemma ChunkedIsOneShot(s: Schedule, asOf: Date, limits: seq<nat>)
    requires s.interval >= 1 && forall i :: 0 <= i < |limits| ==> limits[i] >= 1
    ensures CatchUp(s, asOf, limits, None) == Take(Sum(limits), FullSchedule(s, asOf))
    ensures |limits| >= |FullSchedule(s, asOf)| ==> CatchUp(s, asOf, limits, None) == FullSchedule(s, asOf)
  {
    CatchUpFrom(s, asOf, limits, 0, None);
    assert FullSchedule(s, asOf)[0..] == FullSchedule(s, asOf);
    SumAtLeast(limits);
  }

  lemma {:induction false} SumAtLeast(xs: seq<nat>)
    requires forall i :: 0 <= i < |xs| ==> xs[i] >= 1
    ensures Sum(xs) >= |xs|
  {
    if xs != [] { SumAtLeast(xs[1..]); }
  }

  // Occurrence ids

  function OccurrenceId(ruleId: string, date: Date): string
    requires FourDigitYear(date)
  {
    ruleId + ":" + FormatDate(date)
  }

  datatype ParsedId = NotAnOccurrence | AnOccurrence(ruleId: string, date: Ymd)

  /** What `.` matches: anything but a line terminator. */
  predicate OneLine(s: string) {
    forall i :: 0 <= i < |s| ==> s[i] !in "\n\r\U{2028}\U{2029}"
  }

  /** `/^(.+):(\d{4}-\d{2}-\d{2})$/` */
  function ParseOccurrenceId(id: string): ParsedId {
    if |id| >= 12 && id[|id| - 11] == ':' && DateShaped(id[|id| - 10..]) && OneLine(id[..|id| - 11]) then
      AnOccurrence(id[..|id| - 11], ParseDate(id[|id| - 10..]).date)
    else NotAnOccurrence
  }

  /** The ids read as occurrences are exactly a non-empty one-line rule id, a colon and a date's text. */
  lemma OccurrenceIdsAre(id: string, ruleId: string, date: Ymd)
    ensures ParseOccurrenceId(id) == AnOccurrence(ruleId, date) <==>
            && ruleId != "" && OneLine(ruleId) && ruleId + ":" <= id
            && ParseDate(id[|ruleId| + 1..]) == ADate(date)
  {
    hide OneLine;
    if ParseOccurrenceId(id).AnOccurrence? {
      var n := |id| - 11;
      assert id == id[..n] + ":" + id[n + 1..] && id[..n + 1] == id[..n] + ":";
    }
    if ruleId + ":" <= id {
      assert id[|ruleId|] == (ruleId + ":")[|ruleId|] && id[..|ruleId|] == (ruleId + ":")[..|ruleId|] == ruleId;
    }
  }

  /** An id gives back its date and its rule, if that is one non-empty line; the ids of one rule sort by date. */
  lemma OccurrenceIdFaithful(ruleId: string, a: Date, b: Date)
    requires FourDigitYear(a) && FourDigitYear(b)
    ensures ParseOccurrenceId(OccurrenceId(ruleId, a)) ==
            if ruleId != "" && OneLine(ruleId) then AnOccurrence(ruleId, a) else NotAnOccurrence
    ensures Less(OccurrenceId(ruleId, a), OccurrenceId(ruleId, b)) <==> Earlier(a, b)
    ensures OccurrenceId(ruleId, a) == OccurrenceId(ruleId, b) <==> a == b
  {
    ParseFormat(a);
    ParseFormat(b);
    var id := OccurrenceId(ruleId, a);
    assert id[|id| - 10..] == FormatDate(a) && id[..|id| - 11] == ruleId;
    var id' := OccurrenceId(ruleId, b);
    assert id'[|id'| - 10..] == FormatDate(b);
    LessOfCommonHead(ruleId + ":", FormatDate(a), FormatDate(b));
    FormatOrder(a, b);
  }
}
