/**
 The hybrid logical clock and its stamps.

 A stamp is kept as its three fields; `Encode` and `Decode` are the text form, and
 `EncodeOrder` is what lets the rest of the model compare stamps by their fields where
 the program compares text.
 */
module Hlc {
  import opened Orders
  import opened Text

  datatype HlcState = HlcState(physical: nat, counter: nat)

  datatype Stamp = Stamp(physical: nat, counter: nat, device: string)

  const PHYSICAL_WIDTH := 19
  const COUNTER_WIDTH := 4
  const MAX_COUNTER := 0xffff
  const MAX_DRIFT_MS := 60 * 60 * 1000

  // Ordering

  predicate StateBefore(a: HlcState, b: HlcState) {
    a.physical < b.physical || (a.physical == b.physical && a.counter < b.counter)
  }

  function Clock(s: Stamp): HlcState {
    HlcState(s.physical, s.counter)
  }

  /** Causal order: physical time, then counter, then device. */
  predicate Before(a: Stamp, b: Stamp) {
    || StateBefore(Clock(a), Clock(b))
    || (Clock(a) == Clock(b) && Less(a.device, b.device))
  }

  predicate AtMost(a: Stamp, b: Stamp) {
    a == b || Before(a, b)
  }

  /** The clock has reached a stamp: whatever it issues next comes after that stamp. */
  predicate Reached(state: HlcState, s: Stamp) {
    !StateBefore(state, Clock(s))
  }

  /** All that is needed of stamp order by the proofs about logs. */
  lemma BeforeIsTotal()
    ensures forall a :: !Before(a, a)
    ensures forall a, b :: a == b || Before(a, b) || Before(b, a)
    ensures forall a, b :: Before(a, b) ==> !Before(b, a)
    ensures forall a, b, c :: Before(a, b) && Before(b, c) ==> Before(a, c)
  {
    LessIsStrictTotal();
    forall a: Stamp, b: Stamp
      ensures !Before(a, a) && (a == b || Before(a, b) || Before(b, a)) && (Before(a, b) ==> !Before(b, a))
    {
      LessTrichotomy(a.device, b.device);
    }
    forall a, b, c | Before(a, b) && Before(b, c) ensures Before(a, c) {
      if Clock(a) == Clock(b) == Clock(c) { LessTransitive(a.device, b.device, c.device); }
    }
  }

  lemma BeforeIsStrictTotal()
    ensures StrictTotal(Before)
  {
    BeforeIsTotal();
  }

  // Text form

  predicate Alphanumeric(c: char) {
    '0' <= c <= '9' || 'A' <= c <= 'Z' || 'a' <= c <= 'z'
  }

  /** The stamps the text form is meant for: fields that fit, and a device id of letters and digits. */
  predicate Encodable(s: Stamp) {
    && s.physical < Power(10, PHYSICAL_WIDTH)
    && s.counter <= MAX_COUNTER
    && s.device != ""
    && forall i :: 0 <= i < |s.device| ==> Alphanumeric(s.device[i])
  }

  function Encode(s: Stamp): string {
    Field(10, s.physical, PHYSICAL_WIDTH) + "-" + Field(16, s.counter, COUNTER_WIDTH) + "-" + s.device
  }

  /** JavaScript's `split` on one character. */
  function Split(s: string, separator: char): (parts: seq<string>)
    ensures |parts| >= 1
  {
    if s == [] then [""]
    else
      var rest := Split(s[1..], separator);
      if s[0] == separator then [""] + rest else [[s[0]] + rest[0]] + rest[1..]
  }

  /** A stamp's text is refused by shape; fields of the right width that are no numbers are not refused. */
  datatype Decoded = Decoded(stamp: Stamp) | BadNumber | Malformed

  /** The counter is read leniently, as `parseInt` does; of the physical part only plain digits are understood. */
  function Decode(text: string): Decoded {
    var parts := Split(text, '-');
    if |parts| != 3 then Malformed
    else if |parts[0]| != PHYSICAL_WIDTH || |parts[1]| != COUNTER_WIDTH then Malformed
    else if !AllDigits(10, parts[0]) || ParseHex(parts[1]).NotANumber? then BadNumber
    else Decoded(Stamp(Value(10, parts[0]), ParseHex(parts[1]).value, parts[2]))
  }

  lemma {:induction false} SplitOfPlain(s: string, separator: char)
    requires separator !in s
    ensures Split(s, separator) == [s]
  {
    if s != [] {
      SplitOfPlain(s[1..], separator);
      assert s == [s[0]] + s[1..];
    }
  }

  lemma {:induction false} SplitAtFirst(a: string, separator: char, rest: string)
    requires separator !in a
    ensures Split(a + [separator] + rest, separator) == [a] + Split(rest, separator)
  {
    var whole := a + [separator] + rest;
    if a == [] {
      assert whole[1..] == rest;
    } else {
      assert whole[1..] == a[1..] + [separator] + rest;
      SplitAtFirst(a[1..], separator, rest);
      assert a == [a[0]] + a[1..];
    }
  }

  /** The counter's range is exactly what four hexadecimal digits hold. */
  lemma CounterRange()
    ensures Power(16, COUNTER_WIDTH) == MAX_COUNTER + 1
  {
    assert Power(16, 4) == 16 * Power(16, 3);
    assert Power(16, 2) == 16 * Power(16, 1);
  }

  lemma DigitsHaveNoDash(base: Base, s: string)
    requires AllDigits(base, s)
    ensures '-' !in s
  {
  }

  /** Decoding inverts encoding. */
  lemma DecodeEncode(s: Stamp)
    requires Encodable(s)
    ensures Decode(Encode(s)) == Decoded(s)
  {
    hide Field, Value, Split, ParseHex, AllDigits, Alphanumeric;
    CounterRange();
    FieldFaithful(10, s.physical, PHYSICAL_WIDTH);
    FieldFaithful(16, s.counter, COUNTER_WIDTH);
    var p, c := Field(10, s.physical, PHYSICAL_WIDTH), Field(16, s.counter, COUNTER_WIDTH);
    ParseHexOfDigits(c);
    SplitIntoThree(p, c, s.device);
  }

  lemma SplitIntoThree(p: string, c: string, device: string)
    requires AllDigits(10, p) && AllDigits(16, c) && forall i :: 0 <= i < |device| ==> Alphanumeric(device[i])
    ensures Split(p + "-" + c + "-" + device, '-') == [p, c, device]
  {
    hide Split;
    DigitsHaveNoDash(10, p);
    DigitsHaveNoDash(16, c);
    assert p + "-" + c + "-" + device == p + ['-'] + (c + ['-'] + device);
    SplitAtFirst(p, '-', c + ['-'] + device);
    SplitAtFirst(c, '-', device);
    assert '-' !in device;
    SplitOfPlain(device, '-');
  }

  /** Comparing encoded stamps as text is comparing them causally. */
  lemma EncodeOrder(a: Stamp, b: Stamp)
    requires Encodable(a) && Encodable(b)
    ensures Less(Encode(a), Encode(b)) <==> Before(a, b)
    ensures Encode(a) == Encode(b) <==> a == b
  {
    CounterRange();
    var pa, pb := Field(10, a.physical, PHYSICAL_WIDTH), Field(10, b.physical, PHYSICAL_WIDTH);
    var ca, cb := Field(16, a.counter, COUNTER_WIDTH), Field(16, b.counter, COUNTER_WIDTH);
    assert |pa| == |pb| && |ca| == |cb| by {
      FieldFaithful(10, a.physical, PHYSICAL_WIDTH);
      FieldFaithful(10, b.physical, PHYSICAL_WIDTH);
      FieldFaithful(16, a.counter, COUNTER_WIDTH);
      FieldFaithful(16, b.counter, COUNTER_WIDTH);
    }
    FieldOrder(10, a.physical, b.physical, PHYSICAL_WIDTH);
    FieldOrder(16, a.counter, b.counter, COUNTER_WIDTH);
    DashedOrder(pa, ca, a.device, pb, cb, b.device);
    if Encode(a) == Encode(b) {
      DecodeEncode(a);
      DecodeEncode(b);
    }
  }

  // The clock

  datatype ClockError = Drift | Overflow | BadStamp

  datatype ClockResult = Advanced(state: HlcState) | Refused(error: ClockError)

  /** The clock after stamping a local event at wall time `wall`. */
  function Tick(state: HlcState, wall: int): ClockResult {
    if wall > state.physical then Advanced(HlcState(wall, 0))
    else if state.counter + 1 > MAX_COUNTER then Refused(Overflow)
    else Advanced(HlcState(state.physical, state.counter + 1))
  }

  function Max(a: int, b: int): int {
    if a < b then b else a
  }

  /** The clock after folding in a remote stamp at wall time `wall`. */
  function Observe(state: HlcState, remote: HlcState, wall: int): ClockResult {
    if remote.physical - wall > MAX_DRIFT_MS then Refused(Drift)
    else
      var physical := Max(wall, Max(state.physical, remote.physical));
      var counter :=
        if physical == state.physical && physical == remote.physical then Max(state.counter, remote.counter) + 1
        else if physical == state.physical then state.counter + 1
        else if physical == remote.physical then remote.counter + 1
        else 0;
      if counter > MAX_COUNTER then Refused(Overflow) else Advanced(HlcState(physical, counter))
  }

  /** Every stamp issued is after every stamp the clock had reached, and the clock reaches it. */
  lemma TickDominates(state: HlcState, wall: int, device: string, s: Stamp)
    requires Tick(state, wall).Advanced? && Reached(state, s)
    ensures var next := Tick(state, wall).state;
            && StateBefore(state, next)
            && Before(s, Stamp(next.physical, next.counter, device))
            && next.counter <= MAX_COUNTER
  {
  }

  /** Observing a stamp reaches it, and never moves the clock back. */
  lemma ObserveDominates(state: HlcState, remote: Stamp, wall: int, s: Stamp)
    requires Observe(state, Clock(remote), wall).Advanced?
    requires Reached(state, s) || AtMost(s, remote)
    ensures var next := Observe(state, Clock(remote), wall).state;
            && StateBefore(state, next) && Reached(next, remote) && Reached(next, s)
            && next.physical >= wall && next.counter <= MAX_COUNTER
  {
  }

  /** Folding a list of stamps in, each at its own wall time, stopping at the first refusal. */
  function ObserveAll(state: HlcState, stamps: seq<Stamp>, walls: seq<int>): (HlcState, bool)
    requires |stamps| == |walls|
    decreases |stamps|
  {
    if stamps == [] then (state, true)
    else
      match Observe(state, Clock(stamps[0]), walls[0])
      case Refused(_) => (state, false)
      case Advanced(next) => ObserveAll(next, stamps[1..], walls[1..])
  }

  lemma {:induction false} ObserveAllDominates(state: HlcState, stamps: seq<Stamp>, walls: seq<int>)
    requires |stamps| == |walls|
    ensures var (next, ok) := ObserveAll(state, stamps, walls);
            && !StateBefore(next, state)
            && (ok ==> forall h, s :: h in stamps && AtMost(s, h) ==> Reached(next, s))
    decreases |stamps|
  {
    if stamps != [] && Observe(state, Clock(stamps[0]), walls[0]).Advanced? {
      var next := Observe(state, Clock(stamps[0]), walls[0]).state;
      ObserveAllDominates(next, stamps[1..], walls[1..]);
      ObserveDominates(state, stamps[0], walls[0], stamps[0]);
      var (last, ok) := ObserveAll(next, stamps[1..], walls[1..]);
      forall h, s | ok && h in stamps && AtMost(s, h) ensures Reached(last, s) {
        if h == stamps[0] {
          ObserveDominates(state, stamps[0], walls[0], s);
        } else {
          assert h in stamps[1..];
        }
      }
    }
  }

  /** Folding stamp texts in; a text that is not a stamp stops the fold like a refusal. */
  function ObserveTexts(state: HlcState, texts: seq<string>, walls: seq<int>): (HlcState, bool)
    requires |texts| == |walls|
    decreases |texts|
  {
    if texts == [] then (state, true)
    else
      match Decode(texts[0])
      case Decoded(remote) =>
        (match Observe(state, Clock(remote), walls[0])
         case Refused(_) => (state, false)
         case Advanced(next) => ObserveTexts(next, texts[1..], walls[1..]))
      case _ => (state, false)
  }

  function Texts(stamps: seq<Stamp>): seq<string> {
    if stamps == [] then [] else [Encode(stamps[0])] + Texts(stamps[1..])
  }

  lemma {:induction false} TextsAreAsMany(stamps: seq<Stamp>)
    ensures |Texts(stamps)| == |stamps|
  {
    if stamps != [] { TextsAreAsMany(stamps[1..]); }
  }

  /** Observing the texts of stamps is observing the stamps. */
  lemma {:induction false} ObserveTextsOfStamps(state: HlcState, stamps: seq<Stamp>, walls: seq<int>)
    requires |stamps| == |walls| && forall s :: s in stamps ==> Encodable(s)
    ensures |Texts(stamps)| == |walls| && ObserveTexts(state, Texts(stamps), walls) == ObserveAll(state, stamps, walls)
    decreases |stamps|
  {
    hide Encodable, Encode, Decode, Observe;
    TextsAreAsMany(stamps);
    if stamps != [] {
      DecodeEncode(stamps[0]);
      assert Texts(stamps)[1..] == Texts(stamps[1..]);
      var result := Observe(state, Clock(stamps[0]), walls[0]);
      if result.Advanced? { ObserveTextsOfStamps(result.state, stamps[1..], walls[1..]); }
    }
  }

  // What the clock answers, without its arithmetic

  /** A clock state a local event may get: not behind the reading, and after the clock. */
  predicate MayTick(state: HlcState, wall: int, next: HlcState) {
    next.physical >= wall && StateBefore(state, next)
  }

  /** A clock state that may follow a remote stamp: it also comes after the stamp. */
  predicate MayFollow(state: HlcState, remote: HlcState, wall: int, next: HlcState) {
    MayTick(state, wall, next) && StateBefore(remote, next)
  }

  ghost predicate Least(may: HlcState -> bool, s: HlcState) {
    may(s) && forall t :: may(t) ==> !StateBefore(t, s)
  }

  /** A tick takes the earliest state it may, and fails exactly if that has a counter above 65,535. */
  lemma TickIsLeast(state: HlcState, wall: int) returns (least: HlcState)
    ensures Least(next => MayTick(state, wall, next), least)
    ensures Tick(state, wall) == if least.counter <= 65_535 then Advanced(least) else Refused(Overflow)
  {
    least := if wall > state.physical then HlcState(wall, 0) else HlcState(state.physical, state.counter + 1);
  }

  /**
   A remote stamp is accepted if and only if it is at most an hour (3,600,000 ms) ahead of the
   reading and the earliest state that may follow it has a counter of at most 65,535; the clock
   then takes that state.
   */
  lemma ObserveIsLeast(state: HlcState, remote: HlcState, wall: int) returns (least: HlcState)
    ensures Least(next => MayFollow(state, remote, wall, next), least)
    ensures Observe(state, remote, wall) ==
            if remote.physical > wall + 3_600_000 then Refused(Drift)
            else if least.counter <= 65_535 then Advanced(least)
            else Refused(Overflow)
  {
    var physical := Max(wall, Max(state.physical, remote.physical));
    var counter :=
      if physical == state.physical && physical == remote.physical then Max(state.counter, remote.counter) + 1
      else if physical == state.physical then state.counter + 1
      else if physical == remote.physical then remote.counter + 1
      else 0;
    least := HlcState(physical, counter);
  }

  /** With room for as many counts as stamps, a fold accepts stamps within the hour of their readings. */
  lemma {:induction false} ObserveAllAccepts(state: HlcState, stamps: seq<Stamp>, walls: seq<int>, most: nat)
    requires |stamps| == |walls| && most + |stamps| <= 65_535
    requires state.counter <= most && forall s :: s in stamps ==> s.counter <= most
    requires forall i :: 0 <= i < |stamps| ==> stamps[i].physical <= walls[i] + 3_600_000
    ensures ObserveAll(state, stamps, walls).1
    decreases |stamps|
  {
    if stamps != [] {
      assert stamps[0] in stamps;
      var next := Observe(state, Clock(stamps[0]), walls[0]);
      assert next.Advanced? && next.state.counter <= most + 1;
      ObserveAllAccepts(next.state, stamps[1..], walls[1..], most + 1);
    }
  }

  /** The clock object; `wall` is the reading of the injected time source at the call. */
  class HybridLogicalClock {
    const device: string
    var state: HlcState

    constructor (device: string, initial: HlcState)
      ensures this.device == device && state == initial
    {
      this.device := device;
      state := initial;
    }

    method TickStamp(wall: int) returns (stamp: string, result: ClockResult)
      modifies this
      ensures result == Tick(old(state), wall)
      ensures result.Advanced? ==>
                state == result.state && stamp == Encode(Stamp(state.physical, state.counter, device))
      ensures result.Refused? ==> state == old(state)
    {
      if wall > state.physical {
        state := HlcState(wall, 0);
      } else {
        var next := state.counter + 1;
        if next > MAX_COUNTER { return "", Refused(Overflow); }
        state := HlcState(state.physical, next);
      }
      return Encode(Stamp(state.physical, state.counter, device)), Advanced(state);
    }

    method ObserveStamp(text: string, wall: int) returns (result: ClockResult)
      modifies this
      ensures match Decode(text)
              case Decoded(remote) => result == Observe(old(state), Clock(remote), wall)
              case _ => result == Refused(BadStamp)
      ensures state == if result.Advanced? then result.state else old(state)
    {
      var decoded := Decode(text);
      if !decoded.Decoded? { return Refused(BadStamp); }
      var remote := decoded.stamp;
      if remote.physical - wall > MAX_DRIFT_MS { return Refused(Drift); }

      var physical := Max(wall, Max(state.physical, remote.physical));
      var counter: int;
      if physical == state.physical && physical == remote.physical {
        counter := Max(state.counter, remote.counter) + 1;
      } else if physical == state.physical {
        counter := state.counter + 1;
      } else if physical == remote.physical {
        counter := remote.counter + 1;
      } else {
        counter := 0;
      }
      if counter > MAX_COUNTER { return Refused(Overflow); }
      state := HlcState(physical, counter);
      return Advanced(state);
    }
  }
}
