/**
 Names of remote objects: how the client builds them, reads a stamp back from them, and
 what the server accepts.
 */
module ObjectNames {
  import opened Text
  import opened Hlc

  const SUFFIX := ".edk"

  function OpsPrefix(vaultId: string): string {
    "vaults/" + vaultId + "/ops/"
  }

  function OpsObjectName(vaultId: string, head: string): string {
    OpsPrefix(vaultId) + head + SUFFIX
  }

  function SnapshotPrefix(vaultId: string): string {
    "vaults/" + vaultId + "/snapshots/"
  }

  function SnapshotObjectName(vaultId: string, watermark: string): string {
    SnapshotPrefix(vaultId) + watermark + SUFFIX
  }

  // The patterns, as the two ends write them

  predicate AllAlphanumeric(s: string) {
    forall i :: 0 <= i < |s| ==> Alphanumeric(s[i])
  }

  /** 19 digits, a dash, 4 lower-case hexadecimal digits, a dash, and a non-empty device id. */
  predicate StampShaped(s: string) {
    && 26 <= |s|
    && AllDigits(10, s[..19]) && s[19] == '-'
    && AllDigits(16, s[20..24]) && s[24] == '-'
    && AllAlphanumeric(s[25..])
  }

  predicate EndsWith(s: string, suffix: string) {
    |suffix| <= |s| && s[|s| - |suffix|..] == suffix
  }

  /** The text after the last slash, or `None` where there is no slash. */
  datatype Tail = NoSlash | After(text: string)

  function LastSegment(s: string): Tail {
    if s == [] then NoSlash
    else if s[|s| - 1] == '/' then After("")
    else
      match LastSegment(s[..|s| - 1])
      case NoSlash => NoSlash
      case After(text) => After(text + [s[|s| - 1]])
  }

  datatype StampText = Unnamed | Named(stamp: string)

  /** The stamp an object is named after: its last path segment, if stamp-shaped with the suffix. */
  function StampFromObjectName(name: string): StampText {
    match LastSegment(name)
    case NoSlash => Unnamed
    case After(text) =>
      if EndsWith(text, SUFFIX) && StampShaped(text[..|text| - |SUFFIX|]) then Named(text[..|text| - |SUFFIX|])
      else Unnamed
  }

  lemma {:induction false} LastSegmentOfPath(path: string, segment: string)
    requires '/' !in segment
    ensures LastSegment(path + "/" + segment) == After(segment)
  {
    var s := path + "/" + segment;
    if segment != [] {
      var n := |segment| - 1;
      assert s[..|s| - 1] == path + "/" + segment[..n];
      LastSegmentOfPath(path, segment[..n]);
      assert segment == segment[..n] + [segment[n]];
    }
  }

  lemma FieldsAreStampShaped(p: string, c: string, device: string)
    requires |p| == 19 && AllDigits(10, p) && |c| == 4 && AllDigits(16, c) && device != "" && AllAlphanumeric(device)
    ensures StampShaped(p + "-" + c + "-" + device)
  {
    hide AllDigits, AllAlphanumeric;
    var e := p + "-" + c + "-" + device;
    assert e[..19] == p && e[19] == '-' && e[20..24] == c && e[24] == '-' && e[25..] == device;
  }

  lemma FieldsHaveNoSlash(p: string, c: string, device: string)
    requires AllDigits(10, p) && AllDigits(16, c) && AllAlphanumeric(device)
    ensures '/' !in p + "-" + c + "-" + device
  {
    assert '/' !in p && '/' !in c && '/' !in device;
  }

  lemma EncodedIsStampShaped(s: Stamp)
    requires Encodable(s)
    ensures StampShaped(Encode(s)) && |Encode(s)| == 25 + |s.device|
    ensures '/' !in Encode(s)
  {
    hide Field, Value, AllDigits, StampShaped, Power, Alphanumeric;
    CounterRange();
    FieldFaithful(10, s.physical, PHYSICAL_WIDTH);
    FieldFaithful(16, s.counter, COUNTER_WIDTH);
    FieldsAreStampShaped(Field(10, s.physical, PHYSICAL_WIDTH), Field(16, s.counter, COUNTER_WIDTH), s.device);
    FieldsHaveNoSlash(Field(10, s.physical, PHYSICAL_WIDTH), Field(16, s.counter, COUNTER_WIDTH), s.device);
  }

  lemma SegmentGivesStamp(path: string, stamp: string)
    requires StampShaped(stamp) && '/' !in stamp
    ensures StampFromObjectName(path + "/" + (stamp + SUFFIX)) == Named(stamp)
  {
    hide StampShaped, LastSegment;
    var segment := stamp + SUFFIX;
    assert segment[..|segment| - 4] == stamp && segment[|segment| - 4..] == SUFFIX;
    LastSegmentOfPath(path, segment);
  }

  lemma StampHasNoSlash(stamp: string)
    requires StampShaped(stamp)
    ensures '/' !in stamp
  {
    assert stamp == stamp[..19] + "-" + stamp[20..24] + "-" + stamp[25..];
    assert '/' !in stamp[..19] && '/' !in stamp[20..24] && '/' !in stamp[25..];
  }

  lemma {:induction false} LastSegmentIsEnd(s: string)
    ensures LastSegment(s).After? ==> EndsWith(s, "/" + LastSegment(s).text)
  {
    if s != [] && s[|s| - 1] != '/' {
      var n := |s| - 1;
      LastSegmentIsEnd(s[..n]);
      if LastSegment(s).After? {
        var text := LastSegment(s[..n]).text;
        assert s == s[..n] + [s[n]] && s[..n] == s[..n][..n - |text| - 1] + ("/" + text);
        assert s == s[..n][..n - |text| - 1] + ("/" + (text + [s[n]]));
      }
    }
  }

  /** The names that give a stamp are exactly those that end on a slash, the stamp and the suffix. */
  lemma StampsAreNamed(name: string, stamp: string)
    ensures StampFromObjectName(name) == Named(stamp) <==> StampShaped(stamp) && EndsWith(name, "/" + stamp + ".edk")
  {
    hide StampShaped, LastSegment;
    LastSegmentIsEnd(name);
    if StampFromObjectName(name) == Named(stamp) {
      assert LastSegment(name).text == stamp + ".edk" && "/" + stamp + ".edk" == "/" + (stamp + ".edk");
    }
    if StampShaped(stamp) && EndsWith(name, "/" + stamp + ".edk") {
      StampHasNoSlash(stamp);
      var path := name[..|name| - |"/" + stamp + ".edk"|];
      assert name == path + ("/" + stamp + ".edk") && name == path + "/" + (stamp + SUFFIX);
      SegmentGivesStamp(path, stamp);
    }
  }

  /** The stamp survives being made into a name, whatever the vault id holds. */
  lemma NameGivesStampBack(vaultId: string, s: Stamp)
    requires Encodable(s)
    ensures StampFromObjectName(OpsObjectName(vaultId, Encode(s))) == Named(Encode(s))
    ensures StampFromObjectName(SnapshotObjectName(vaultId, Encode(s))) == Named(Encode(s))
    ensures Decode(Encode(s)) == Decoded(s)
  {
    hide StampFromObjectName, StampShaped, Encode, Decode, Encodable;
    EncodedIsStampShaped(s);
    DecodeEncode(s);
    var segment := Encode(s) + SUFFIX;
    SegmentGivesStamp("vaults/" + vaultId + "/ops", Encode(s));
    assert OpsObjectName(vaultId, Encode(s)) == "vaults/" + vaultId + "/ops" + "/" + segment;
    SegmentGivesStamp("vaults/" + vaultId + "/snapshots", Encode(s));
    assert SnapshotObjectName(vaultId, Encode(s)) == "vaults/" + vaultId + "/snapshots" + "/" + segment;
  }

  /** The suffix sorts below every letter and digit, so it does not disturb the order of device ids. */
  lemma {:induction false} SuffixKeepsOrder(x: string, y: string)
    requires AllAlphanumeric(x) && AllAlphanumeric(y)
    ensures Less(x + SUFFIX, y + SUFFIX) <==> Less(x, y)
  {
    if x != [] && y != [] && x[0] == y[0] {
      assert (x + SUFFIX)[1..] == x[1..] + SUFFIX && (y + SUFFIX)[1..] == y[1..] + SUFFIX;
      SuffixKeepsOrder(x[1..], y[1..]);
    } else if x == [] && y == [] {
      assert x + SUFFIX == SUFFIX == y + SUFFIX;
      LessTrichotomy(SUFFIX, SUFFIX);
    } else if x == [] {
      assert (y + SUFFIX)[0] == y[0] && SUFFIX[0] == '.';
    } else if y == [] {
      assert (x + SUFFIX)[0] == x[0] && SUFFIX[0] == '.';
    }
  }

  lemma EncodedEndsWithDevice(s: Stamp)
    requires Encodable(s)
    ensures |Encode(s)| >= 25 && Encode(s) == Encode(s)[..25] + s.device && AllAlphanumeric(s.device)
  {
    hide Field, Power, Alphanumeric;
    CounterRange();
    FieldFaithful(10, s.physical, PHYSICAL_WIDTH);
    FieldFaithful(16, s.counter, COUNTER_WIDTH);
  }

  lemma SuffixedOrder(head: string, device: string, head': string, device': string)
    requires |head| == |head'| && AllAlphanumeric(device) && AllAlphanumeric(device')
    ensures Less(head + device + SUFFIX, head' + device' + SUFFIX) <==> Less(head + device, head' + device')
  {
    hide Less, AllAlphanumeric;
    assert head + device + SUFFIX == head + (device + SUFFIX);
    assert head' + device' + SUFFIX == head' + (device' + SUFFIX);
    LessOfConcat(head, device + SUFFIX, head', device' + SUFFIX);
    LessOfConcat(head, device, head', device');
    SuffixKeepsOrder(device, device');
  }

  /** Listing a vault's objects by name lists them by stamp. */
  lemma NameOrder(vaultId: string, a: Stamp, b: Stamp)
    requires Encodable(a) && Encodable(b)
    ensures Less(OpsObjectName(vaultId, Encode(a)), OpsObjectName(vaultId, Encode(b))) <==> Before(a, b)
    ensures OpsObjectName(vaultId, Encode(a)) == OpsObjectName(vaultId, Encode(b)) <==> a == b
  {
    hide Less, Before, Encode, Encodable, AllAlphanumeric, StampFromObjectName, Decode;
    var ea, eb, prefix := Encode(a), Encode(b), OpsPrefix(vaultId);
    EncodedEndsWithDevice(a);
    EncodedEndsWithDevice(b);
    assert OpsObjectName(vaultId, ea) == prefix + (ea + SUFFIX) && OpsObjectName(vaultId, eb) == prefix + (eb + SUFFIX);
    LessOfCommonHead(prefix, ea + SUFFIX, eb + SUFFIX);
    SuffixedOrder(ea[..25], a.device, eb[..25], b.device);
    EncodeOrder(a, b);
    NameGivesStampBack(vaultId, a);
    NameGivesStampBack(vaultId, b);
  }

  // The server's side

  const MAX_NAME := 256

  predicate VaultIdShaped(s: string) {
    1 <= |s| <= 64 && forall i :: 0 <= i < |s| ==> Alphanumeric(s[i]) || s[i] == '-'
  }

  function FirstSlash(s: string): (i: nat)
    ensures i <= |s|
    ensures '/' !in s[..i]
    ensures i < |s| ==> s[i] == '/'
  {
    if s == [] || s[0] == '/' then 0 else 1 + FirstSlash(s[1..])
  }

  predicate StartsWith(s: string, prefix: string) {
    |prefix| <= |s| && s[..|prefix|] == prefix
  }

  predicate HasDoubleDot(s: string) {
    exists i :: 0 <= i < |s| - 1 && s[i] == '.' && s[i + 1] == '.'
  }

  /** `vaults/<vault>/ops/<stamp>.edk`, with the server's bounds on the vault and device ids. */
  predicate MatchesPattern(name: string) {
    && StartsWith(name, "vaults/")
    && var rest := name[7..];
    && var k := FirstSlash(rest);
    && VaultIdShaped(rest[..k])
    && StartsWith(rest[k..], "/ops/")
    && var file := rest[k + 5..];
    && EndsWith(file, SUFFIX)
    && StampShaped(file[..|file| - 4])
    && |file| - 4 - 25 <= 32
  }

  predicate ValidName(name: string) {
    && |name| <= MAX_NAME
    && !HasDoubleDot(name) && !StartsWith(name, "/")
    && MatchesPattern(name)
  }

  lemma {:induction false} FirstSlashOfPath(a: string, b: string)
    requires '/' !in a
    ensures FirstSlash(a + "/" + b) == |a|
  {
    if a != [] {
      assert (a + "/" + b)[1..] == a[1..] + "/" + b;
      FirstSlashOfPath(a[1..], b);
    }
  }

  lemma NoSlashInVaultId(vaultId: string)
    requires VaultIdShaped(vaultId)
    ensures '/' !in vaultId
  {
  }

  lemma VaultNameSlices(vaultId: string, tail: string)
    requires '/' !in vaultId
    ensures var rest := vaultId + "/" + tail;
            && ("vaults/" + rest)[7..] == rest && StartsWith("vaults/" + rest, "vaults/")
            && FirstSlash(rest) == |vaultId| && rest[..|vaultId|] == vaultId && rest[|vaultId|..] == "/" + tail
  {
    hide FirstSlash;
    FirstSlashOfPath(vaultId, tail);
    assert ("vaults/" + (vaultId + "/" + tail))[..7] == "vaults/";
  }

  lemma OpsNameMatches(vaultId: string, stamp: string)
    requires VaultIdShaped(vaultId) && StampShaped(stamp) && |stamp| <= 57
    ensures MatchesPattern(OpsObjectName(vaultId, stamp))
  {
    hide StampShaped, VaultIdShaped, FirstSlash;
    NoSlashInVaultId(vaultId);
    var file := stamp + SUFFIX;
    VaultNameSlices(vaultId, "ops/" + file);
    var rest := vaultId + "/" + ("ops/" + file);
    assert OpsObjectName(vaultId, stamp) == "vaults/" + rest;
    OpsTail(vaultId, file);
    assert file[..|file| - 4] == stamp && file[|file| - 4..] == SUFFIX;
  }

  lemma OpsTail(vaultId: string, file: string)
    ensures var rest := vaultId + "/" + ("ops/" + file);
            StartsWith(rest[|vaultId|..], "/ops/") && rest[|vaultId| + 5..] == file
  {
    var tail := (vaultId + "/" + ("ops/" + file))[|vaultId|..];
    assert tail == "/ops/" + file && tail[..5] == "/ops/";
  }

  lemma SnapshotNameRefused(vaultId: string, stamp: string)
    requires VaultIdShaped(vaultId)
    ensures !MatchesPattern(SnapshotObjectName(vaultId, stamp))
  {
    hide MatchesPattern, VaultIdShaped, StartsWith;
    NoSlashInVaultId(vaultId);
    var tail := "snapshots/" + stamp + SUFFIX;
    assert SnapshotObjectName(vaultId, stamp) == "vaults/" + (vaultId + "/" + tail);
    MatchIsUnderOps(vaultId, tail);
    NotUnderOps("/" + tail);
  }

  lemma MatchIsUnderOps(vaultId: string, tail: string)
    requires '/' !in vaultId
    ensures MatchesPattern("vaults/" + (vaultId + "/" + tail)) ==> StartsWith("/" + tail, "/ops/")
  {
    hide StampShaped, VaultIdShaped, FirstSlash, EndsWith, StartsWith;
    VaultNameSlices(vaultId, tail);
  }

  lemma NotUnderOps(tail: string)
    requires |tail| >= 2 && tail[1] != 'o'
    ensures !StartsWith(tail, "/ops/")
  {
    assert |tail| >= 5 ==> tail[..5][1] == tail[1];
    assert "/ops/"[1] == 'o';
  }

  /** The server stores every operation batch a client names, and no snapshot. */
  lemma ServerAcceptsOpsOnly(vaultId: string, s: Stamp)
    requires VaultIdShaped(vaultId) && Encodable(s) && |s.device| <= 32
    ensures ValidName(OpsObjectName(vaultId, Encode(s)))
    ensures !ValidName(SnapshotObjectName(vaultId, Encode(s)))
  {
    EncodedIsStampShaped(s);
    OpsNameMatches(vaultId, Encode(s));
    DotsOnlyInSuffix(vaultId, s);
    SnapshotNameRefused(vaultId, Encode(s));
    var name := OpsObjectName(vaultId, Encode(s));
    assert name[0] == 'v' && "/"[0] != 'v';
  }

  lemma DotsOnlyInSuffix(vaultId: string, s: Stamp)
    requires VaultIdShaped(vaultId) && Encodable(s)
    ensures !HasDoubleDot(OpsObjectName(vaultId, Encode(s)))
  {
    EncodedIsStampShaped(s);
    var e := Encode(s);
    assert e == e[..19] + "-" + e[20..24] + "-" + e[25..];
    var head := "vaults/" + vaultId + "/ops/" + e;
    assert '.' !in head by {
      assert '.' !in e[..19] && '.' !in e[20..24] && '.' !in e[25..];
      assert '.' !in "vaults/" && '.' !in vaultId && '.' !in "/ops/";
    }
    assert OpsObjectName(vaultId, e) == head + SUFFIX;
    assert SUFFIX[1] == 'e' && SUFFIX[2] == 'd' && SUFFIX[3] == 'k';
  }

  /** The parts of a name as the server's pattern has them, put together. */
  predicate IsOpsName(name: string, vault: string, physical: string, counter: string, device: string) {
    && 1 <= |vault| <= 64 && (forall i :: 0 <= i < |vault| ==> Alphanumeric(vault[i]) || vault[i] == '-')
    && |physical| == 19 && AllDigits(10, physical) && |counter| == 4 && AllDigits(16, counter)
    && 1 <= |device| <= 32 && AllAlphanumeric(device)
    && name == "vaults/" + vault + "/ops/" + (physical + "-" + counter + "-" + device) + ".edk"
  }

  /**
   The names the server accepts are exactly those put together from such parts: its checks of
   length, of two dots and of a leading slash refuse no name that has the shape.
   */
  lemma ValidNamesAreOpsNames(name: string)
    ensures ValidName(name) <==>
            exists vault, physical, counter, device :: IsOpsName(name, vault, physical, counter, device)
  {
    hide IsOpsName, MatchesPattern;
    if ValidName(name) { var vault, physical, counter, device := PatternParts(name); }
    if vault, physical, counter, device :| IsOpsName(name, vault, physical, counter, device) {
      PartsMakeAName(name, vault, physical, counter, device);
    }
  }

  lemma PatternParts(name: string) returns (vault: string, physical: string, counter: string, device: string)
    requires MatchesPattern(name)
    ensures IsOpsName(name, vault, physical, counter, device)
  {
    hide FirstSlash, AllDigits, Alphanumeric, AllAlphanumeric, StampShaped;
    var rest := name[7..];
    var k := FirstSlash(rest);
    var file := rest[k + 5..];
    var stamp := file[..|file| - 4];
    vault := rest[..k];
    physical, counter, device := StampParts(stamp);
    PutTogether(name, rest, k, file, stamp);
  }

  lemma StampParts(stamp: string) returns (physical: string, counter: string, device: string)
    requires StampShaped(stamp)
    ensures |physical| == 19 && AllDigits(10, physical) && |counter| == 4 && AllDigits(16, counter)
    ensures device != "" && AllAlphanumeric(device) && |device| == |stamp| - 25
    ensures stamp == physical + "-" + counter + "-" + device
  {
    hide AllDigits, AllAlphanumeric;
    physical, counter, device := stamp[..19], stamp[20..24], stamp[25..];
  }

  lemma PutTogether(name: string, rest: string, k: nat, file: string, stamp: string)
    requires |name| >= 7 && name[..7] == "vaults/" && rest == name[7..]
    requires k + 5 <= |rest| && rest[k..][..5] == "/ops/" && file == rest[k + 5..]
    requires |file| >= 4 && file[|file| - 4..] == ".edk" && stamp == file[..|file| - 4]
    ensures name == "vaults/" + rest[..k] + "/ops/" + stamp + ".edk"
  {
    assert name == "vaults/" + rest && rest == rest[..k] + rest[k..] && rest[k..] == "/ops/" + file;
    assert file == stamp + ".edk";
  }

  lemma PartsMakeAName(name: string, vault: string, physical: string, counter: string, device: string)
    requires IsOpsName(name, vault, physical, counter, device)
    ensures ValidName(name)
  {
    hide StampShaped, FirstSlash, MatchesPattern, HasDoubleDot, AllDigits, AllAlphanumeric, Alphanumeric;
    var stamp := physical + "-" + counter + "-" + device;
    FieldsAreStampShaped(physical, counter, device);
    OpsNameMatches(vault, stamp);
    assert name == OpsObjectName(vault, stamp);
    NoDotsInParts(vault, physical, counter, device);
    assert name[0] == 'v' && "/"[0] != 'v';
  }

  lemma NoDotsInParts(vault: string, physical: string, counter: string, device: string)
    requires VaultIdShaped(vault) && AllDigits(10, physical) && AllDigits(16, counter) && AllAlphanumeric(device)
    ensures !HasDoubleDot("vaults/" + vault + "/ops/" + (physical + "-" + counter + "-" + device) + ".edk")
  {
    var head := "vaults/" + vault + "/ops/" + (physical + "-" + counter + "-" + device);
    assert '.' !in head by {
      assert '.' !in physical && '.' !in counter && '.' !in device && '.' !in vault;
      assert '.' !in "vaults/" && '.' !in "/ops/" && '.' !in "-";
    }
    assert ".edk"[1] == 'e' && ".edk"[2] == 'd' && ".edk"[3] == 'k';
  }
}
