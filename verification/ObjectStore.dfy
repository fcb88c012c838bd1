/**
 The server's file store: per-account immutable objects, a quota, and a cache of usage.
 Each request is one step, as the account lock makes it. Temporary files a crash leaves
 behind are kept as a byte count: usage counts them and listings do not.
 */
module ObjectStores {
  import opened Orders
  import opened Text
  import opened ObjectNames

  type Byte = b: int | 0 <= b < 256

  type Files = map<string, seq<Byte>>

  datatype StoreError = InvalidName | Cancelled | AlreadyExists | QuotaExceeded | NotFound

  datatype Outcome = Done | Failed(error: StoreError)

  /** The store: files by account, bytes of orphaned temporaries, cached usages; quota 0 means none. */
  datatype Store = Store(quota: int, files: map<string, Files>, orphans: map<string, nat>, usages: map<string, nat>)

  predicate ValidAccount(account: string) {
    account != "" && forall i :: 0 <= i < |account| ==> account[i] !in "/\\."
  }

  function FilesOf(s: Store, account: string): Files {
    if account in s.files then s.files[account] else map[]
  }

  function OrphansOf(s: Store, account: string): nat {
    if account in s.orphans then s.orphans[account] else 0
  }

  // Byte totals

  ghost function TotalSize(files: Files): nat {
    if files == map[] then 0
    else var name :| name in files; |files[name]| + TotalSize(files - {name})
  }

  /** The total may be taken in any order. */
  lemma {:induction false} TotalByAny(files: Files, name: string)
    requires name in files
    ensures TotalSize(files) == |files[name]| + TotalSize(files - {name})
    decreases |files|
  {
    var first :| first in files && TotalSize(files) == |files[first]| + TotalSize(files - {first});
    if first != name {
      TotalByAny(files - {first}, name);
      TotalByAny(files - {name}, first);
      assert files - {first} - {name} == files - {name} - {first};
    }
  }

  lemma TotalAfterPut(files: Files, name: string, data: seq<Byte>)
    requires name !in files
    ensures TotalSize(files[name := data]) == TotalSize(files) + |data|
  {
    TotalByAny(files[name := data], name);
    assert files[name := data] - {name} == files;
  }

  lemma TotalAfterDelete(files: Files, name: string)
    ensures TotalSize(files - {name}) <= TotalSize(files)
  {
    if name in files { TotalByAny(files, name); } else { assert files - {name} == files; }
  }

  /** What the account really occupies. */
  ghost function Occupied(s: Store, account: string): nat {
    TotalSize(FilesOf(s, account)) + OrphansOf(s, account)
  }

  // Requests

  /** `usage`: the cached figure if there is one, else measured and cached. */
  ghost function Measure(s: Store, account: string): (Store, nat) {
    if account in s.usages then (s, s.usages[account])
    else (s.(usages := s.usages[account := Occupied(s, account)]), Occupied(s, account))
  }

  ghost function Put(s: Store, account: string, name: string, data: seq<Byte>, cancelled: bool): (Store, Outcome) {
    if !ValidName(name) || !ValidAccount(account) then (s, Failed(InvalidName))
    else if cancelled then (s, Failed(Cancelled))
    else if name in FilesOf(s, account) then
      (s, if FilesOf(s, account)[name] == data then Done else Failed(AlreadyExists))
    else
      var (measured, used) := if s.quota > 0 then Measure(s, account) else (s, 0);
      if s.quota > 0 && used + |data| > s.quota then (measured, Failed(QuotaExceeded))
      else (measured.(files := s.files[account := FilesOf(s, account)[name := data]],
                      usages := measured.usages - {account}), Done)
  }

  function Delete(s: Store, account: string, name: string, cancelled: bool): (Store, Outcome) {
    if !ValidName(name) then (s, Failed(InvalidName))
    else if cancelled then (s, Failed(Cancelled))
    else if !ValidAccount(account) then (s, Failed(InvalidName))
    else
      var files := if account in s.files then s.files[account := s.files[account] - {name}] else s.files;
      (s.(files := files, usages := s.usages - {account}), Done)
  }

  /** The account's directory was made by an upload, finished or not; nothing removes it. */
  predicate DirectoryExists(s: Store, account: string) {
    account in s.files || account in s.orphans
  }

  /** The process dies while an upload's temporary file holds some bytes; the cache dies with it. */
  function CrashDuringPut(s: Store, account: string, written: nat): Store {
    s.(orphans := s.orphans[account := OrphansOf(s, account) + written], usages := map[])
  }

  datatype Request =
    | PutRequest(account: string, name: string, data: seq<Byte>, cancelled: bool)
    | DeleteRequest(account: string, name: string, cancelled: bool)
    | UsageRequest(account: string)
    | Crash(account: string, written: nat)

  ghost function Serve(s: Store, r: Request): Store {
    match r
    case PutRequest(account, name, data, cancelled) => Put(s, account, name, data, cancelled).0
    case DeleteRequest(account, name, cancelled) => Delete(s, account, name, cancelled).0
    case UsageRequest(account) => if ValidAccount(account) then Measure(s, account).0 else s
    case Crash(account, written) => CrashDuringPut(s, account, written)
  }

  ghost function ServeAll(s: Store, rs: seq<Request>): Store
    decreases |rs|
  {
    if rs == [] then s else ServeAll(Serve(s, rs[0]), rs[1..])
  }

  function Empty(quota: int): Store {
    Store(quota, map[], map[], map[])
  }

  // What every run keeps

  /** A cached usage is the true one, stored names are valid, and objects fit the quota. */
  ghost predicate StoreInv(s: Store) {
    && (forall a :: a in s.usages ==> s.usages[a] == Occupied(s, a))
    && (s.quota > 0 ==> forall a :: a in s.files ==> TotalSize(s.files[a]) <= s.quota)
    && (forall a, n :: a in s.files && n in s.files[a] ==> ValidName(n))
  }

  lemma PutKeeps(s: Store, account: string, name: string, data: seq<Byte>, cancelled: bool)
    requires StoreInv(s)
    ensures StoreInv(Put(s, account, name, data, cancelled).0)
  {
    hide ValidName, ValidAccount, TotalSize;
    if name !in FilesOf(s, account) {
      TotalAfterPut(FilesOf(s, account), name, data);
    }
  }

  lemma DeleteKeeps(s: Store, account: string, name: string, cancelled: bool)
    requires StoreInv(s)
    ensures StoreInv(Delete(s, account, name, cancelled).0)
  {
    hide ValidName, ValidAccount;
    TotalAfterDelete(FilesOf(s, account), name);
    assert TotalSize(map[]) == 0;
    hide TotalSize;
  }

  lemma ServeKeeps(s: Store, r: Request)
    requires StoreInv(s)
    ensures StoreInv(Serve(s, r)) && Serve(s, r).quota == s.quota
  {
    hide ValidName, ValidAccount, TotalSize;
    match r
    case PutRequest(account, name, data, cancelled) => PutKeeps(s, account, name, data, cancelled);
    case DeleteRequest(account, name, cancelled) => DeleteKeeps(s, account, name, cancelled);
    case UsageRequest(_) =>
    case Crash(_, _) =>
  }

  lemma {:induction false} ServeAllKeeps(s: Store, rs: seq<Request>)
    requires StoreInv(s)
    ensures StoreInv(ServeAll(s, rs)) && ServeAll(s, rs).quota == s.quota
    decreases |rs|
  {
    if rs != [] {
      ServeKeeps(s, rs[0]);
      ServeAllKeeps(Serve(s, rs[0]), rs[1..]);
    }
  }

  /** Over every run from an empty store: cached usages are true and objects never exceed a positive quota. */
  lemma AccountingHolds(quota: int, rs: seq<Request>)
    ensures var s := ServeAll(Empty(quota), rs);
            && (forall a :: a in s.usages ==> s.usages[a] == Occupied(s, a))
            && (quota > 0 ==> forall a :: a in s.files ==> TotalSize(s.files[a]) <= quota)
            && (forall a, n :: a in s.files && n in s.files[a] ==> ValidName(n))
  {
    hide Occupied, TotalSize, ValidName;
    ServeAllKeeps(Empty(quota), rs);
  }

  function AccountOf(r: Request): string {
    match r
    case PutRequest(account, _, _, _) => account
    case DeleteRequest(account, _, _) => account
    case UsageRequest(account) => account
    case Crash(account, _) => account
  }

  /** A request touches one account's files; a crash besides empties the cache. */
  lemma {:induction false} AccountsAreIsolated(s: Store, rs: seq<Request>, other: string)
    requires forall i :: 0 <= i < |rs| ==> AccountOf(rs[i]) != other
    ensures FilesOf(ServeAll(s, rs), other) == FilesOf(s, other)
    ensures OrphansOf(ServeAll(s, rs), other) == OrphansOf(s, other)
    decreases |rs|
  {
    hide ValidName, ValidAccount, TotalSize;
    if rs != [] {
      assert AccountOf(rs[0]) != other;
      AccountsAreIsolated(Serve(s, rs[0]), rs[1..], other);
    }
  }

  predicate Deletes(r: Request, account: string, name: string) {
    r.DeleteRequest? && r.account == account && r.name == name
  }

  /** A name keeps its first bytes until it is deleted, whatever else is asked of the store. */
  lemma {:induction false} FirstBytesStay(s: Store, rs: seq<Request>, account: string, name: string)
    requires name in FilesOf(s, account)
    requires forall i :: 0 <= i < |rs| ==> !Deletes(rs[i], account, name)
    ensures name in FilesOf(ServeAll(s, rs), account)
            && FilesOf(ServeAll(s, rs), account)[name] == FilesOf(s, account)[name]
    decreases |rs|
  {
    hide ValidName, ValidAccount, TotalSize;
    if rs != [] {
      assert !Deletes(rs[0], account, name);
      FirstBytesStay(Serve(s, rs[0]), rs[1..], account, name);
    }
  }

  /** A retried upload is accepted and changes nothing; other bytes under the name are refused. */
  lemma PutIsImmutable(s: Store, account: string, name: string, data: seq<Byte>, again: seq<Byte>)
    requires Put(s, account, name, data, false).1.Done?
    ensures var once := Put(s, account, name, data, false).0;
            Put(once, account, name, again, false) == (once, if again == data then Done else Failed(AlreadyExists))
  {
    hide ValidName, ValidAccount, TotalSize;
  }

  /**
   What an upload answers. It succeeds if and only if the names are valid, the request is not
   cancelled, and the name is new and what the account really occupies leaves room for it, or holds
   these bytes already; the first reason against it is the one reported.
   */
  lemma PutAnswers(s: Store, account: string, name: string, data: seq<Byte>, cancelled: bool)
    requires StoreInv(s)
    ensures var result := Put(s, account, name, data, cancelled).1;
            var valid, stored := ValidName(name) && ValidAccount(account), name in FilesOf(s, account);
            var fits := s.quota <= 0 || Occupied(s, account) + |data| <= s.quota;
            && (result == Failed(InvalidName) <==> !valid)
            && (result == Failed(Cancelled) <==> valid && cancelled)
            && (result == Failed(AlreadyExists) <==>
                  valid && !cancelled && stored && FilesOf(s, account)[name] != data)
            && (result == Failed(QuotaExceeded) <==> valid && !cancelled && !stored && !fits)
            && (result == Done <==> valid && !cancelled && if stored then FilesOf(s, account)[name] == data else fits)
  {
    hide ValidName, ValidAccount, TotalSize;
  }

  /** No account is outside its own directory: its name has no separator and no dot. */
  lemma AccountsStayInside(account: string)
    ensures ValidAccount(account) <==> account != "" && '/' !in account && '\\' !in account && '.' !in account
  {
  }

  /** A successful upload leaves the bytes under the name, and exactly the other names of the account as they were. */
  lemma PutStores(s: Store, account: string, name: string, data: seq<Byte>, cancelled: bool)
    ensures var (s', result) := Put(s, account, name, data, cancelled);
            && FilesOf(s', account) == (if result.Done? then FilesOf(s, account)[name := data] else FilesOf(s, account))
            && OrphansOf(s', account) == OrphansOf(s, account)
  {
    hide ValidName, ValidAccount, TotalSize;
  }

  /** A delete that is valid and not cancelled succeeds, leaves exactly the other names and frees the bytes. */
  lemma DeleteFrees(s: Store, account: string, name: string, cancelled: bool)
    ensures var (s', result) := Delete(s, account, name, cancelled);
            && (result == Done <==> ValidName(name) && ValidAccount(account) && !cancelled)
            && (result != Done ==> s' == s)
            && (result == Done ==> FilesOf(s', account) == FilesOf(s, account) - {name})
            && (result == Done && name in FilesOf(s, account) ==>
                  Occupied(s', account) == Occupied(s, account) - |FilesOf(s, account)[name]|)
  {
    hide ValidName, ValidAccount, TotalSize;
    if name in FilesOf(s, account) { TotalByAny(FilesOf(s, account), name); }
  }

  /** Asking for the usage answers what is occupied, remembers it, and changes nothing else. */
  lemma MeasureCaches(s: Store, account: string)
    requires StoreInv(s)
    ensures Measure(s, account) == (s.(usages := s.usages[account := Occupied(s, account)]), Occupied(s, account))
  {
    hide TotalSize;
    if account in s.usages { assert s.usages[account := s.usages[account]] == s.usages; }
  }

  /** What a crash leaves behind is occupied. */
  lemma CrashOccupies(s: Store, account: string, written: nat)
    ensures Occupied(Serve(s, Crash(account, written)), account) == Occupied(s, account) + written
    ensures Occupied(Empty(s.quota), account) == 0
  {
  }

  // Listing

  datatype Listing = Listing(names: seq<string>, nextCursor: string)

  function PageSize(limit: int): int {
    if limit <= 0 then 1000 else limit
  }

  ghost function Matching(names: set<string>, prefix: string, cursor: string): set<string> {
    set n | n in names && StartsWith(n, prefix) && Less(cursor, n)
  }

  /** One page of the names after the cursor; the cursor to go on from is the page's last name, if there is more. */
  ghost function Page(names: set<string>, prefix: string, cursor: string, limit: int): Listing {
    var all := Enumerate(Less, Matching(names, prefix, cursor));
    if |all| > PageSize(limit) then Listing(all[..PageSize(limit)], all[PageSize(limit) - 1]) else Listing(all, "")
  }

  /**
   A page has all the names there are, up to the limit, or up to 1,000 where no positive limit is
   given; it has a cursor to go on from if and only if there are more.
   */
  lemma PageHasLength(names: set<string>, prefix: string, cursor: string, limit: int)
    ensures var found, most := |Matching(names, prefix, cursor)|, if limit >= 1 then limit else 1_000;
            && |Page(names, prefix, cursor, limit).names| == (if found <= most then found else most)
            && (Page(names, prefix, cursor, limit).nextCursor == "" <==> found <= most)
  {
    hide StartsWith;
    LessIsStrictTotal();
    var all := Enumerate(Less, Matching(names, prefix, cursor));
    EnumerateIsAscending(Less, Matching(names, prefix, cursor));
    forall i | 0 <= i < |all| ensures all[i] != "" { assert all[i] in all && !Less(cursor, ""); }
  }

  predicate ValidPrefix(prefix: string) {
    && |prefix| <= MAX_NAME && !HasDoubleDot(prefix) && !StartsWith(prefix, "/")
    && forall i :: 0 <= i < |prefix| ==> PrefixChar(prefix[i])
  }

  predicate PrefixChar(c: char) {
    'a' <= c <= 'z' || 'A' <= c <= 'Z' || '0' <= c <= '9' || c in "-_/."
  }

  /** Whatever a stored name begins with may be asked for as a prefix. */
  lemma BeginningsAreListable(name: string, k: nat)
    requires ValidName(name) && k <= |name|
    ensures ValidPrefix(name[..k])
  {
    hide MatchesPattern;
    var vault, physical, counter, device := PatternParts(name);
    assert forall i :: 0 <= i < |name| ==> PrefixChar(name[i]) by {
      hide ValidName;
      assert forall i :: 0 <= i < |"vaults/"| ==> PrefixChar("vaults/"[i]);
      assert forall i :: 0 <= i < |"/ops/"| ==> PrefixChar("/ops/"[i]);
      assert forall i :: 0 <= i < |".edk"| ==> PrefixChar(".edk"[i]);
    }
    if k > 0 { assert name[..k][0] == name[0] && name[..1] == [name[0]]; }
  }

  datatype Result<+T> = Ok(value: T) | Error(error: StoreError)
}
