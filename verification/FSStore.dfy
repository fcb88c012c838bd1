/** The file store as the program has it: maps updated in place, each method against its specification. */
module FSStores {
  import opened Orders
  import opened Text
  import opened ObjectNames
  import opened ObjectStores

  /** The sizes of the files named, in the same order. */
  predicate SizesOf(files: Files, names: seq<string>, sizes: seq<nat>) {
    && |sizes| == |names|
    && forall i :: 0 <= i < |names| ==> names[i] in files && sizes[i] == |files[names[i]]|
  }

  function Sizes(files: Files, names: seq<string>): (sizes: seq<nat>)
    requires forall n :: n in names ==> n in files
    ensures SizesOf(files, names, sizes)
  {
    seq(|names|, i requires 0 <= i < |names| => assert names[i] in names; |files[names[i]]|)
  }

  lemma PageIsStored(files: Files, names: seq<string>, page: seq<string>)
    requires page <= names && forall n :: n in names ==> n in files
    ensures forall n :: n in page ==> n in files
  {
  }

  class FSStore {
    const quota: int
    var files: map<string, Files>
    var orphans: map<string, nat>
    var usages: map<string, nat>

    ghost function View(): Store
      reads this
    {
      Store(quota, files, orphans, usages)
    }

    constructor (quota: int)
      ensures View() == Empty(quota)
    {
      this.quota := quota;
      files, orphans, usages := map[], map[], map[];
    }

    function Files(account: string): Files
      reads this
    {
      if account in files then files[account] else map[]
    }

    /** Adds up every file of an account, temporaries included, unless the figure is cached. */
    method Measure(account: string) returns (used: nat)
      modifies this`usages
      ensures (View(), used) == ObjectStores.Measure(old(View()), account)
    {
      if account in usages { return usages[account]; }
      ghost var start := View();
      var all := Files(account);
      var todo := all;
      used := if account in orphans then orphans[account] else 0;
      while todo != map[]
        invariant used + TotalSize(todo) == Occupied(start, account)
        invariant View() == start
        decreases |todo|
      {
        var name :| name in todo;
        TotalByAny(todo, name);
        used := used + |todo[name]|;
        todo := todo - {name};
      }
      assert TotalSize(todo) == 0;
      usages := usages[account := used];
    }

    method Put(account: string, name: string, data: seq<Byte>, cancelled: bool) returns (result: Outcome)
      modifies this`files, this`usages
      ensures (View(), result) == ObjectStores.Put(old(View()), account, name, data, cancelled)
    {
      if !ValidName(name) || !ValidAccount(account) { return Failed(InvalidName); }
      if cancelled { return Failed(Cancelled); }
      if name in Files(account) {
        return if Files(account)[name] == data then Done else Failed(AlreadyExists);
      }
      if quota > 0 {
        var used := Measure(account);
        if used + |data| > quota { return Failed(QuotaExceeded); }
      }
      files := files[account := Files(account)[name := data]];
      usages := usages - {account};
      return Done;
    }

    method Get(account: string, name: string, cancelled: bool) returns (result: Result<seq<Byte>>)
      ensures result.Ok? <==> ValidName(name) && ValidAccount(account) && !cancelled && name in FilesOf(View(), account)
      ensures result.Ok? ==> result.value == FilesOf(View(), account)[name]
      ensures result == Error(NotFound) <==>
              ValidName(name) && ValidAccount(account) && !cancelled && name !in FilesOf(View(), account)
    {
      if !ValidName(name) { return Error(InvalidName); }
      if cancelled { return Error(Cancelled); }
      if !ValidAccount(account) { return Error(InvalidName); }
      if name !in Files(account) { return Error(NotFound); }
      return Ok(Files(account)[name]);
    }

    method Delete(account: string, name: string, cancelled: bool) returns (result: Outcome)
      modifies this`files, this`usages
      ensures (View(), result) == ObjectStores.Delete(old(View()), account, name, cancelled)
    {
      if !ValidName(name) { return Failed(InvalidName); }
      if cancelled { return Failed(Cancelled); }
      if !ValidAccount(account) { return Failed(InvalidName); }
      if account in files { files := files[account := files[account] - {name}]; }
      usages := usages - {account};
      return Done;
    }

    /**
     Walks an account's files and returns one page of names in ascending order with their sizes. A
     cancelled request is noticed at the first directory entry, so not where there is no directory yet.
     */
    method List(account: string, prefix: string, cursor: string, limit: int, cancelled: bool)
      returns (result: Result<Listing>, sizes: seq<nat>)
      ensures result == if !ValidPrefix(prefix) || !ValidAccount(account) then Error(InvalidName)
                        else if cancelled && DirectoryExists(View(), account) then Error(Cancelled)
                        else Ok(Page(FilesOf(View(), account).Keys, prefix, cursor, limit))
      ensures result.Ok? ==> SizesOf(FilesOf(View(), account), result.value.names, sizes)
    {
      hide Less, StartsWith, ValidPrefix, ValidAccount, Enumerate, SizesOf;
      if !ValidPrefix(prefix) || !ValidAccount(account) { return Error(InvalidName), []; }
      if cancelled && (account in files || account in orphans) { return Error(Cancelled), []; }
      LessIsStrictTotal();
      var all := Files(account).Keys;
      var names: seq<string> := [];
      var todo := all;
      while todo != {}
        invariant todo <= all
        invariant StrictlyAscending(Less, names)
        invariant forall n :: n in names <==> n in Matching(all - todo, prefix, cursor)
        decreases |todo|
      {
        var name :| name in todo;
        todo := todo - {name};
        if StartsWith(name, prefix) && Less(cursor, name) {
          InsertNewKeepsStrictOrder(Less, names, name);
          names := Insert(Less, names, name);
        }
      }
      assert all - {} == all;
      EnumerateIsAscending(Less, Matching(all, prefix, cursor));
      AscendingIsUnique(Less, names, Enumerate(Less, Matching(all, prefix, cursor)));
      var size := PageSize(limit);
      var page := if |names| > size then Listing(names[..size], names[size - 1]) else Listing(names, "");
      PageIsStored(Files(account), names, page.names);
      sizes := Sizes(Files(account), page.names);
      return Ok(page), sizes;
    }
  }
}
