/**
 The client's paging loop over a listing whose store may change between requests:
 `stores` gives the names present at each request in turn.
 */
module Paging {
  import opened Orders
  import opened Text
  import opened ObjectNames
  import opened ObjectStores
  import opened FSStores

  ghost predicate NamesAreNonEmpty(stores: seq<set<string>>) {
    forall i, n :: 0 <= i < |stores| && n in stores[i] ==> n != ""
  }

  /** Following cursors from one request to the next, until a page names none or the requests run out. */
  ghost function Follow(stores: seq<set<string>>, prefix: string, cursor: string, limit: int): (seq<string>, bool)
    decreases |stores|
  {
    if stores == [] then ([], false)
    else
      var page := Page(stores[0], prefix, cursor, limit);
      if page.nextCursor == "" then (page.names, true)
      else var (more, complete) := Follow(stores[1..], prefix, page.nextCursor, limit); (page.names + more, complete)
  }

  /** A page holds exactly the matching names up to its end, ascending, and its cursor is its last name. */
  lemma PageIsExact(names: set<string>, prefix: string, cursor: string, limit: int)
    requires "" !in names
    ensures var page := Page(names, prefix, cursor, limit);
            && StrictlyAscending(Less, page.names)
            && (forall n :: n in page.names ==> n in Matching(names, prefix, cursor))
            && (page.nextCursor == "" ==> forall n :: n in Matching(names, prefix, cursor) ==> n in page.names)
            && (page.nextCursor != "" ==>
                  && page.names != [] && page.nextCursor == page.names[|page.names| - 1]
                     && page.nextCursor in page.names
                  && forall n :: n in Matching(names, prefix, cursor) && !Less(page.nextCursor, n) ==> n in page.names)
  {
    hide Less, Enumerate, Matching, StrictTotal, StrictlyAscending;
    LessIsStrictTotal();
    EnumerateIsAscending(Less, Matching(names, prefix, cursor));
    var all, size := Enumerate(Less, Matching(names, prefix, cursor)), PageSize(limit);
    assert "" !in all by { NoEmptyMatch(names, prefix, cursor); }
    if |all| > size {
      CutIsExact(all, size);
      assert all[size - 1] in all;
    }
  }

  lemma NoEmptyMatch(names: set<string>, prefix: string, cursor: string)
    requires "" !in names
    ensures "" !in Matching(names, prefix, cursor)
  {
  }

  lemma CutIsExact(all: seq<string>, size: nat)
    requires StrictTotal(Less) && StrictlyAscending(Less, all) && 0 < size < |all|
    ensures StrictlyAscending(Less, all[..size]) && all[size - 1] in all[..size]
    ensures forall n :: n in all && !Less(all[size - 1], n) ==> n in all[..size]
  {
    hide Less;
    assert all[..size][size - 1] == all[size - 1];
    forall n | n in all && !Less(all[size - 1], n) ensures n in all[..size] {
      var k :| 0 <= k < |all| && all[k] == n;
      assert k < size;
      assert all[..size][k] == n;
    }
  }

  /**
   Exactly once, whatever comes and goes between pages: the result ascends strictly, holds
   only names that matched at some request, and when it is complete holds every matching
   name that was there at every request.
   */
  lemma {:induction false} PagingIsExactlyOnce(stores: seq<set<string>>, prefix: string, cursor: string, limit: int)
    requires NamesAreNonEmpty(stores)
    ensures var (names, complete) := Follow(stores, prefix, cursor, limit);
            && StrictlyAscending(Less, names)
            && (forall n :: n in names ==>
                  Less(cursor, n) && StartsWith(n, prefix) && exists i :: 0 <= i < |stores| && n in stores[i])
            && (complete ==> forall n ::
                  (forall i :: 0 <= i < |stores| ==> n in stores[i]) && StartsWith(n, prefix) && Less(cursor, n) ==>
                      n in names)
    decreases |stores|
  {
    if stores != [] {
      hide Less, StartsWith, Page;
      LessIsStrictTotal();
      PageIsExact(stores[0], prefix, cursor, limit);
      var page := Page(stores[0], prefix, cursor, limit);
      if page.nextCursor != "" {
        assert NamesAreNonEmpty(stores[1..]);
        PagingIsExactlyOnce(stores[1..], prefix, page.nextCursor, limit);
        var (more, complete) := Follow(stores[1..], prefix, page.nextCursor, limit);
        PagesConcatenate(page.names, more, page.nextCursor);
        forall n | n in page.names + more
          ensures Less(cursor, n) && StartsWith(n, prefix) && exists i :: 0 <= i < |stores| && n in stores[i]
        {
          if n in page.names {
            assert n in stores[0];
          } else {
            assert n in more && Less(page.nextCursor, n) && Less(cursor, page.nextCursor);
            var i :| 0 <= i < |stores[1..]| && n in stores[1..][i];
            assert n in stores[i + 1];
          }
        }
        if complete {
          forall n | (forall i :: 0 <= i < |stores| ==> n in stores[i]) && StartsWith(n, prefix) && Less(cursor, n)
            ensures n in page.names + more
          {
            assert n in stores[0];
            assert forall i :: 0 <= i < |stores[1..]| ==> stores[1..][i] == stores[i + 1];
          }
        }
      }
    }
  }

  lemma PagesConcatenate(first: seq<string>, more: seq<string>, last: string)
    requires StrictTotal(Less)
    requires StrictlyAscending(Less, first) && StrictlyAscending(Less, more)
    requires first != [] && last == first[|first| - 1] && forall n :: n in more ==> Less(last, n)
    ensures StrictlyAscending(Less, first + more)
  {
    hide Less;
    forall i, j | 0 <= i < |first| && 0 <= j < |more| ensures Less(first[i], more[j]) {
      assert more[j] in more;
      assert i == |first| - 1 || Less(first[i], last);
    }
  }

  /** On a store that does not change, a request for each name and one more suffice, and give the full listing. */
  lemma FixedStoreListsAll(names: set<string>, requests: nat, prefix: string, cursor: string, limit: int)
    requires "" !in names && requests > |Matching(names, prefix, cursor)|
    ensures Follow(seq(requests, i => names), prefix, cursor, limit) ==
            (Enumerate(Less, Matching(names, prefix, cursor)), true)
  {
    var stores := seq(requests, i => names);
    PagingIsExactlyOnce(stores, prefix, cursor, limit);
    LessIsStrictTotal();
    EnumerateIsAscending(Less, Matching(names, prefix, cursor));
    hide Less, StartsWith, Page, Enumerate;
    var (found, complete) := Follow(stores, prefix, cursor, limit);
    FixedStoreCompletes(names, requests, prefix, cursor, limit);
    hide Follow;
    forall n ensures n in found <==> n in Matching(names, prefix, cursor) {
      if n in found { var i :| 0 <= i < |stores| && n in stores[i]; }
    }
    AscendingIsUnique(Less, found, Enumerate(Less, Matching(names, prefix, cursor)));
  }

  lemma {:induction false} FixedStoreCompletes(names: set<string>, requests: nat, prefix: string, cursor: string,
                                               limit: int)
    requires "" !in names && requests > |Matching(names, prefix, cursor)|
    ensures Follow(seq(requests, i => names), prefix, cursor, limit).1
    decreases requests
  {
    hide Less, StartsWith, Page, Matching;
    PageIsExact(names, prefix, cursor, limit);
    var stores := seq(requests, i => names);
    var page := Page(names, prefix, cursor, limit);
    if page.nextCursor != "" {
      LessIsStrictTotal();
      assert stores[1..] == seq(requests - 1, i => names);
      NextMatchingIsSmaller(names, prefix, cursor, page.nextCursor);
      FixedStoreCompletes(names, requests - 1, prefix, page.nextCursor, limit);
    }
  }

  lemma NextMatchingIsSmaller(names: set<string>, prefix: string, cursor: string, next: string)
    requires StrictTotal(Less) && next in Matching(names, prefix, cursor)
    ensures Matching(names, prefix, next) < Matching(names, prefix, cursor)
    ensures |Matching(names, prefix, next)| < |Matching(names, prefix, cursor)|
    ensures forall n :: n in Matching(names, prefix, cursor) ==>
              n == next || Less(n, next) || n in Matching(names, prefix, next)
  {
    hide Less, StartsWith;
    assert next !in Matching(names, prefix, next);
    SubsetIsSmaller(Matching(names, prefix, next), Matching(names, prefix, cursor));
  }

  lemma SubsetIsSmaller<T>(a: set<T>, b: set<T>)
    requires a < b
    ensures |a| < |b|
  {
    var x :| x in b && x !in a;
    assert a <= b - {x};
    SubsetCardinality(a, b - {x});
  }

  lemma {:induction false} SubsetCardinality<T>(a: set<T>, b: set<T>)
    requires a <= b
    ensures |a| <= |b|
    decreases |a|
  {
    if a != {} {
      var x :| x in a;
      SubsetCardinality(a - {x}, b - {x});
    }
  }

  lemma NotBack(a: string, b: string)
    requires Less(a, b)
    ensures !Less(b, a)
  {
    LessTrichotomy(a, b);
  }

  /** Sorting what is already strictly ascending changes nothing. */
  lemma {:induction false} SortKeepsAscending(s: seq<string>)
    requires StrictlyAscending(Less, s) && StrictTotal(Less)
    ensures SortBy(Less, s) == s
  {
    hide Less;
    if s != [] {
      var front, last := s[..|s| - 1], s[|s| - 1];
      SortKeepsAscending(front);
      assert s == front + [last];
      if front != [] {
        assert Less(front[|front| - 1], last);
        NotBack(front[|front| - 1], last);
      }
    }
  }

  /** Everything matching up to the cursor has been collected, in order. */
  ghost predicate UpTo(names: set<string>, prefix: string, objects: seq<string>, cursor: string) {
    && StrictlyAscending(Less, objects)
    && (forall n :: n in objects ==> n == cursor || Less(n, cursor))
    && (forall n :: n in Matching(names, prefix, "") <==> n in objects || n in Matching(names, prefix, cursor))
  }

  lemma PageExtends(names: set<string>, prefix: string, objects: seq<string>, cursor: string, limit: int)
    requires "" !in names && UpTo(names, prefix, objects, cursor)
    ensures var page := Page(names, prefix, cursor, limit);
            if page.nextCursor == "" then objects + page.names == Enumerate(Less, Matching(names, prefix, ""))
            else UpTo(names, prefix, objects + page.names, page.nextCursor)
                 && |Matching(names, prefix, page.nextCursor)| < |Matching(names, prefix, cursor)|
  {
    hide Less, StartsWith, Page, Enumerate;
    LessIsStrictTotal();
    EnumerateIsAscending(Less, Matching(names, prefix, ""));
    PageIsExact(names, prefix, cursor, limit);
    var page := Page(names, prefix, cursor, limit);
    AppendPage(objects, page.names, cursor);
    if page.nextCursor == "" {
      AscendingIsUnique(Less, objects + page.names, Enumerate(Less, Matching(names, prefix, "")));
    } else {
      NextMatchingIsSmaller(names, prefix, cursor, page.nextCursor);
      PageEndsAtCursor(page.names, page.nextCursor);
      assert Less(cursor, page.nextCursor);
    }
  }

  lemma PageEndsAtCursor(page: seq<string>, last: string)
    requires StrictlyAscending(Less, page) && page != [] && last == page[|page| - 1]
    ensures forall n :: n in page ==> n == last || Less(n, last)
  {
    hide Less;
  }

  lemma AppendPage(objects: seq<string>, page: seq<string>, cursor: string)
    requires StrictTotal(Less) && StrictlyAscending(Less, objects) && StrictlyAscending(Less, page)
    requires (forall n :: n in objects ==> n == cursor || Less(n, cursor)) && forall n :: n in page ==> Less(cursor, n)
    ensures StrictlyAscending(Less, objects + page)
  {
    hide Less;
    forall i, j | 0 <= i < |objects| && 0 <= j < |page| ensures Less(objects[i], page[j]) {
      assert objects[i] in objects && page[j] in page;
    }
  }

  lemma SortedListing(names: set<string>)
    ensures SortBy(Less, Enumerate(Less, names)) == Enumerate(Less, names)
  {
    LessIsStrictTotal();
    EnumerateIsAscending(Less, names);
    SortKeepsAscending(Enumerate(Less, names));
  }

  /** The adapter's loop: pages until the server gives no cursor, then sorts what it collected. */
  method ListAll(store: FSStore, account: string, prefix: string) returns (result: Result<seq<string>>)
    requires forall n :: n in FilesOf(store.View(), account) ==> ValidName(n)
    ensures result == if !ValidPrefix(prefix) || !ValidAccount(account) then Error(InvalidName)
                      else Ok(Enumerate(Less, Matching(FilesOf(store.View(), account).Keys, prefix, "")))
  {
    hide ValidPrefix, ValidAccount, Page, UpTo, Enumerate, Matching, SortBy;
    ghost var names := FilesOf(store.View(), account).Keys;
    assert !ValidName("");
    hide ValidName;
    var objects: seq<string>, cursor := [], "";
    NothingYet(names, prefix);
    while true
      invariant UpTo(names, prefix, objects, cursor)
      decreases |Matching(names, prefix, cursor)|
    {
      var reply, _ := store.List(account, prefix, cursor, 0, false);
      if reply.Error? { return Error(reply.error); }
      PageExtends(names, prefix, objects, cursor, 0);
      objects := objects + reply.value.names;
      if reply.value.nextCursor == "" { break; }
      cursor := reply.value.nextCursor;
    }
    SortedListing(Matching(names, prefix, ""));
    return Ok(SortBy(Less, objects));
  }

  lemma NothingYet(names: set<string>, prefix: string)
    ensures UpTo(names, prefix, [], "")
  {
  }
}
