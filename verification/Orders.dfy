/**
 Strict orders, sorted sequences and sorting, for the three things the program sorts:
 operations by clock stamp, object names by text and transactions by date.
 */
module Orders {

  /** A strict total order: what stamps and object names are compared with. */
  ghost predicate StrictTotal<T(!new)>(lt: (T, T) -> bool) {
    && (forall a :: !lt(a, a))
    && (forall a, b, c :: lt(a, b) && lt(b, c) ==> lt(a, c))
    && (forall a, b :: a == b || lt(a, b) || lt(b, a))
  }

  /** A strict weak order: a total order on keys, seen through the elements that carry them. */
  ghost predicate StrictWeak<T(!new)>(lt: (T, T) -> bool) {
    && (forall a, b :: lt(a, b) ==> !lt(b, a))
    && (forall a, b, c :: lt(a, c) ==> lt(a, b) || lt(b, c))
  }

  /** Never descends; ties are allowed. */
  ghost predicate Ascending<T>(lt: (T, T) -> bool, s: seq<T>) {
    forall i, j :: 0 <= i < j < |s| ==> !lt(s[j], s[i])
  }

  /** Strictly ascends, hence has no duplicates. */
  ghost predicate StrictlyAscending<T>(lt: (T, T) -> bool, s: seq<T>) {
    forall i, j :: 0 <= i < j < |s| ==> lt(s[i], s[j])
  }

  /** Places `x` after every element that is not above it, so equal elements keep their order. */
  function Insert<T>(lt: (T, T) -> bool, s: seq<T>, x: T): seq<T> {
    if s == [] || !lt(x, s[|s| - 1]) then s + [x]
    else Insert(lt, s[..|s| - 1], x) + [s[|s| - 1]]
  }

  /** The stable sort of a sequence. */
  function SortBy<T>(lt: (T, T) -> bool, s: seq<T>): seq<T> {
    if s == [] then [] else Insert(lt, SortBy(lt, s[..|s| - 1]), s[|s| - 1])
  }

  lemma {:induction false} InsertKeepsElements<T>(lt: (T, T) -> bool, s: seq<T>, x: T)
    ensures multiset(Insert(lt, s, x)) == multiset(s) + multiset{x}
    ensures forall y :: y in Insert(lt, s, x) <==> y in s || y == x
  {
    if s == [] || !lt(x, s[|s| - 1]) {
    } else {
      var front, last := s[..|s| - 1], s[|s| - 1];
      assert s == front + [last];
      InsertKeepsElements(lt, front, x);
    }
  }

  lemma {:induction false} InsertKeepsOrder<T(!new)>(lt: (T, T) -> bool, s: seq<T>, x: T)
    requires StrictWeak(lt) && Ascending(lt, s)
    ensures Ascending(lt, Insert(lt, s, x))
  {
    if s == [] {
    } else if !lt(x, s[|s| - 1]) {
      forall i | 0 <= i < |s| && lt(x, s[i]) ensures lt(s[|s| - 1], s[i]) {
        assert lt(x, s[|s| - 1]) || lt(s[|s| - 1], s[i]);
      }
    } else {
      var front, last := s[..|s| - 1], s[|s| - 1];
      InsertKeepsOrder(lt, front, x);
      InsertKeepsElements(lt, front, x);
      forall y | y in Insert(lt, front, x) ensures !lt(last, y) {
        if y != x {
          var k :| 0 <= k < |front| && front[k] == y;
        }
      }
    }
  }

  /** Sorting permutes its input and leaves it ascending. */
  lemma {:induction false} SortByIsSorted<T(!new)>(lt: (T, T) -> bool, s: seq<T>)
    requires StrictWeak(lt)
    ensures multiset(SortBy(lt, s)) == multiset(s)
    ensures forall y :: y in SortBy(lt, s) <==> y in s
    ensures Ascending(lt, SortBy(lt, s))
  {
    if s != [] {
      var front, last := s[..|s| - 1], s[|s| - 1];
      assert s == front + [last];
      SortByIsSorted(lt, front);
      InsertKeepsElements(lt, SortBy(lt, front), last);
      InsertKeepsOrder(lt, SortBy(lt, front), last);
    }
  }

  /** The elements of a finite set in ascending order, as a database index returns them. */
  ghost function Enumerate<T(!new)>(lt: (T, T) -> bool, xs: set<T>): seq<T> {
    if xs == {} then []
    else var x :| x in xs; Insert(lt, Enumerate(lt, xs - {x}), x)
  }

  lemma InsertNewKeepsStrictOrder<T(!new)>(lt: (T, T) -> bool, s: seq<T>, x: T)
    requires StrictTotal(lt) && StrictlyAscending(lt, s) && x !in s
    ensures StrictlyAscending(lt, Insert(lt, s, x))
    ensures forall y :: y in Insert(lt, s, x) <==> y in s || y == x
  {
    InsertKeepsElements(lt, s, x);
    if s == [] || !lt(x, s[|s| - 1]) {
      forall i | 0 <= i < |s| ensures lt(s[i], x) {
        assert s[|s| - 1] != x;
        assert i == |s| - 1 || lt(s[i], s[|s| - 1]);
      }
    } else {
      var front, last := s[..|s| - 1], s[|s| - 1];
      InsertNewKeepsStrictOrder(lt, front, x);
      forall y | y in Insert(lt, front, x) ensures lt(y, last) {
        if y != x {
          var k :| 0 <= k < |front| && front[k] == y;
        }
      }
    }
  }

  lemma {:induction false} EnumerateIsAscending<T(!new)>(lt: (T, T) -> bool, xs: set<T>)
    requires StrictTotal(lt)
    ensures StrictlyAscending(lt, Enumerate(lt, xs))
    ensures forall y :: y in Enumerate(lt, xs) <==> y in xs
    ensures |Enumerate(lt, xs)| == |xs|
  {
    if xs != {} {
      var x :| x in xs && Enumerate(lt, xs) == Insert(lt, Enumerate(lt, xs - {x}), x);
      EnumerateIsAscending(lt, xs - {x});
      InsertNewKeepsStrictOrder(lt, Enumerate(lt, xs - {x}), x);
      InsertKeepsElements(lt, Enumerate(lt, xs - {x}), x);
      assert |multiset(Enumerate(lt, xs))| == |multiset(Enumerate(lt, xs - {x}))| + 1;
    }
  }

  /** A strictly ascending sequence is determined by its elements. */
  lemma {:induction false} AscendingIsUnique<T(!new)>(lt: (T, T) -> bool, s: seq<T>, t: seq<T>)
    requires StrictTotal(lt) && StrictlyAscending(lt, s) && StrictlyAscending(lt, t)
    requires forall y :: y in s <==> y in t
    ensures s == t
  {
    assert s != [] ==> s[0] in t;
    assert t != [] ==> t[0] in s;
    if s != [] {
      assert s[0] == t[0];
      assert s == [s[0]] + s[1..] && t == [t[0]] + t[1..];
      forall y ensures y in s[1..] <==> y in t[1..] {
        assert s[0] !in s[1..] && t[0] !in t[1..];
        assert y in s <==> y == s[0] || y in s[1..];
        assert y in t <==> y == t[0] || y in t[1..];
      }
      AscendingIsUnique(lt, s[1..], t[1..]);
    }
  }
}
