/** Sorting by a strict order, as the program's list endpoints do. */
module Ordering {
  ghost predicate StrictOrder<T(!new)>(lt: (T, T) -> bool) {
    && (forall x, y :: !(lt(x, y) && lt(y, x)))
    && (forall x, y, z :: lt(x, y) && lt(y, z) ==> lt(x, z))
  }

  ghost predicate Sorted<T>(lt: (T, T) -> bool, s: seq<T>) {
    forall i, j | 0 <= i < j < |s| :: lt(s[i], s[j])
  }

  // Any two positions can be ordered.
  ghost predicate Comparable<T>(lt: (T, T) -> bool, s: seq<T>) {
    forall i, j | 0 <= i < j < |s| :: lt(s[i], s[j]) || lt(s[j], s[i])
  }

  function Insert<T>(lt: (T, T) -> bool, x: T, s: seq<T>): seq<T> {
    if s == [] || lt(x, s[0]) then [x] + s else [s[0]] + Insert(lt, x, s[1..])
  }

  function Sort<T>(lt: (T, T) -> bool, s: seq<T>): seq<T> {
    if s == [] then [] else Insert(lt, s[0], Sort(lt, s[1..]))
  }

  lemma {:induction false} InsertPermutes<T>(lt: (T, T) -> bool, x: T, s: seq<T>)
    ensures multiset(Insert(lt, x, s)) == multiset{x} + multiset(s)
  {
    if s != [] {
      assert s == [s[0]] + s[1..];
      InsertPermutes(lt, x, s[1..]);
    }
  }

  lemma {:induction false} InsertKeepsSorted<T(!new)>(lt: (T, T) -> bool, x: T, s: seq<T>)
    requires StrictOrder(lt) && Sorted(lt, s)
    requires forall i | 0 <= i < |s| :: lt(x, s[i]) || lt(s[i], x)
    ensures Sorted(lt, Insert(lt, x, s))
  {
    if s != [] {
      if lt(x, s[0]) {
        assert forall i | 0 < i < |s| :: lt(s[0], s[i]);
      } else {
        InsertKeepsSorted(lt, x, s[1..]);
        InsertPermutes(lt, x, s[1..]);
        var rest := Insert(lt, x, s[1..]);
        forall i | 0 <= i < |rest| ensures lt(s[0], rest[i]) {
          assert rest[i] in multiset(rest);
          assert rest[i] == x || rest[i] in s[1..];
        }
      }
    }
  }

  /** Sorting rearranges, whatever the order is. */
  lemma {:induction false} SortPermutes<T>(lt: (T, T) -> bool, s: seq<T>)
    ensures multiset(Sort(lt, s)) == multiset(s)
  {
    if s != [] {
      assert s == [s[0]] + s[1..];
      SortPermutes(lt, s[1..]);
      InsertPermutes(lt, s[0], Sort(lt, s[1..]));
    }
  }

  // No element belongs before one that precedes it; equal ones may come in any order.
  ghost predicate Ordered<T>(lt: (T, T) -> bool, s: seq<T>) {
    forall i, j | 0 <= i < j < |s| :: !lt(s[j], s[i])
  }

  ghost predicate WeakOrder<T(!new)>(lt: (T, T) -> bool) {
    StrictOrder(lt) && forall x, y, z :: !lt(y, x) && !lt(z, y) ==> !lt(z, x)
  }

  lemma {:induction false} InsertKeepsOrdered<T(!new)>(lt: (T, T) -> bool, x: T, s: seq<T>)
    requires WeakOrder(lt) && Ordered(lt, s)
    ensures Ordered(lt, Insert(lt, x, s))
  {
    if s != [] && !lt(x, s[0]) {
      InsertKeepsOrdered(lt, x, s[1..]);
      InsertPermutes(lt, x, s[1..]);
      var rest := Insert(lt, x, s[1..]);
      forall i | 0 <= i < |rest| ensures !lt(rest[i], s[0]) {
        assert rest[i] in multiset(rest);
        assert rest[i] == x || rest[i] in s[1..];
      }
    }
  }

  /** Sorting by a weak order leaves no element before one it belongs behind. */
  lemma {:induction false} SortOrders<T(!new)>(lt: (T, T) -> bool, s: seq<T>)
    requires WeakOrder(lt)
    ensures Ordered(lt, Sort(lt, s))
  {
    if s != [] {
      SortOrders(lt, s[1..]);
      InsertKeepsOrdered(lt, s[0], Sort(lt, s[1..]));
    }
  }

  /** Sorting pairwise comparable elements yields them all, strictly ordered. */
  lemma {:induction false} SortSorts<T(!new)>(lt: (T, T) -> bool, s: seq<T>)
    requires StrictOrder(lt) && Comparable(lt, s)
    ensures Sorted(lt, Sort(lt, s))
    ensures multiset(Sort(lt, s)) == multiset(s)
  {
    if s != [] {
      SortSorts(lt, s[1..]);
      assert s == [s[0]] + s[1..];
      var rest := Sort(lt, s[1..]);
      forall i | 0 <= i < |rest| ensures lt(s[0], rest[i]) || lt(rest[i], s[0]) {
        assert rest[i] in multiset(s[1..]);
      }
      InsertKeepsSorted(lt, s[0], rest);
      InsertPermutes(lt, s[0], rest);
    }
  }

  /** A strictly ordered list is determined by its elements. */
  lemma {:induction false} SortedIsUnique<T(!new)>(lt: (T, T) -> bool, a: seq<T>, b: seq<T>)
    requires StrictOrder(lt) && Sorted(lt, a) && Sorted(lt, b)
    requires forall x :: x in a <==> x in b
    ensures a == b
  {
    assert a != [] ==> a[0] in b;
    assert b != [] ==> b[0] in a;
    if a != [] {
      assert a[0] == b[0];
      forall x ensures x in a[1..] <==> x in b[1..] {
        assert x in a[1..] ==> x in a && x != a[0];
        assert x in b[1..] ==> x in b && x != b[0];
      }
      SortedIsUnique(lt, a[1..], b[1..]);
      assert a == [a[0]] + a[1..] && b == [b[0]] + b[1..];
    }
  }
}
