/** The stable sort that every service uses, by an order that need not tell all elements apart, and
    lists without repetitions. */
module Sorting {

  function Insert<T>(upTo: (T, T) -> bool, x: T, sorted: seq<T>): (r: seq<T>)
    ensures multiset(r) == multiset([x]) + multiset(sorted)
    ensures |r| == |sorted| + 1
  {
    if sorted == [] || upTo(x, sorted[0]) then [x] + sorted
    else
      var rest := Insert(upTo, x, sorted[1..]);
      assert sorted == [sorted[0]] + sorted[1..];
      [sorted[0]] + rest
  }

  /** Elements of which each may stand before the other keep their order. */
  function Sort<T>(upTo: (T, T) -> bool, list: seq<T>): (r: seq<T>)
    ensures multiset(r) == multiset(list)
    ensures |r| == |list|
  {
    if list == [] then []
    else
      assert list == [list[0]] + list[1..];
      Insert(upTo, list[0], Sort(upTo, list[1..]))
  }

  ghost predicate TotalPreorder<T(!new)>(upTo: (T, T) -> bool) {
    && (forall a, b :: upTo(a, b) || upTo(b, a))
    && (forall a, b, c | upTo(a, b) && upTo(b, c) :: upTo(a, c))
  }

  predicate Sorted<T>(upTo: (T, T) -> bool, list: seq<T>) {
    forall i, j | 0 <= i < j < |list| :: upTo(list[i], list[j])
  }

  lemma SameElements<T>(a: seq<T>, b: seq<T>)
    requires multiset(a) == multiset(b)
    ensures forall x :: x in a <==> x in b
  {
    forall x ensures x in a <==> x in b {
      assert x in a <==> x in multiset(a);
      assert x in b <==> x in multiset(b);
    }
  }

  lemma InsertElements<T>(upTo: (T, T) -> bool, x: T, sorted: seq<T>)
    ensures forall y :: y in Insert(upTo, x, sorted) <==> y == x || y in sorted
  {
    SameElements(Insert(upTo, x, sorted), [x] + sorted);
  }

  lemma {:induction false} InsertOrders<T(!new)>(upTo: (T, T) -> bool, x: T, sorted: seq<T>)
    requires TotalPreorder(upTo) && Sorted(upTo, sorted)
    ensures Sorted(upTo, Insert(upTo, x, sorted))
  {
    if sorted != [] && !upTo(x, sorted[0]) {
      var rest := Insert(upTo, x, sorted[1..]);
      InsertOrders(upTo, x, sorted[1..]);
      InsertElements(upTo, x, sorted[1..]);
      forall j | 0 <= j < |rest| ensures upTo(sorted[0], rest[j]) {
        if rest[j] != x {
          assert rest[j] in sorted[1..];
          var k :| 0 <= k < |sorted[1..]| && sorted[1..][k] == rest[j];
        }
      }
    } else if sorted != [] {
      forall j | 0 <= j < |sorted| ensures upTo(x, sorted[j]) {
        assert j > 0 ==> upTo(sorted[0], sorted[j]);
      }
    }
  }

  lemma {:induction false} SortOrders<T(!new)>(upTo: (T, T) -> bool, list: seq<T>)
    requires TotalPreorder(upTo)
    ensures Sorted(upTo, Sort(upTo, list))
  {
    if list != [] {
      SortOrders(upTo, list[1..]);
      InsertOrders(upTo, list[0], Sort(upTo, list[1..]));
    }
  }

  predicate NoRepeats<T(==)>(list: seq<T>) {
    forall i, j | 0 <= i < j < |list| :: list[i] != list[j]
  }

  /** A rearrangement of a list without repetitions has none. */
  lemma StillNoRepeats<T>(a: seq<T>, b: seq<T>)
    requires multiset(a) == multiset(b) && NoRepeats(b)
    ensures NoRepeats(a)
  {
    forall i, j | 0 <= i < j < |a| ensures a[i] != a[j] {
      if a[i] == a[j] {
        assert a == a[..j] + [a[j]] + a[j + 1..];
        assert a[..j][i] in multiset(a[..j]);
        assert multiset(a)[a[i]] >= 2;
        Once(b, a[i]);
        assert false;
      }
    }
  }

  lemma Once<T>(b: seq<T>, x: T)
    requires NoRepeats(b)
    ensures multiset(b)[x] <= 1
  {
    if x in b {
      var k :| 0 <= k < |b| && b[k] == x;
      assert b == b[..k] + [x] + b[k + 1..];
      assert x !in b[..k] && x !in b[k + 1..];
    }
  }

  function Occurring<T(==)>(list: seq<T>): set<T> {
    set x | x in list
  }

  lemma {:induction false} CountOccurring<T>(list: seq<T>)
    requires NoRepeats(list)
    ensures |Occurring(list)| == |list|
  {
    if list != [] {
      var rest, last := list[..|list| - 1], list[|list| - 1];
      CountOccurring(rest);
      assert list == rest + [last];
      assert Occurring(list) == Occurring(rest) + {last};
      assert last !in rest;
    }
  }

  lemma {:induction false} SubsetSize<T>(a: set<T>, b: set<T>)
    requires a <= b
    ensures |a| <= |b| && (|a| == |b| ==> a == b)
    decreases a
  {
    if x :| x in a {
      SubsetSize(a - {x}, b - {x});
      assert a == a - {x} + {x} && b == b - {x} + {x};
    }
  }
}
