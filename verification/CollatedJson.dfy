/** The comparison of JSON values by their text after sorting members in the platform's collation,
    of which nothing is assumed. */
module CollatedJson {
  import opened Json
  import opened JsonText
  import Sorting

  /** Whether the first text may stand before the second. */
  type Collation = (string, string) -> bool

  function ByKey(upTo: Collation): (Field, Field) -> bool {
    (f: Field, g: Field) => upTo(f.key, g.key)
  }

  function Sort(upTo: Collation, fields: Fields): (r: Fields)
    ensures forall g :: g in r <==> g in fields
    ensures SizeFields(r) == SizeFields(fields)
  {
    var r := Sorting.Sort(ByKey(upTo), fields);
    assert forall g :: g in r <==> g in fields by { Sorting.SameElements(r, fields); }
    assert SizeFields(r) == SizeFields(fields) by { SortSize(upTo, fields); }
    r
  }

  lemma {:induction false} InsertSize(upTo: Collation, f: Field, fields: Fields)
    ensures SizeFields(Sorting.Insert(ByKey(upTo), f, fields)) == Size(f.value) + SizeFields(fields)
  {
    if fields == [] || upTo(f.key, fields[0].key) {
      assert ([f] + fields)[1..] == fields;
    } else {
      InsertSize(upTo, f, fields[1..]);
      var rest := Sorting.Insert(ByKey(upTo), f, fields[1..]);
      assert ([fields[0]] + rest)[1..] == rest;
    }
  }

  lemma {:induction false} SortSize(upTo: Collation, fields: Fields)
    ensures SizeFields(Sorting.Sort(ByKey(upTo), fields)) == SizeFields(fields)
  {
    if fields != [] {
      SortSize(upTo, fields[1..]);
      InsertSize(upTo, fields[0], Sorting.Sort(ByKey(upTo), fields[1..]));
    }
  }

  lemma {:induction false} InsertDistinct(upTo: Collation, f: Field, fields: Fields)
    requires Distinct(fields) && f.key !in Keys(fields)
    ensures Distinct(Sorting.Insert(ByKey(upTo), f, fields))
  {
    if fields != [] {
      KeysCons(fields);
      if upTo(f.key, fields[0].key) {
        assert ([f] + fields)[1..] == fields;
      } else {
        InsertDistinct(upTo, f, fields[1..]);
        Sorting.InsertElements(ByKey(upTo), f, fields[1..]);
        var rest := Sorting.Insert(ByKey(upTo), f, fields[1..]);
        assert ([fields[0]] + rest)[1..] == rest;
      }
    }
  }

  lemma {:induction false} SortDistinct(upTo: Collation, fields: Fields)
    requires Distinct(fields)
    ensures Distinct(Sort(upTo, fields)) && Keys(Sort(upTo, fields)) == Keys(fields)
  {
    if fields != [] {
      SortDistinct(upTo, fields[1..]);
      InsertDistinct(upTo, fields[0], Sort(upTo, fields[1..]));
    }
  }

  function Ordered(upTo: Collation, v: Json): Json
    decreases Size(v), 1
  {
    match v
    case Arr(items) => Arr(OrderedItems(upTo, items))
    case Obj(fields) => Obj(OrderedMembers(upTo, Sort(upTo, fields)))
    case _ => v
  }

  function OrderedItems(upTo: Collation, items: seq<Json>): (r: seq<Json>)
    ensures |r| == |items|
    decreases 1 + SizeItems(items), 0
  {
    if items == [] then [] else [Ordered(upTo, items[0])] + OrderedItems(upTo, items[1..])
  }

  function OrderedMembers(upTo: Collation, fields: Fields): (r: Fields)
    ensures |r| == |fields|
    decreases 1 + SizeFields(fields), 0
  {
    if fields == [] then []
    else [Field(fields[0].key, Ordered(upTo, fields[0].value))] + OrderedMembers(upTo, fields[1..])
  }

  /** `sameJson`: absent values are the same only as each other. */
  predicate SameJson(upTo: Collation, left: Option<Json>, right: Option<Json>) {
    match (left, right)
    case (Some(a), Some(b)) => Text(Ordered(upTo, a)) == Text(Ordered(upTo, b))
    case (None, None) => true
    case _ => false
  }

  lemma {:induction false} OrderedItem(upTo: Collation, items: seq<Json>, i: nat)
    requires i < |items|
    ensures OrderedItems(upTo, items)[i] == Ordered(upTo, items[i])
  {
    if i > 0 {
      OrderedItem(upTo, items[1..], i - 1);
    }
  }

  lemma {:induction false} OrderedMember(upTo: Collation, fields: Fields, i: nat)
    requires i < |fields|
    ensures OrderedMembers(upTo, fields)[i] == Field(fields[i].key, Ordered(upTo, fields[i].value))
  {
    if i > 0 {
      OrderedMember(upTo, fields[1..], i - 1);
    }
  }

  lemma {:induction false} OrderedKeys(upTo: Collation, fields: Fields)
    ensures Keys(OrderedMembers(upTo, fields)) == Keys(fields)
    ensures Distinct(fields) ==> Distinct(OrderedMembers(upTo, fields))
  {
    if fields != [] {
      KeysCons(fields);
      KeysCons(OrderedMembers(upTo, fields));
      OrderedKeys(upTo, fields[1..]);
    }
  }

  lemma {:induction false} OrderedUnique(upTo: Collation, v: Json)
    requires UniqueKeys(v)
    ensures UniqueKeys(Ordered(upTo, v))
    decreases Size(v)
  {
    match v
    case Arr(items) =>
      forall x | x in OrderedItems(upTo, items) ensures UniqueKeys(x) {
        var i :| 0 <= i < |items| && OrderedItems(upTo, items)[i] == x;
        OrderedItem(upTo, items, i);
        SizeItem(items, i);
        OrderedUnique(upTo, items[i]);
      }
    case Obj(fields) =>
      var sorted := Sort(upTo, fields);
      SortDistinct(upTo, fields);
      OrderedKeys(upTo, sorted);
      forall f | f in OrderedMembers(upTo, sorted) ensures UniqueKeys(f.value) {
        var i :| 0 <= i < |sorted| && OrderedMembers(upTo, sorted)[i] == f;
        OrderedMember(upTo, sorted, i);
        SizeField(sorted, i);
        assert sorted[i] in fields;
        OrderedUnique(upTo, sorted[i].value);
      }
    case _ =>
  }

  lemma SortedLookup(upTo: Collation, fields: Fields, i: nat)
    requires Distinct(fields) && i < |Sort(upTo, fields)|
    ensures Get(fields, Sort(upTo, fields)[i].key) == Some(Sort(upTo, fields)[i].value)
  {
    assert Sort(upTo, fields)[i] in Sort(upTo, fields);
    DistinctAt(fields, Sort(upTo, fields)[i]);
  }

  lemma {:induction false} OrderedSame(upTo: Collation, a: Json, b: Json)
    requires UniqueKeys(a) && UniqueKeys(b) && Ordered(upTo, a) == Ordered(upTo, b)
    ensures Same(a, b)
    decreases Size(a)
  {
    match a
    case Arr(items) =>
      forall i | 0 <= i < |items| ensures (SizeItem(items, i); Same(items[i], b.items[i])) {
        OrderedItem(upTo, items, i);
        OrderedItem(upTo, b.items, i);
        SizeItem(items, i);
        OrderedSame(upTo, items[i], b.items[i]);
      }
    case Obj(fields) =>
      var (x, y) := (Sort(upTo, fields), Sort(upTo, b.fields));
      OrderedKeys(upTo, x);
      OrderedKeys(upTo, y);
      SortDistinct(upTo, fields);
      SortDistinct(upTo, b.fields);
      assert OrderedMembers(upTo, x) == OrderedMembers(upTo, y);
      forall k | k in Keys(fields) ensures Same(Get(fields, k).value, Get(b.fields, k).value) {
        assert k in Keys(x);
        var f :| f in x && f.key == k;
        var i :| 0 <= i < |x| && x[i] == f;
        OrderedMember(upTo, x, i);
        OrderedMember(upTo, y, i);
        SortedLookup(upTo, fields, i);
        SortedLookup(upTo, b.fields, i);
        SizeField(x, i);
        assert x[i] in fields && y[i] in b.fields;
        OrderedSame(upTo, x[i].value, y[i].value);
      }
    case _ =>
  }

  /** Ordering the members changes nothing else. */
  lemma {:induction false} OrderedIsSame(upTo: Collation, v: Json)
    requires UniqueKeys(v)
    ensures Same(v, Ordered(upTo, v))
    decreases Size(v)
  {
    match v
    case Arr(items) =>
      forall i | 0 <= i < |items| ensures (SizeItem(items, i); Same(items[i], OrderedItems(upTo, items)[i])) {
        OrderedItem(upTo, items, i);
        SizeItem(items, i);
        OrderedIsSame(upTo, items[i]);
      }
    case Obj(fields) =>
      var x := Sort(upTo, fields);
      OrderedKeys(upTo, x);
      SortDistinct(upTo, fields);
      forall k | k in Keys(fields) ensures Same(Get(fields, k).value, Get(OrderedMembers(upTo, x), k).value) {
        var i: nat :| i < |x| && x[i].key == k;
        OrderedMember(upTo, x, i);
        SortedLookup(upTo, fields, i);
        DistinctAt(OrderedMembers(upTo, x), OrderedMembers(upTo, x)[i]);
        SizeField(x, i);
        assert x[i] in fields;
        OrderedIsSame(upTo, x[i].value);
      }
    case _ =>
  }

  /** Whatever the collation, values with the same sorted text differ at most in the order of members. */
  lemma SameTextSameValue(upTo: Collation, a: Json, b: Json)
    requires UniqueKeys(a) && UniqueKeys(b) && SameJson(upTo, Some(a), Some(b))
    ensures Same(a, b)
  {
    hide Text, Ordered;
    OrderedUnique(upTo, a);
    OrderedUnique(upTo, b);
    TextRoundTrip(Ordered(upTo, a));
    TextRoundTrip(Ordered(upTo, b));
    OrderedSame(upTo, a, b);
  }
}
