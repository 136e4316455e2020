/** JSON values as every service of the system exchanges them.

    An object is the list of its members in enumeration order, because some of the code
    modelled here depends on that order (a later record wins over an earlier one). All other
    code looks members up by key, through `Get`.
  */
module Json {

  datatype Option<+T> = None | Some(value: T)

  datatype Result<+T, +E> = Ok(value: T) | Err(error: E)

  datatype Json =
    | Null
    | Bool(b: bool)
    | Num(n: int)
    | Str(s: string)
    | Arr(items: seq<Json>)
    | Obj(fields: seq<Field>)

  datatype Field = Field(key: string, value: Json)

  type Fields = seq<Field>

  // ---- Size, the measure of every recursion over a value ----

  function Size(v: Json): (n: nat)
    ensures n >= 1
    decreases v, 1
  {
    match v
    case Arr(items) => 1 + SizeItems(items)
    case Obj(fields) => 1 + SizeFields(fields)
    case _ => 1
  }

  function SizeItems(items: seq<Json>): nat
    decreases items, 0
  {
    if items == [] then 0 else Size(items[0]) + SizeItems(items[1..])
  }

  function SizeFields(fields: Fields): nat
    decreases fields, 0
  {
    if fields == [] then 0 else Size(fields[0].value) + SizeFields(fields[1..])
  }

  lemma SizeItem(items: seq<Json>, i: nat)
    requires i < |items|
    ensures Size(items[i]) <= SizeItems(items)
  {
    if i > 0 {
      SizeItem(items[1..], i - 1);
    }
  }

  lemma SizeField(fields: Fields, i: nat)
    requires i < |fields|
    ensures Size(fields[i].value) <= SizeFields(fields)
  {
    if i > 0 {
      SizeField(fields[1..], i - 1);
    }
  }

  // ---- Members of an object ----

  /** The keys of the members. */
  function Keys(fields: Fields): set<string> {
    set f | f in fields :: f.key
  }

  /** The value of the member called `key`. */
  function Get(fields: Fields, key: string): (r: Option<Json>)
    ensures r.Some? <==> key in Keys(fields)
    ensures r.Some? ==> Field(key, r.value) in fields
    ensures r.Some? ==> Size(r.value) <= SizeFields(fields)
  {
    if fields == [] then None
    else if fields[0].key == key then Some(fields[0].value)
    else
      var rest := Get(fields[1..], key);
      rest
  }

  function At(fields: Fields, key: string): (r: Json)
    requires key in Keys(fields)
    ensures Size(r) <= SizeFields(fields)
  {
    Get(fields, key).value
  }

  /** Assignment to a member: an existing member keeps its place, a new one comes last. */
  function Put(fields: Fields, key: string, value: Json): (r: Fields)
    ensures Keys(r) == Keys(fields) + {key}
    ensures forall k :: Get(r, k) == if k == key then Some(value) else Get(fields, k)
  {
    if fields == [] then [Field(key, value)]
    else if fields[0].key == key then
      var r := [Field(key, value)] + fields[1..];
      assert Keys(r) == Keys(fields) + {key} by { KeysCons(fields); KeysCons(r); }
      r
    else
      var r := [fields[0]] + Put(fields[1..], key, value);
      assert Keys(r) == Keys(fields) + {key} by { KeysCons(fields); KeysCons(r); }
      r
  }

  lemma KeysCons(fields: Fields)
    requires fields != []
    ensures Keys(fields) == {fields[0].key} + Keys(fields[1..])
  {
    forall f | f in fields ensures f.key in {fields[0].key} + Keys(fields[1..]) {
      if f != fields[0] {
        assert f in fields[1..];
      }
    }
  }

  /** The object without the members called `key`. */
  function Without(fields: Fields, key: string): (r: Fields)
    ensures Keys(r) == Keys(fields) - {key}
    ensures forall k :: Get(r, k) == if k == key then None else Get(fields, k)
    ensures SizeFields(r) <= SizeFields(fields)
    ensures key in Keys(fields) ==> SizeFields(r) < SizeFields(fields)
    ensures forall f :: f in r ==> f in fields
  {
    if fields == [] then []
    else
      var rest := Without(fields[1..], key);
      assert Keys(fields) == {fields[0].key} + Keys(fields[1..]) by { KeysCons(fields); }
      if fields[0].key == key then rest
      else
        var r := [fields[0]] + rest;
        assert Keys(r) == {fields[0].key} + Keys(rest) by { KeysCons(r); }
        r
  }

  /** `{...left, ...right}`. */
  function Spread(left: Fields, right: Fields): Fields
    decreases |right|
  {
    if right == [] then left else Spread(Put(left, right[0].key, right[0].value), right[1..])
  }

  lemma {:induction false} KeysSpread(left: Fields, right: Fields)
    ensures Keys(Spread(left, right)) == Keys(left) + Keys(right)
    decreases |right|
  {
    if right != [] {
      KeysCons(right);
      KeysSpread(Put(left, right[0].key, right[0].value), right[1..]);
    }
  }

  /** Every key occurs once, as in every parsed object. */
  predicate Distinct(fields: Fields) {
    fields != [] ==> fields[0].key !in Keys(fields[1..]) && Distinct(fields[1..])
  }

  lemma {:induction false} DistinctWithout(fields: Fields, key: string)
    requires Distinct(fields)
    ensures Distinct(Without(fields, key))
  {
    if fields != [] {
      DistinctWithout(fields[1..], key);
      var rest := Without(fields[1..], key);
      assert ([fields[0]] + rest)[1..] == rest;
    }
  }

  lemma {:induction false} DistinctPut(fields: Fields, key: string, value: Json)
    requires Distinct(fields)
    ensures Distinct(Put(fields, key, value))
  {
    if fields != [] {
      DistinctPut(fields[1..], key, value);
      assert ([Field(key, value)] + fields[1..])[1..] == fields[1..];
      assert ([fields[0]] + Put(fields[1..], key, value))[1..] == Put(fields[1..], key, value);
    }
  }

  lemma {:induction false} DistinctSpread(left: Fields, right: Fields)
    requires Distinct(left)
    ensures Distinct(Spread(left, right))
    decreases |right|
  {
    if right != [] {
      DistinctPut(left, right[0].key, right[0].value);
      DistinctSpread(Put(left, right[0].key, right[0].value), right[1..]);
    }
  }

  /** With distinct keys, each member is what its key looks up. */
  lemma {:induction false} DistinctAt(fields: Fields, f: Field)
    requires Distinct(fields) && f in fields
    ensures Get(fields, f.key) == Some(f.value)
  {
    if f != fields[0] {
      assert f in fields[1..];
      DistinctAt(fields[1..], f);
    }
  }

  lemma {:induction false} GetSpread(left: Fields, right: Fields, key: string)
    requires Distinct(right)
    ensures Get(Spread(left, right), key) == if key in Keys(right) then Get(right, key) else Get(left, key)
    decreases |right|
  {
    if right != [] {
      KeysCons(right);
      GetSpread(Put(left, right[0].key, right[0].value), right[1..], key);
    }
  }

  // ---- Written lists of members ----

  lemma NoMembers()
    ensures Keys([]) == {} && forall k :: Get([], k) == None
  {
  }

  lemma Prepended(f: Field, rest: Fields)
    ensures Keys([f] + rest) == {f.key} + Keys(rest)
    ensures forall k :: Get([f] + rest, k) == if k == f.key then Some(f.value) else Get(rest, k)
  {
    assert ([f] + rest)[1..] == rest;
    KeysCons([f] + rest);
  }

  lemma TwoMembers(a: Field, b: Field)
    requires a.key != b.key
    ensures Keys([a, b]) == {a.key, b.key}
    ensures Get([a, b], a.key) == Some(a.value) && Get([a, b], b.key) == Some(b.value)
  {
    hide Get, Keys;
    NoMembers();
    Prepended(b, []);
    Prepended(a, [b]);
    assert [b] + [] == [b] && [a] + [b] == [a, b];
  }

  /** Two more members in front of a list. */
  lemma TwoMore(a: Field, b: Field, rest: Fields)
    requires a.key != b.key && a.key !in Keys(rest) && b.key !in Keys(rest)
    ensures Keys([a, b] + rest) == {a.key, b.key} + Keys(rest)
    ensures Get([a, b] + rest, a.key) == Some(a.value) && Get([a, b] + rest, b.key) == Some(b.value)
    ensures forall k | k in Keys(rest) :: Get([a, b] + rest, k) == Get(rest, k)
  {
    hide Get, Keys;
    Prepended(b, rest);
    Prepended(a, [b] + rest);
    assert [a] + ([b] + rest) == [a, b] + rest;
  }

  // ---- Sameness up to the order of object members ----

  /** No object anywhere in the value has two members with one key, as JSON.parse guarantees. */
  predicate UniqueKeys(v: Json)
    decreases v
  {
    match v
    case Arr(items) => forall x | x in items :: UniqueKeys(x)
    case Obj(fields) =>
      && Distinct(fields)
      && (forall f | f in fields :: UniqueKeys(f.value))
    case _ => true
  }

  lemma UniqueMember(fields: Fields, k: string)
    requires UniqueKeys(Obj(fields)) && k in Keys(fields)
    ensures UniqueKeys(At(fields, k))
  {
    assert Field(k, At(fields, k)) in fields;
  }

  /** The two values differ at most in the order of object members. */
  predicate Same(a: Json, b: Json)
    decreases Size(a)
  {
    match a
    case Arr(items) =>
      b.Arr? && |items| == |b.items|
      && forall i | 0 <= i < |items| :: (SizeItem(items, i); Same(items[i], b.items[i]))
    case Obj(fields) =>
      b.Obj? && Keys(fields) == Keys(b.fields)
      && forall k | k in Keys(fields) :: Same(Get(fields, k).value, Get(b.fields, k).value)
    case _ => a == b
  }

  lemma {:induction false} SameReflexive(v: Json)
    ensures Same(v, v)
    decreases Size(v)
  {
    match v
    case Arr(items) =>
      forall i | 0 <= i < |items| ensures (SizeItem(items, i); Same(items[i], items[i])) {
        SizeItem(items, i);
        SameReflexive(items[i]);
      }
    case Obj(fields) =>
      forall k | k in Keys(fields) ensures Same(Get(fields, k).value, Get(fields, k).value) {
        SameReflexive(Get(fields, k).value);
      }
    case _ =>
  }
}
