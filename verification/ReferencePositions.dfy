/** What the collectors collect, by the positions at which it stands. */
module ReferencePositions {
  import opened Json
  import opened Positions
  import opened ReferenceCollectors

  // ---- Texts under keys ----

  /** The object at the position has a member with one of the keys that is the text, or lists it. */
  predicate StandsAt(v: Json, path: seq<nat>, keys: set<string>, text: string) {
    match ValueAt(v, path)
    case Some(Obj(fields)) => exists i | 0 <= i < |fields| :: fields[i].key in keys && IsOrLists(fields[i].value, text)
    case _ => false
  }

  predicate IsOrLists(v: Json, text: string) {
    v == Str(text) || (v.Arr? && exists j | 0 <= j < |v.items| :: v.items[j] == Str(text))
  }

  /** The text stands under one of the keys, somewhere in the value. */
  ghost predicate Stands(v: Json, keys: set<string>, text: string) {
    exists path :: StandsAt(v, path, keys, text)
  }

  ghost predicate StandsInMember(f: Field, keys: set<string>, text: string) {
    (f.key in keys && IsOrLists(f.value, text)) || Stands(f.value, keys, text)
  }

  lemma OwnExactly(v: Json, text: string)
    ensures text in Own(v) <==> IsOrLists(v, text)
  {
    if v.Arr? && Str(text) in v.items {
      assert text in Strings(v);
    }
  }

  /** A text stands in a value at its own members, or in an item or a member of it. */
  lemma StandsBelow(v: Json, i: nat, keys: set<string>, text: string)
    requires (v.Arr? && i < |v.items|) || (v.Obj? && i < |v.fields|)
    requires Stands(if v.Arr? then v.items[i] else v.fields[i].value, keys, text)
    ensures Stands(v, keys, text)
  {
    var x := if v.Arr? then v.items[i] else v.fields[i].value;
    var path :| StandsAt(x, path, keys, text);
    Step(v, i, path);
    assert StandsAt(v, [i] + path, keys, text);
  }

  lemma StandsWhere(v: Json, path: seq<nat>, keys: set<string>, text: string)
    requires StandsAt(v, path, keys, text) && path != []
    ensures (v.Arr? && path[0] < |v.items| && Stands(v.items[path[0]], keys, text))
         || (v.Obj? && path[0] < |v.fields| && Stands(v.fields[path[0]].value, keys, text))
  {
    if v.Arr? {
      assert StandsAt(v.items[path[0]], path[1..], keys, text);
    } else {
      assert StandsAt(v.fields[path[0]].value, path[1..], keys, text);
    }
  }

  lemma {:induction false} NamedInSomeItem(items: seq<Json>, keys: set<string>, text: string)
    ensures text in NamedInItems(items, keys) <==> exists i | 0 <= i < |items| :: text in NamedStrings(items[i], keys)
  {
    if items != [] {
      NamedInSomeItem(items[1..], keys, text);
      assert forall i | 0 < i < |items| :: items[i] == items[1..][i - 1];
      if text in NamedInItems(items[1..], keys) {
        var i :| 0 <= i < |items[1..]| && text in NamedStrings(items[1..][i], keys);
        assert items[i + 1] == items[1..][i];
      }
    }
  }

  lemma {:induction false} NamedInSomeField(fields: Fields, keys: set<string>, text: string)
    ensures text in NamedInFields(fields, keys) <==> exists i | 0 <= i < |fields| :: text in NamedInField(fields[i], keys)
  {
    if fields != [] {
      NamedInSomeField(fields[1..], keys, text);
      assert forall i | 0 < i < |fields| :: fields[i] == fields[1..][i - 1];
      if text in NamedInFields(fields[1..], keys) {
        var i :| 0 <= i < |fields[1..]| && text in NamedInField(fields[1..][i], keys);
        assert fields[i + 1] == fields[1..][i];
      }
    }
  }

  /** The collectors collect the texts that stand under one of the keys, and no others. */
  lemma {:induction false} NamedExactly(v: Json, keys: set<string>, text: string)
    ensures text in NamedStrings(v, keys) <==> Stands(v, keys, text)
    decreases v
  {
    hide Stands, Own, IsOrLists;
    StandsExactly(v, keys, text);
    match v
    case Arr(items) =>
      NamedInSomeItem(items, keys, text);
      forall i | 0 <= i < |items| ensures text in NamedStrings(items[i], keys) <==> Stands(items[i], keys, text) {
        NamedExactly(items[i], keys, text);
      }
    case Obj(fields) =>
      NamedInSomeField(fields, keys, text);
      forall i | 0 <= i < |fields|
        ensures text in NamedInField(fields[i], keys) <==> StandsInMember(fields[i], keys, text)
      {
        NamedExactly(fields[i].value, keys, text);
        OwnExactly(fields[i].value, text);
      }
    case _ =>
  }

  /** Where a text stands: at the value's own members, or below one of its parts. */
  lemma StandsExactly(v: Json, keys: set<string>, text: string)
    ensures Stands(v, keys, text) <==>
      match v
      case Arr(items) => exists i | 0 <= i < |items| :: Stands(items[i], keys, text)
      case Obj(fields) => exists i | 0 <= i < |fields| :: StandsInMember(fields[i], keys, text)
      case _ => false
  {
    hide IsOrLists;
    if path :| StandsAt(v, path, keys, text) {
      if path != [] {
        StandsWhere(v, path, keys, text);
      }
    }
    match v
    case Arr(items) =>
      if i :| 0 <= i < |items| && Stands(items[i], keys, text) {
        StandsBelow(v, i, keys, text);
      }
    case Obj(fields) =>
      if i :| 0 <= i < |fields| && StandsInMember(fields[i], keys, text) {
        if Stands(fields[i].value, keys, text) {
          StandsBelow(v, i, keys, text);
        } else {
          assert StandsAt(v, [], keys, text);
        }
      }
    case _ =>
  }

  // ---- Evidence records ----

  /** At the position stands an object with this `evidence_id` and a text for `value_kind`. */
  predicate RecordAt(v: Json, path: seq<nat>, id: string) {
    match ValueAt(v, path)
    case Some(Obj(fields)) =>
      && Get(fields, "evidence_id") == Some(Str(id))
      && Get(fields, "value_kind").Some? && Get(fields, "value_kind").value.Str?
    case _ => false
  }

  /** The last record of the id, an inner one coming after the outer one. */
  ghost predicate LastRecordAt(v: Json, path: seq<nat>, id: string) {
    RecordAt(v, path, id) && forall other | RecordAt(v, other, id) && other != path :: Below(other, path)
  }

  ghost predicate Recorded(v: Json, id: string) {
    exists path :: RecordAt(v, path, id)
  }

  /** The record under the id is the last one. */
  ghost predicate IsLast(v: Json, id: string, record: Fields) {
    exists path :: LastRecordAt(v, path, id) && ValueAt(v, path) == Some(Obj(record))
  }

  lemma OwnRecordExactly(fields: Fields, id: string)
    ensures id in OwnRecord(fields) <==> RecordAt(Obj(fields), [], id)
    ensures id in OwnRecord(fields) ==> OwnRecord(fields)[id] == fields
  {
  }

  lemma RecordBelow(v: Json, i: nat, x: Json, path: seq<nat>, id: string)
    requires (v.Arr? && i < |v.items| && x == v.items[i]) || (v.Obj? && i < |v.fields| && x == v.fields[i].value)
    ensures RecordAt(v, [i] + path, id) <==> RecordAt(x, path, id)
    ensures ValueAt(v, [i] + path) == ValueAt(x, path)
  {
    Step(v, i, path);
  }

  function Part(v: Json, i: nat): Option<Json> {
    match v
    case Arr(items) => if i < |items| then Some(items[i]) else None
    case Obj(fields) => if i < |fields| then Some(fields[i].value) else None
    case _ => None
  }

  lemma PartAt(v: Json, path: seq<nat>)
    requires path != [] && ValueAt(v, path).Some?
    ensures Part(v, path[0]).Some? && ValueAt(v, path) == ValueAt(Part(v, path[0]).value, path[1..])
    ensures path == [path[0]] + path[1..]
  {
  }

  /** The records of a list are those of its items, the last item with one winning. */
  ghost predicate LastItem(items: seq<Json>, i: nat, id: string) {
    i < |items| && id in RecordsIn(items[i]) && forall j | i < j < |items| :: id !in RecordsIn(items[j])
  }

  lemma {:induction false} RecordsOfItems(items: seq<Json>, id: string)
    ensures id in RecordsInItems(items) <==> exists i | 0 <= i < |items| :: id in RecordsIn(items[i])
    ensures forall i: nat | LastItem(items, i, id) ::
      id in RecordsInItems(items) && RecordsInItems(items)[id] == RecordsIn(items[i])[id]
  {
    if items != [] {
      var rest := items[1..];
      RecordsOfItems(rest, id);
      assert forall i | 0 < i < |items| :: items[i] == rest[i - 1];
      if id in RecordsInItems(rest) {
        var i :| 0 <= i < |rest| && id in RecordsIn(rest[i]);
        assert items[i + 1] == rest[i];
      }
      forall i: nat | LastItem(items, i, id)
        ensures id in RecordsInItems(items) && RecordsInItems(items)[id] == RecordsIn(items[i])[id] {
        if i > 0 {
          assert LastItem(rest, i - 1, id) by {
            assert forall j | i - 1 < j < |rest| :: rest[j] == items[j + 1];
          }
        } else {
          assert forall j | 0 <= j < |rest| :: rest[j] == items[j + 1];
        }
      }
    }
  }

  function Values(fields: Fields): seq<Json> {
    seq(|fields|, i requires 0 <= i < |fields| => fields[i].value)
  }

  lemma {:induction false} RecordsOfFields(fields: Fields)
    ensures RecordsInFields(fields) == RecordsInItems(Values(fields))
  {
    if fields != [] {
      RecordsOfFields(fields[1..]);
      assert Values(fields)[1..] == Values(fields[1..]);
    }
  }

  function Parts(v: Json): seq<Json> {
    match v
    case Arr(items) => items
    case Obj(fields) => Values(fields)
    case _ => []
  }

  lemma RecordsOfParts(v: Json)
    ensures RecordsIn(v) == (if v.Obj? then OwnRecord(v.fields) else map[]) + RecordsInItems(Parts(v))
  {
    if v.Obj? {
      RecordsOfFields(v.fields);
    }
  }

  lemma {:induction false} SomeLast(items: seq<Json>, id: string) returns (i: nat)
    requires exists k | 0 <= k < |items| :: id in RecordsIn(items[k])
    ensures LastItem(items, i, id)
  {
    hide RecordsIn;
    var n := |items| - 1;
    if id in RecordsIn(items[n]) {
      i := n;
    } else {
      assert forall k | 0 <= k < n :: items[..n][k] == items[k];
      i := SomeLast(items[..n], id);
    }
  }

  lemma PartIs(v: Json, i: nat)
    ensures Part(v, i) == if i < |Parts(v)| then Some(Parts(v)[i]) else None
  {
  }

  /** A position below the whole value that holds a record. */
  lemma RecordedBelow(v: Json, path: seq<nat>, id: string)
    requires RecordAt(v, path, id) && path != []
    ensures path[0] < |Parts(v)| && RecordAt(Parts(v)[path[0]], path[1..], id) && path == [path[0]] + path[1..]
    ensures Recorded(Parts(v)[path[0]], id)
  {
    PartAt(v, path);
    PartIs(v, path[0]);
    assert RecordAt(Parts(v)[path[0]], path[1..], id);
  }

  lemma RecordedAbove(v: Json, i: nat, path: seq<nat>, id: string)
    requires i < |Parts(v)|
    ensures ValueAt(v, [i] + path) == ValueAt(Parts(v)[i], path)
    ensures RecordAt(Parts(v)[i], path, id) ==> RecordAt(v, [i] + path, id)
  {
    Step(v, i, path);
  }

  /** The collectors keep, of the records under an id, the last one. */
  lemma {:induction false} RecordsExactly(v: Json, id: string)
    ensures id in RecordsIn(v) <==> Recorded(v, id)
    ensures id in RecordsIn(v) ==> IsLast(v, id, RecordsIn(v)[id])
    decreases v
  {
    hide RecordAt, RecordsIn, OwnRecord, IsLast, Recorded;
    var parts := Parts(v);
    forall i | 0 <= i < |parts|
      ensures id in RecordsIn(parts[i]) <==> Recorded(parts[i], id)
      ensures id in RecordsIn(parts[i]) ==> IsLast(parts[i], id, RecordsIn(parts[i])[id])
    {
      PartSmaller(v, i);
      RecordsExactly(parts[i], id);
    }
    RecordsOfParts(v);
    RecordsOfItems(parts, id);
    if exists i | 0 <= i < |parts| :: id in RecordsIn(parts[i]) {
      var i := SomeLast(parts, id);
      LastBelow(v, i, id, RecordsIn(parts[i])[id]);
    } else {
      OwnLast(v, id);
    }
  }

  lemma PartSmaller(v: Json, i: nat)
    requires i < |Parts(v)|
    ensures Parts(v)[i] < v
  {
  }

  lemma LastBelow(v: Json, i: nat, id: string, record: Fields)
    requires i < |Parts(v)| && IsLast(Parts(v)[i], id, record)
    requires forall j | i < j < |Parts(v)| :: !Recorded(Parts(v)[j], id)
    ensures Recorded(v, id) && IsLast(v, id, record)
  {
    hide RecordAt;
    var parts := Parts(v);
    var path :| LastRecordAt(parts[i], path, id) && ValueAt(parts[i], path) == Some(Obj(record));
    RecordedAbove(v, i, path, id);
    forall other | RecordAt(v, other, id) && other != [i] + path ensures Below(other, [i] + path) {
      if other == [] {
        BelowStep(0, [], i, path);
      } else {
        RecordedBelow(v, other, id);
        BelowStep(other[0], other[1..], i, path);
      }
    }
    assert LastRecordAt(v, [i] + path, id);
  }

  lemma OwnLast(v: Json, id: string)
    requires forall i | 0 <= i < |Parts(v)| :: !Recorded(Parts(v)[i], id)
    ensures Recorded(v, id) <==> v.Obj? && id in OwnRecord(v.fields)
    ensures Recorded(v, id) ==> IsLast(v, id, OwnRecord(v.fields)[id])
  {
    hide RecordAt, OwnRecord;
    forall path | RecordAt(v, path, id) ensures path == [] {
      if path != [] {
        RecordedBelow(v, path, id);
      }
    }
    if v.Obj? {
      OwnRecordExactly(v.fields, id);
      if id in OwnRecord(v.fields) {
        assert LastRecordAt(v, [], id);
      }
    } else {
      NoOwnRecord(v, id);
    }
  }

  lemma NoOwnRecord(v: Json, id: string)
    requires !v.Obj?
    ensures !RecordAt(v, [], id)
  {
  }

  /** There is only one last record. */
  lemma OneLast(v: Json, id: string, a: Fields, b: Fields)
    requires IsLast(v, id, a) && IsLast(v, id, b)
    ensures a == b
  {
    hide RecordAt;
    var p :| LastRecordAt(v, p, id) && ValueAt(v, p) == Some(Obj(a));
    var q :| LastRecordAt(v, q, id) && ValueAt(v, q) == Some(Obj(b));
    if p != q {
      BelowAsymmetric(p, q);
      assert false;
    }
  }

  /** The last record of the id says that it is an assumption. */
  ghost predicate AssumedAtLast(v: Json, id: string) {
    exists record :: IsLast(v, id, record) && SaysAssumed(record)
  }

  predicate SaysAssumed(record: Fields) {
    Get(record, "value_kind") == Some(Str("DECLARED_ASSUMPTION")) || Get(record, "value_kind") == Some(Str("UNKNOWN"))
  }
}
