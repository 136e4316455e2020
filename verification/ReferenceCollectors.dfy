/** The recursive collectors of both services, the Runtime's filling an accumulator that it is given,
    the Control API's uniting local results, against one specification each.
  */
module ReferenceCollectors {
  import opened Json

  /** `object(value)`: the members of an object, and none for anything else. */
  function Members(v: Json): Fields {
    if v.Obj? then v.fields else []
  }

  /** `array(value)`. */
  function Elements(v: Json): seq<Json> {
    if v.Arr? then v.items else []
  }

  /** A member, null standing for an absent one. */
  function Member(fields: Fields, key: string): Json {
    var m := Get(fields, key);
    if m.Some? then m.value else Null
  }

  /** The texts among the elements of a list. */
  function Strings(v: Json): set<string> {
    set x | x in Elements(v) && x.Str? :: x.s
  }

  // ---- Texts under given keys ----

  /** What a member with one of the keys contributes itself: its text, or the texts in its list. */
  function Own(v: Json): set<string> {
    if v.Str? then {v.s} else Strings(v)
  }

  function NamedStrings(v: Json, keys: set<string>): set<string>
    decreases v, 1
  {
    match v
    case Arr(items) => NamedInItems(items, keys)
    case Obj(fields) => NamedInFields(fields, keys)
    case _ => {}
  }

  function NamedInItems(items: seq<Json>, keys: set<string>): set<string>
    decreases items, 0
  {
    if items == [] then {} else NamedStrings(items[0], keys) + NamedInItems(items[1..], keys)
  }

  function NamedInField(f: Field, keys: set<string>): set<string>
    decreases f, 0
  {
    (if f.key in keys then Own(f.value) else {}) + NamedStrings(f.value, keys)
  }

  function NamedInFields(fields: Fields, keys: set<string>): set<string>
    decreases fields, 0
  {
    if fields == [] then {} else NamedInField(fields[0], keys) + NamedInFields(fields[1..], keys)
  }

  lemma {:induction false} NamedInItemsSplit(items: seq<Json>, i: nat, keys: set<string>)
    requires i < |items|
    ensures NamedInItems(items[..i + 1], keys) == NamedInItems(items[..i], keys) + NamedStrings(items[i], keys)
  {
    if i == 0 {
      assert items[..1] == [items[0]] && items[..0] == [];
      assert NamedInItems([], keys) == {};
    } else {
      assert items[..i + 1][1..] == items[1..][..i] && items[..i][1..] == items[1..][..i - 1];
      NamedInItemsSplit(items[1..], i - 1, keys);
    }
  }

  lemma {:induction false} NamedInFieldsSplit(fields: Fields, i: nat, keys: set<string>)
    requires i < |fields|
    ensures NamedInFields(fields[..i + 1], keys) == NamedInFields(fields[..i], keys) + NamedInField(fields[i], keys)
  {
    if i == 0 {
      assert fields[..1] == [fields[0]] && fields[..0] == [];
      assert NamedInFields([], keys) == {};
    } else {
      assert fields[..i + 1][1..] == fields[1..][..i] && fields[..i][1..] == fields[1..][..i - 1];
      NamedInFieldsSplit(fields[1..], i - 1, keys);
    }
  }

  /** The Runtime's collector. */
  method CollectNamedStrings(v: Json, keys: set<string>, collected: set<string>) returns (r: set<string>)
    ensures r == collected + NamedStrings(v, keys)
    decreases v
  {
    r := collected;
    match v
    case Arr(items) =>
      for i := 0 to |items|
        invariant r == collected + NamedInItems(items[..i], keys)
      {
        NamedInItemsSplit(items, i, keys);
        r := CollectNamedStrings(items[i], keys, r);
      }
      assert items[..|items|] == items;
    case Obj(fields) =>
      for i := 0 to |fields|
        invariant r == collected + NamedInFields(fields[..i], keys)
      {
        NamedInFieldsSplit(fields, i, keys);
        if fields[i].key in keys {
          r := r + Own(fields[i].value);
        }
        r := CollectNamedStrings(fields[i].value, keys, r);
      }
      assert fields[..|fields|] == fields;
    case _ =>
  }

  /** The Control API's collector. */
  method CollectNamedStringsLocally(v: Json, keys: set<string>) returns (collected: set<string>)
    ensures collected == NamedStrings(v, keys)
    decreases v
  {
    collected := {};
    if v.Obj? {
      for i := 0 to |v.fields|
        invariant collected == NamedInFields(v.fields[..i], keys)
      {
        NamedInFieldsSplit(v.fields, i, keys);
        var child := v.fields[i].value;
        if v.fields[i].key in keys {
          if child.Str? {
            collected := collected + {child.s};
          } else if child.Arr? {
            collected := collected + Strings(child);
          }
        }
        var below := CollectNamedStringsLocally(child, keys);
        collected := collected + below;
      }
      assert v.fields[..|v.fields|] == v.fields;
    } else if v.Arr? {
      for i := 0 to |v.items|
        invariant collected == NamedInItems(v.items[..i], keys)
      {
        NamedInItemsSplit(v.items, i, keys);
        var below := CollectNamedStringsLocally(v.items[i], keys);
        collected := collected + below;
      }
      assert v.items[..|v.items|] == v.items;
    }
  }

  // ---- Evidence records ----

  type Records = map<string, Fields>

  function OwnRecord(fields: Fields): Records {
    match (Member(fields, "evidence_id"), Member(fields, "value_kind"))
    case (Str(id), Str(_)) => map[id := fields]
    case _ => map[]
  }

  /** The records in a value by id, a later one and an inner one winning over an earlier and an outer one. */
  function RecordsIn(v: Json): Records
    decreases v, 1
  {
    match v
    case Arr(items) => RecordsInItems(items)
    case Obj(fields) => OwnRecord(fields) + RecordsInFields(fields)
    case _ => map[]
  }

  function RecordsInItems(items: seq<Json>): Records
    decreases items, 0
  {
    if items == [] then map[] else RecordsIn(items[0]) + RecordsInItems(items[1..])
  }

  function RecordsInFields(fields: Fields): Records
    decreases fields, 0
  {
    if fields == [] then map[] else RecordsIn(fields[0].value) + RecordsInFields(fields[1..])
  }

  lemma {:induction false} RecordsInItemsSplit(items: seq<Json>, i: nat)
    requires i < |items|
    ensures RecordsInItems(items[..i + 1]) == RecordsInItems(items[..i]) + RecordsIn(items[i])
  {
    if i == 0 {
      assert items[..1] == [items[0]] && items[..0] == [];
      assert RecordsInItems([]) == map[];
    } else {
      assert items[..i + 1][1..] == items[1..][..i] && items[..i][1..] == items[1..][..i - 1];
      RecordsInItemsSplit(items[1..], i - 1);
    }
  }

  lemma {:induction false} RecordsInFieldsSplit(fields: Fields, i: nat)
    requires i < |fields|
    ensures RecordsInFields(fields[..i + 1]) == RecordsInFields(fields[..i]) + RecordsIn(fields[i].value)
  {
    if i == 0 {
      assert fields[..1] == [fields[0]] && fields[..0] == [];
      assert RecordsInFields([]) == map[];
    } else {
      assert fields[..i + 1][1..] == fields[1..][..i] && fields[..i][1..] == fields[1..][..i - 1];
      RecordsInFieldsSplit(fields[1..], i - 1);
    }
  }

  lemma NothingRecorded()
    ensures RecordsInItems([]) == map[] && RecordsInFields([]) == map[]
    ensures forall items: seq<Json> :: items[..0] == []
    ensures forall fields: Fields :: fields[..0] == []
  {
  }

  lemma MergeAssociates(a: Records, b: Records, c: Records)
    ensures a + b + c == a + (b + c)
  {
  }

  /** Sets the entry of an object that is itself a record. */
  method AddOwnRecord(fields: Fields, records: Records) returns (r: Records)
    ensures r == records + OwnRecord(fields)
  {
    var id, kind := Member(fields, "evidence_id"), Member(fields, "value_kind");
    if id.Str? && kind.Str? {
      return records[id.s := fields];
    }
    return records;
  }

  /** The Runtime's collector, setting entries of the map that it is given. */
  method CollectEvidenceRecords(v: Json, records: Records) returns (r: Records)
    ensures r == records + RecordsIn(v)
    decreases v
  {
    hide OwnRecord, RecordsInItems, RecordsInFields;
    r := records;
    match v
    case Arr(items) =>
      NothingRecorded();
      for i := 0 to |items|
        invariant r == records + RecordsInItems(items[..i])
      {
        RecordsInItemsSplit(items, i);
        MergeAssociates(records, RecordsInItems(items[..i]), RecordsIn(items[i]));
        r := CollectEvidenceRecords(items[i], r);
      }
      assert items[..|items|] == items;
    case Obj(fields) =>
      NothingRecorded();
      r := AddOwnRecord(fields, r);
      ghost var before := r;
      for i := 0 to |fields|
        invariant r == before + RecordsInFields(fields[..i])
      {
        RecordsInFieldsSplit(fields, i);
        MergeAssociates(before, RecordsInFields(fields[..i]), RecordsIn(fields[i].value));
        r := CollectEvidenceRecords(fields[i].value, r);
      }
      assert fields[..|fields|] == fields;
      MergeAssociates(records, OwnRecord(fields), RecordsInFields(fields));
    case _ =>
  }

  /** The Control API's collector, updating a local dictionary with those of the parts. */
  method CollectEvidenceRecordsLocally(v: Json) returns (records: Records)
    ensures records == RecordsIn(v)
    decreases v
  {
    hide OwnRecord, RecordsInItems, RecordsInFields;
    NothingRecorded();
    records := map[];
    if v.Obj? {
      records := AddOwnRecord(v.fields, records);
      for i := 0 to |v.fields|
        invariant records == OwnRecord(v.fields) + RecordsInFields(v.fields[..i])
      {
        RecordsInFieldsSplit(v.fields, i);
        MergeAssociates(OwnRecord(v.fields), RecordsInFields(v.fields[..i]), RecordsIn(v.fields[i].value));
        var below := CollectEvidenceRecordsLocally(v.fields[i].value);
        records := records + below;
      }
      assert v.fields[..|v.fields|] == v.fields;
    } else if v.Arr? {
      for i := 0 to |v.items|
        invariant records == RecordsInItems(v.items[..i])
      {
        RecordsInItemsSplit(v.items, i);
        var below := CollectEvidenceRecordsLocally(v.items[i]);
        records := records + below;
      }
      assert v.items[..|v.items|] == v.items;
    }
  }

  // ---- What is collected where ----

  lemma {:induction false} NamedOfField(fields: Fields, f: Field, keys: set<string>)
    requires f in fields
    ensures NamedInField(f, keys) <= NamedInFields(fields, keys)
  {
    if f != fields[0] {
      NamedOfField(fields[1..], f, keys);
    }
  }

  lemma {:induction false} NamedOfItem(items: seq<Json>, x: Json, keys: set<string>)
    requires x in items
    ensures NamedStrings(x, keys) <= NamedInItems(items, keys)
  {
    if x != items[0] {
      NamedOfItem(items[1..], x, keys);
    }
  }

  /** What a member contributes, itself and below. */
  lemma NamedOfMember(fields: Fields, k: string, keys: set<string>)
    ensures NamedStrings(Member(fields, k), keys) <= NamedStrings(Obj(fields), keys)
    ensures k in keys ==> Own(Member(fields, k)) <= NamedStrings(Obj(fields), keys)
  {
    if k in Keys(fields) {
      NamedOfField(fields, Field(k, At(fields, k)), keys);
    }
  }

  /** More keys collect more. */
  lemma {:induction false} NamedMonotone(v: Json, keys: set<string>, more: set<string>)
    requires keys <= more
    ensures NamedStrings(v, keys) <= NamedStrings(v, more)
    decreases v, 1
  {
    match v
    case Arr(items) => NamedItemsMonotone(items, keys, more);
    case Obj(fields) => NamedFieldsMonotone(fields, keys, more);
    case _ =>
  }

  lemma {:induction false} NamedItemsMonotone(items: seq<Json>, keys: set<string>, more: set<string>)
    requires keys <= more
    ensures NamedInItems(items, keys) <= NamedInItems(items, more)
    decreases items, 0
  {
    if items != [] {
      NamedMonotone(items[0], keys, more);
      NamedItemsMonotone(items[1..], keys, more);
    }
  }

  lemma {:induction false} NamedFieldsMonotone(fields: Fields, keys: set<string>, more: set<string>)
    requires keys <= more
    ensures NamedInFields(fields, keys) <= NamedInFields(fields, more)
    decreases fields, 0
  {
    if fields != [] {
      NamedMonotone(fields[0].value, keys, more);
      NamedFieldsMonotone(fields[1..], keys, more);
    }
  }

  /** Every record's id is a text under `evidence_id`. */
  lemma {:induction false} RecordIdsNamed(v: Json, keys: set<string>)
    requires "evidence_id" in keys
    ensures RecordsIn(v).Keys <= NamedStrings(v, keys)
    decreases v, 1
  {
    match v
    case Arr(items) => RecordIdsInItems(items, keys);
    case Obj(fields) =>
      RecordIdsInFields(fields, keys);
      NamedOfMember(fields, "evidence_id", keys);
    case _ =>
  }

  lemma {:induction false} RecordIdsInItems(items: seq<Json>, keys: set<string>)
    requires "evidence_id" in keys
    ensures RecordsInItems(items).Keys <= NamedInItems(items, keys)
    decreases items, 0
  {
    if items != [] {
      RecordIdsNamed(items[0], keys);
      RecordIdsInItems(items[1..], keys);
    }
  }

  lemma {:induction false} RecordIdsInFields(fields: Fields, keys: set<string>)
    requires "evidence_id" in keys
    ensures RecordsInFields(fields).Keys <= NamedInFields(fields, keys)
    decreases fields, 0
  {
    if fields != [] {
      RecordIdsNamed(fields[0].value, keys);
      RecordIdsInFields(fields[1..], keys);
    }
  }
}
