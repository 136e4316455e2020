/** The schema of an intent operation as it is sent: for each property the union of what the branches say of it. */
module IntentSchema {
  import opened Json
  import opened JsonSchema
  import opened CollatedJson
  import opened ReferenceCollectors
  import opened SchemaReferences
  import opened Sorting
  import opened VertexResponseSchema
  import opened ProjectionSoundness
  import opened ProjectionMerge
  import opened ProjectionTheorem
  import opened ProjectionExact
  import opened IntentGates

  // ---- The union ----

  /** What a branch says of a property. */
  function PropertySchema(branch: Json, property: string): Option<Json> {
    var properties := Member(Members(branch), "properties");
    var schema := Get(Members(properties), property);
    if schema.Some? && schema.value.Obj? then schema else None
  }

  function PropertySchemas(branches: seq<Json>, property: string): seq<Json> {
    if branches == [] then []
    else
      var (rest, last) := (PropertySchemas(branches[..|branches| - 1], property), branches[|branches| - 1]);
      match PropertySchema(last, property)
      case None => rest
      case Some(q) => rest + [q]
  }

  lemma {:induction false} PropertySchemaListed(branches: seq<Json>, b: Json, property: string)
    requires b in branches && PropertySchema(b, property).Some?
    ensures PropertySchema(b, property).value in PropertySchemas(branches, property)
  {
    hide PropertySchema;
    if b != branches[|branches| - 1] {
      var i :| 0 <= i < |branches| && branches[i] == b;
      assert branches[..|branches| - 1][i] == b;
      PropertySchemaListed(branches[..|branches| - 1], b, property);
    }
  }

  /** Schemas with the same text are the same, each kept where it occurs first. */
  method DistinctIntentPropertySchemas(branches: seq<Json>, property: string) returns (schemas: seq<Json>)
    ensures schemas == Unique(PropertySchemas(branches, property))
  {
    hide PropertySchema;
    schemas := [];
    for i := 0 to |branches|
      invariant schemas == Unique(PropertySchemas(branches[..i], property))
    {
      assert branches[..i + 1][..i] == branches[..i];
      var (before, q) := (PropertySchemas(branches[..i], property), PropertySchema(branches[i], property));
      if q.Some? {
        assert (before + [q.value])[..|before|] == before;
        if q.value !in schemas {
          schemas := schemas + [q.value];
        }
      }
    }
    assert branches[..|branches|] == branches;
  }

  /** The code throws where there is no schema. */
  function CompactUnion(schemas: seq<Json>): Option<Json> {
    if schemas == [] then None
    else if |schemas| == 1 then Some(schemas[0])
    else Some(Obj([Field("anyOf", Arr(schemas))]))
  }

  /** The texts among the values of the schemas' enums. */
  function EnumTexts(schemas: seq<Json>): seq<Json> {
    if schemas == [] then []
    else EnumTexts(schemas[..|schemas| - 1]) + TextItems(Elements(Member(Members(schemas[|schemas| - 1]), "enum")))
  }

  function TextItems(items: seq<Json>): (r: seq<Json>)
    ensures forall x :: x in r <==> x in items && x.Str?
  {
    if items == [] then []
    else
      var (rest, last) := (TextItems(items[..|items| - 1]), items[|items| - 1]);
      assert items == items[..|items| - 1] + [last];
      if last.Str? then rest + [last] else rest
  }

  function TextEnum(values: seq<Json>): Json {
    Obj([Field("type", Str("string")), Field("enum", Arr(values))])
  }

  function Distinctly(branches: seq<Json>, property: string): seq<Json> {
    Unique(PropertySchemas(branches, property))
  }

  /** The properties as they are written over those of the contract. */
  function SentProperties(branches: seq<Json>, paths: seq<string>, operationIds: seq<string>): Option<Fields> {
    var expected := CompactUnion(Distinctly(branches, "expected_old_value"));
    var typed := CompactUnion(Distinctly(branches, "typed_value"));
    if expected.None? || typed.None? then None
    else Some([
      Field("op_id", TextEnum(Texts(operationIds))),
      Field("field_path", TextEnum(Texts(paths))),
      Field("kind", TextEnum(Unique(EnumTexts(Distinctly(branches, "kind"))))),
      Field("expected_old_value", expected.value),
      Field("typed_value", typed.value),
      Field("unit", NULL_TYPE)
    ])
  }

  /** The operation meets what is sent of each of these properties. */
  ghost predicate MeetsSent(w: World, sent: Fields, op: Fields) {
    forall k | k in Keys(sent) && k in Keys(op) :: Admits(w, At(sent, k), At(op, k))
  }

  // ---- What a branch accepts, the union accepts ----

  lemma UnionAdmits(w: World, schemas: seq<Json>, q: Json, v: Json)
    requires q in schemas && Admits(w, q, v)
    ensures CompactUnion(schemas).Some? && Admits(w, CompactUnion(schemas).value, v)
  {
    hide Judge;
    var i: nat :| i < |schemas| && schemas[i] == q;
    if |schemas| > 1 {
      SingleAnyOf(w, 0, "", schemas, i, v);
    }
  }

  lemma TextEnumAdmits(w: World, values: seq<Json>, s: string)
    requires Str(s) in values
    ensures Admits(w, TextEnum(values), Str(s))
  {
    hide Keyword, Get, Keys;
    var m := TextEnum(values).fields;
    TwoMembers(m[0], m[1]);
    assert m == [m[0], m[1]];
    TypeKeyword(w, true, 0, "", m, Str(s));
    EnumKeyword(w, m, values, Str(s));
  }

  lemma EnumKeyword(w: World, m: Fields, values: seq<Json>, x: Json)
    requires Get(m, "enum") == Some(Arr(values)) && x in values
    ensures Keyword(w, true, 0, "", m, "enum", x)
  {
    hide KindOf, Judgement, SiblingsOf;
    KeyKinds();
    SameReflexive(x);
  }

  lemma {:induction false} EnumTextsHold(schemas: seq<Json>, q: Json, s: string)
    requires q in schemas && q.Obj? && Str(s) in Elements(Member(q.fields, "enum"))
    ensures Str(s) in EnumTexts(schemas)
  {
    hide TextItems;
    var last := schemas[|schemas| - 1];
    if q == last {
      assert Str(s) in TextItems(Elements(Member(Members(q), "enum")));
    } else {
      var i :| 0 <= i < |schemas| && schemas[i] == q;
      assert schemas[..|schemas| - 1][i] == q;
      EnumTextsHold(schemas[..|schemas| - 1], q, s);
    }
  }

  /** What a branch says of the four properties it is about. */
  lemma BranchSchemas(path: string, kind: string, expected: Json, typed: Json)
    requires expected.Obj? && typed.Obj?
    ensures var b := Branch(path, kind, expected, typed);
      && PropertySchema(b, "kind") == Some(OneOfValues([Str(kind)]))
      && PropertySchema(b, "expected_old_value") == Some(expected) && PropertySchema(b, "typed_value") == Some(typed)
  {
    hide Get, Keys, Branch;
    BranchMembers(path, kind, expected, typed);
  }

  // ---- The theorem ----

  lemma SixMembers(branches: seq<Json>, paths: seq<string>, operationIds: seq<string>)
    requires SentProperties(branches, paths, operationIds).Some?
    ensures var sent := SentProperties(branches, paths, operationIds).value;
      && Keys(sent) == {"op_id", "field_path", "kind", "expected_old_value", "typed_value", "unit"}
      && At(sent, "op_id") == TextEnum(Texts(operationIds)) && At(sent, "field_path") == TextEnum(Texts(paths))
      && At(sent, "kind") == TextEnum(Unique(EnumTexts(Distinctly(branches, "kind"))))
      && Some(At(sent, "expected_old_value")) == CompactUnion(Distinctly(branches, "expected_old_value"))
      && Some(At(sent, "typed_value")) == CompactUnion(Distinctly(branches, "typed_value"))
      && At(sent, "unit") == NULL_TYPE
  {
    hide Get, Keys, TextEnum, Texts, Unique, EnumTexts, Distinctly, CompactUnion;
    var sent := SentProperties(branches, paths, operationIds).value;
    SixMembersOf(sent[0], sent[1], sent[2], sent[3], sent[4], sent[5]);
    assert sent == [sent[0], sent[1], sent[2], sent[3], sent[4], sent[5]];
  }

  lemma SixMembersOf(a: Field, b: Field, c: Field, d: Field, e: Field, f: Field)
    requires a.key !in {b.key, c.key, d.key, e.key, f.key} && b.key !in {c.key, d.key, e.key, f.key}
    requires c.key !in {d.key, e.key, f.key} && d.key !in {e.key, f.key} && e.key != f.key
    ensures var s := [a, b, c, d, e, f];
      && Keys(s) == {a.key, b.key, c.key, d.key, e.key, f.key}
      && Get(s, a.key) == Some(a.value) && Get(s, b.key) == Some(b.value) && Get(s, c.key) == Some(c.value)
      && Get(s, d.key) == Some(d.value) && Get(s, e.key) == Some(e.value) && Get(s, f.key) == Some(f.value)
  {
    hide Get, Keys;
    FiveMembers(b, c, d, e, f);
    Prepended(a, [b, c, d, e, f]);
    assert [a, b, c, d, e, f] == [a] + [b, c, d, e, f];
  }

  lemma BranchOf(founder: Fields, path: string, b: Json) returns (kind: string, expected: Json, typed: Json)
    requires FieldBranches(founder, path).Some? && b in FieldBranches(founder, path).value
    ensures b == Branch(path, kind, expected, typed) && expected.Obj? && typed.Obj?
  {
    hide TypedValueSchema, Branch, OneOfValues, Keys, Get, FieldName, EnumValues, Unique;
    if k, e, t :| b == Branch(path, k, e, t) && e.Obj? && t.Obj? {
      kind, expected, typed := k, e, t;
    }
  }

  lemma OneTextAdmits(w: World, s: string, x: Json)
    requires Admits(w, OneOfValues([Str(s)]), x)
    ensures x == Str(s)
  {
    var m := OneOfValues([Str(s)]).fields;
    assert Get(m, "enum") == Some(Arr([Str(s)])) && Keys(m) == {"enum"};
    hide KindOf, SiblingsOf, Judge, Keyword, Applies, Get, Keys;
    KeyKinds();
    OneKeyword(w, true, 0, "", m, "enum", x);
    KeywordWhole(w, true, 0, "", m, "enum", x);
    OneTextApplies(Whole(w, 0, ""), w, s, SiblingsOf(m), x);
  }

  lemma OneTextApplies(judge: Verdict, w: World, s: string, siblings: Siblings, x: Json)
    requires Applies(judge, w, true, Enum, "enum", Arr([Str(s)]), siblings, x)
    ensures x == Str(s)
  {
  }

  /** What a branch that accepts the operation says of it. */
  lemma AcceptingBranch(w: World, path: string, kind: string, expected: Json, typed: Json, op: Fields)
    requires Admits(w, Branch(path, kind, expected, typed), Obj(op))
    requires {"kind", "expected_old_value", "typed_value"} <= Keys(op)
    ensures At(op, "kind") == Str(kind)
    ensures Admits(w, expected, At(op, "expected_old_value")) && Admits(w, typed, At(op, "typed_value"))
  {
    hide Judge, Branch, OneOfValues, Get, Keys;
    BranchMembers(path, kind, expected, typed);
    var m := Branch(path, kind, expected, typed).fields;
    PropertyAdmits(w, m, "kind", Obj(op));
    PropertyAdmits(w, m, "expected_old_value", Obj(op));
    PropertyAdmits(w, m, "typed_value", Obj(op));
    OneTextAdmits(w, kind, At(op, "kind"));
  }

  /** The union holds what any branch says. */
  lemma UnionOfBranches(branches: seq<Json>, b: Json, property: string)
    requires b in branches && PropertySchema(b, property).Some?
    ensures PropertySchema(b, property).value in Distinctly(branches, property)
    ensures CompactUnion(Distinctly(branches, property)).Some?
  {
    hide PropertySchema, PropertySchemas;
    PropertySchemaListed(branches, b, property);
  }

  lemma KindListed(branches: seq<Json>, b: Json, kind: string)
    requires b in branches && PropertySchema(b, "kind") == Some(OneOfValues([Str(kind)]))
    ensures Str(kind) in Unique(EnumTexts(Distinctly(branches, "kind")))
  {
    var q := OneOfValues([Str(kind)]);
    assert Get(q.fields, "enum") == Some(Arr([Str(kind)]));
    hide PropertySchema, OneOfValues, Get;
    UnionOfBranches(branches, b, "kind");
    EnumTextsHold(Distinctly(branches, "kind"), q, kind);
  }

  lemma NoUnitExactly(w: World, sent: Fields, op: Fields)
    requires "unit" in Keys(sent) && At(sent, "unit") == NULL_TYPE
    ensures ("unit" in Keys(op) ==> Admits(w, NULL_TYPE, At(op, "unit"))) <==> Member(op, "unit") == Null
  {
    hide Judge, Keys, Get;
    if "unit" in Keys(op) {
      OnlyTypeAdmits(w, "null", At(op, "unit"));
    }
  }

  /** An operation that a branch accepts meets each union. */
  lemma BranchMeetsSent(
    w: World, founder: Fields, from: string, branches: seq<Json>, paths: seq<string>, ids: seq<string>, op: Fields, b: Json)
    requires FieldBranches(founder, from).Some? && b in FieldBranches(founder, from).value && b in branches
    requires Admits(w, b, Obj(op)) && OperationShape(op)
    requires At(op, "field_path") in Texts(paths) && ("op_id" in Keys(op) ==> At(op, "op_id") in Texts(ids))
    ensures SentProperties(branches, paths, ids).Some?
    ensures forall k | k in Keys(SentProperties(branches, paths, ids).value) && k in Keys(op) && k != "unit" ::
      Admits(w, At(SentProperties(branches, paths, ids).value, k), At(op, k))
  {
    hide Judge, Keys, Get, Branch, OneOfValues, Texts, TextEnum, Unique, EnumTexts, PropertySchema, FieldBranches, Distinctly;
    hide CompactUnion, TypedShape, SentProperties;
    var kind, expected, typed := BranchOf(founder, from, b);
    AcceptingBranch(w, from, kind, expected, typed, op);
    BranchSchemas(from, kind, expected, typed);
    UnionOfBranches(branches, b, "expected_old_value");
    UnionOfBranches(branches, b, "typed_value");
    SentWithUnions(branches, paths, ids);
    SixMembers(branches, paths, ids);
    KindListed(branches, b, kind);
    TextEnumAdmits(w, Unique(EnumTexts(Distinctly(branches, "kind"))), kind);
    UnionAdmits(w, Distinctly(branches, "expected_old_value"), expected, At(op, "expected_old_value"));
    UnionAdmits(w, Distinctly(branches, "typed_value"), typed, At(op, "typed_value"));
    InTexts(w, paths, At(op, "field_path"));
    if "op_id" in Keys(op) {
      InTexts(w, ids, At(op, "op_id"));
    }
  }

  lemma SentWithUnions(branches: seq<Json>, paths: seq<string>, ids: seq<string>)
    requires CompactUnion(Distinctly(branches, "expected_old_value")).Some?
    requires CompactUnion(Distinctly(branches, "typed_value")).Some?
    ensures SentProperties(branches, paths, ids).Some?
  {
  }

  lemma InTexts(w: World, texts: seq<string>, x: Json)
    requires x in Texts(texts)
    ensures Admits(w, TextEnum(Texts(texts)), x)
  {
    hide Judge, TextEnum;
    var i :| 0 <= i < |texts| && Texts(texts)[i] == x;
    TextEnumAdmits(w, Texts(texts), texts[i]);
  }

  /** What the validator accepts meets the schema as it is sent exactly when it names no unit, which the contract
      allows, the schema forbids, and the validator does not look at. */
  lemma AcceptedMeetsSentExactly(
    p: Platform, w: World, founder: Fields, paths: seq<string>, ids: seq<string>, branches: seq<Json>,
    op: Fields, path: string, input: string)
    requires Branches(founder, paths) == Some(branches) && path in paths && FieldName(path) in Keys(founder)
    requires OperationShape(op) && UniqueKeys(Obj(founder)) && MinimumStandard(w)
    requires Get(op, "field_path") == Some(Str(path)) && ("op_id" in Keys(op) ==> At(op, "op_id") in Texts(ids))
    requires Accepted(p, op, path, founder, input)
    ensures SentProperties(branches, paths, ids).Some?
    ensures MeetsSent(w, SentProperties(branches, paths, ids).value, op) <==> Member(op, "unit") == Null
  {
    hide Judge, Keys, Get, FieldName, FieldBranches, Accepted, OperationShape, Branch, MinimumStandard, SentProperties;
    assert At(op, "field_path") in Texts(paths) by {
      var i :| 0 <= i < |paths| && paths[i] == path;
      assert Texts(paths)[i] == Str(path);
    }
    hide Texts;
    SentExists(founder, paths, ids, branches, path);
    SixMembers(branches, paths, ids);
    var sent := SentProperties(branches, paths, ids).value;
    NoUnitExactly(w, sent, op);
    AcceptedFitsExactly(p, w, founder, paths, branches, op, path, input);
    if Member(op, "unit") == Null {
      var b :| b in branches && Admits(w, b, Obj(op));
      var from := BranchFrom(founder, paths, b);
      BranchMeetsSent(w, founder, from, branches, paths, ids, op, b);
    }
  }

  lemma SentExists(founder: Fields, paths: seq<string>, ids: seq<string>, branches: seq<Json>, path: string)
    requires Branches(founder, paths) == Some(branches) && path in paths
    ensures SentProperties(branches, paths, ids).Some?
  {
    hide FieldBranches, Branch, PropertySchema, Distinctly, CompactUnion;
    BranchListed(founder, paths, path);
    FirstBranch(founder, path);
    var b := FieldBranches(founder, path).value[0];
    var kind, expected, typed := BranchOf(founder, path, b);
    BranchSchemas(path, kind, expected, typed);
    UnionOfBranches(branches, b, "expected_old_value");
    UnionOfBranches(branches, b, "typed_value");
  }

  lemma FirstBranch(founder: Fields, path: string)
    requires FieldBranches(founder, path).Some?
    ensures FieldBranches(founder, path).value != []
  {
    hide TypedValueSchema, Branch, OneOfValues, Keys, Get, FieldName, EnumValues, Unique, ExactTypedValue;
  }

  // ---- An operation that names a unit ----

  const UNSET_FUNDS := [Field("own_funds_krw", Null)]
  const FIVE_WON := [
    Field("op_id", Str("op-1")),
    Field("kind", Str("SET")),
    Field("field_path", Str(OWN_FUNDS)),
    Field("expected_old_value", Obj([Field("kind", Str("NULL")), Field("value", Null)])),
    Field("typed_value", Obj([Field("kind", Str("INTEGER")), Field("value", Num(5))])),
    Field("unit", Str("KRW")),
    Field("source_span", Obj([Field("start", Num(0)), Field("end", Num(1))]))
  ]

  lemma FundsText()
    ensures OWN_FUNDS == [] + ['/'] + ("founder" + ['/'] + "own_funds_krw")
    ensures OWN_FUNDS !in COLLECTION_FIELDS && OWN_FUNDS != MAX_LOSS
  {
  }

  lemma NoSlash()
    ensures '/' !in "founder" && '/' !in "own_funds_krw"
  {
  }

  lemma FundsName()
    ensures FieldName(OWN_FUNDS) == "own_funds_krw"
  {
    hide Split;
    NoSlash();
    FundsText();
    var (founder, name) := ("founder", "own_funds_krw");
    LastPiece([], founder + ['/'] + name);
    LastPiece(founder, name);
    SplitPiece(name, '/', []);
  }

  lemma LastPiece(piece: string, rest: string)
    requires '/' !in piece
    ensures FieldName(piece + ['/'] + rest) == FieldName(rest)
  {
    hide Split;
    SplitPiece(piece, '/', rest);
  }

  lemma SevenMembers(a: Field, b: Field, s: Fields)
    requires |s| == 5 && a.key != b.key
    requires forall i | 0 <= i < 5 :: s[i].key != a.key && s[i].key != b.key
    requires s[0].key !in {s[1].key, s[2].key, s[3].key, s[4].key} && s[1].key !in {s[2].key, s[3].key, s[4].key}
    requires s[2].key !in {s[3].key, s[4].key} && s[3].key != s[4].key
    ensures Keys([a, b] + s) == {a.key, b.key, s[0].key, s[1].key, s[2].key, s[3].key, s[4].key}
    ensures Get([a, b] + s, a.key) == Some(a.value) && Get([a, b] + s, b.key) == Some(b.value)
    ensures forall i | 0 <= i < 5 :: Get([a, b] + s, s[i].key) == Some(s[i].value)
  {
    hide Get, Keys;
    FiveMembers(s[0], s[1], s[2], s[3], s[4]);
    assert s == [s[0], s[1], s[2], s[3], s[4]];
    TwoMore(a, b, s);
  }

  lemma FiveWonMembers()
    ensures Keys(FIVE_WON) == {"op_id", "kind", "field_path", "expected_old_value", "typed_value", "unit", "source_span"}
    ensures Get(FIVE_WON, "kind") == Some(Str("SET")) && Get(FIVE_WON, "field_path") == Some(Str(OWN_FUNDS))
    ensures Get(FIVE_WON, "expected_old_value") == Some(FIVE_WON[3].value)
    ensures Get(FIVE_WON, "typed_value") == Some(FIVE_WON[4].value)
    ensures Get(FIVE_WON, "unit") == Some(Str("KRW")) && Get(FIVE_WON, "source_span") == Some(FIVE_WON[6].value)
    ensures Get(FIVE_WON, "op_id") == Some(Str("op-1"))
  {
    hide Get, Keys;
    var f := FIVE_WON;
    assert f == [f[0], f[1]] + f[2..];
    SevenMembers(f[0], f[1], f[2..]);
    assert f[2..][0] == f[2] && f[2..][1] == f[3] && f[2..][2] == f[4] && f[2..][3] == f[5] && f[2..][4] == f[6];
  }

  /** The parts of the operation. */
  lemma FiveWonParts()
    ensures TypedShape(FIVE_WON[3].value.fields) && TypedShape(FIVE_WON[4].value.fields)
    ensures FIVE_WON[3].value.fields == TypedValue(Null) && FIVE_WON[4].value.fields == TypedValue(Num(5))
    ensures Get(FIVE_WON[4].value.fields, "kind") == Some(Str("INTEGER"))
    ensures Get(FIVE_WON[4].value.fields, "value") == Some(Num(5))
    ensures Get(FIVE_WON[6].value.fields, "start") == Some(Num(0)) && Get(FIVE_WON[6].value.fields, "end") == Some(Num(1))
  {
    hide Get, Keys;
    var (a, b, c) := (FIVE_WON[3].value.fields, FIVE_WON[4].value.fields, FIVE_WON[6].value.fields);
    TwoMembers(a[0], a[1]);
    TwoMembers(b[0], b[1]);
    TwoMembers(c[0], c[1]);
    assert a == [a[0], a[1]] && b == [b[0], b[1]] && c == [c[0], c[1]];
  }

  lemma DistinctPrepended(f: Field, rest: Fields)
    requires Distinct(rest) && f.key !in Keys(rest)
    ensures Distinct([f] + rest) && Keys([f] + rest) == {f.key} + Keys(rest)
  {
    hide Keys;
    Prepended(f, rest);
    assert ([f] + rest)[1..] == rest;
  }

  lemma ThreeDistinct(a: Field, b: Field, rest: Fields)
    requires Distinct(rest) && a.key != b.key && a.key !in Keys(rest) && b.key !in Keys(rest)
    ensures Distinct([a, b] + rest) && Keys([a, b] + rest) == {a.key, b.key} + Keys(rest)
  {
    hide Keys, Distinct;
    DistinctPrepended(b, rest);
    DistinctPrepended(a, [b] + rest);
    assert [a] + ([b] + rest) == [a, b] + rest;
  }

  lemma PairUnique(a: Field, b: Field)
    requires a.key != b.key && UniqueKeys(a.value) && UniqueKeys(b.value)
    ensures UniqueKeys(Obj([a, b]))
  {
    assert Distinct([]) && Keys([]) == {};
    hide Distinct, Keys;
    ThreeDistinct(a, b, []);
    assert [a, b] + [] == [a, b];
  }

  lemma FiveDistinct(a: Field, b: Field, c: Field, d: Field, e: Field)
    requires a.key !in {b.key, c.key, d.key, e.key} && b.key !in {c.key, d.key, e.key}
    requires c.key !in {d.key, e.key} && d.key != e.key
    ensures Distinct([a, b, c, d, e])
  {
    assert Distinct([]) && Keys([]) == {};
    hide Distinct, Keys;
    DistinctPrepended(e, []);
    assert [e] + [] == [e];
    ThreeDistinct(c, d, [e]);
    assert [c, d] + [e] == [c, d, e];
    ThreeDistinct(a, b, [c, d, e]);
    assert [a, b] + [c, d, e] == [a, b, c, d, e];
  }

  lemma FiveWonDistinct()
    ensures Distinct(FIVE_WON)
  {
    hide Distinct, Keys, Get;
    var f := FIVE_WON;
    FiveDistinct(f[2], f[3], f[4], f[5], f[6]);
    FiveMembers(f[2], f[3], f[4], f[5], f[6]);
    ThreeDistinct(f[0], f[1], [f[2], f[3], f[4], f[5], f[6]]);
    assert f == [f[0], f[1]] + [f[2], f[3], f[4], f[5], f[6]];
  }

  lemma FiveWonUnique()
    ensures UniqueKeys(Obj(FIVE_WON))
  {
    hide Distinct, UniqueKeys;
    FiveWonDistinct();
    FiveWonValues();
    UniqueFields(FIVE_WON);
  }

  lemma FiveWonValues()
    ensures forall m | m in FIVE_WON :: UniqueKeys(m.value)
  {
    hide Distinct, Keys;
    PairUnique(Field("kind", Str("NULL")), Field("value", Null));
    PairUnique(Field("kind", Str("INTEGER")), Field("value", Num(5)));
    PairUnique(Field("start", Num(0)), Field("end", Num(1)));
  }

  lemma UniqueFields(f: Fields)
    requires Distinct(f) && forall m | m in f :: UniqueKeys(m.value)
    ensures UniqueKeys(Obj(f))
  {
  }

  /** Setting the funds, so far unset, to 5 with the unit KRW: the validator accepts it, and the schema that is sent
      rejects its unit. */
  lemma UnitAcceptedNotSent(p: Platform, w: World, input: string)
    requires |input| >= 1 && MinimumStandard(w)
    ensures FieldName(OWN_FUNDS) in Keys(UNSET_FUNDS) && OperationShape(FIVE_WON)
    ensures Accepted(p, FIVE_WON, OWN_FUNDS, UNSET_FUNDS, input)
    ensures Branches(UNSET_FUNDS, [OWN_FUNDS]).Some?
    ensures var branches := Branches(UNSET_FUNDS, [OWN_FUNDS]).value;
      var sent := SentProperties(branches, [OWN_FUNDS], ["op-1"]);
      sent.Some? && !MeetsSent(w, sent.value, FIVE_WON)
  {
    hide Judge, SentProperties, MeetsSent, FieldName, FieldBranches;
    FundsName();
    FundsHeld();
    assert UniqueKeys(Obj(UNSET_FUNDS));
    FiveWonAccepted(p, input);
    FundsBranches();
    assert At(FIVE_WON, "op_id") in Texts(["op-1"]) by {
      FiveWonMembers();
      assert Texts(["op-1"])[0] == Str("op-1");
    }
    FiveWonMembers();
    hide Get, Keys, Accepted, OperationShape, Texts, UniqueKeys;
    AcceptedMeetsSentExactly(p, w, UNSET_FUNDS, [OWN_FUNDS], ["op-1"], Branches(UNSET_FUNDS, [OWN_FUNDS]).value,
      FIVE_WON, OWN_FUNDS, input);
  }

  lemma FundsBranches()
    ensures Branches(UNSET_FUNDS, [OWN_FUNDS]).Some?
  {
    hide TypedValueSchema, Branch, FieldName, Get, Keys;
    FundsName();
    FundsText();
    FundsHeld();
    assert [OWN_FUNDS][..0] == [];
    assert Branches(UNSET_FUNDS, []) == Some([]);
    assert FieldBranches(UNSET_FUNDS, OWN_FUNDS).Some?;
  }

  lemma FiveWonAccepted(p: Platform, input: string)
    requires |input| >= 1
    ensures FieldName(OWN_FUNDS) in Keys(UNSET_FUNDS) && OperationShape(FIVE_WON)
    ensures Accepted(p, FIVE_WON, OWN_FUNDS, UNSET_FUNDS, input)
  {
    hide FieldName, Get, Keys, UniqueKeys, Platform.SameKey, TypedValue, TypedShape, ScalarAccepted, EnumValues;
    FundsName();
    FundsText();
    FundsHeld();
    FiveWonMembers();
    FiveWonParts();
    FiveWonUnique();
    FundsAccepted(p);
  }

  lemma FundsHeld()
    ensures Get(UNSET_FUNDS, "own_funds_krw") == Some(Null) && "own_funds_krw" in Keys(UNSET_FUNDS)
  {
  }

  lemma FundsAccepted(p: Platform)
    ensures ScalarAccepted(p, OWN_FUNDS, Str("SET"), TypedValue(Null), TypedValue(Num(5)), Null)
  {
    hide Get, Keys, Platform.SameKey, EnumValues, TypedValue;
    FundsText();
    SameAsItself(p, TypedValue(Null));
    FiveIsNotUnset(p);
    FiveWonParts();
  }

  lemma SameAsItself(p: Platform, a: Fields)
    ensures p.SameKey(a, a)
  {
  }

  lemma FiveIsNotUnset(p: Platform)
    ensures !p.SameKey(TypedValue(Num(5)), TypedValue(Null))
  {
    hide Ordered, Get, Keys, SameJson;
    if p.SameKey(TypedValue(Num(5)), TypedValue(Null)) {
      FiveWonParts();
      TypedValueUnique(Num(5));
      TypedSame(p, TypedValue(Num(5)), Null);
      assert false;
    }
  }

  // ---- The whole result ----

  /** The identifier is one of the pool, the field is one that may change, and the operation is accepted if the state
      has the field. */
  predicate OperationAllowed(p: Platform, op: Fields, ids: seq<string>, paths: seq<string>, founder: Fields, input: string) {
    var (id, path) := (Member(op, "op_id"), Member(op, "field_path"));
    && id.Str? && id.s in ids && path.Str? && path.s in paths
    && (FieldName(path.s) != "" && FieldName(path.s) in Keys(founder) ==> Accepted(p, op, path.s, founder, input))
  }

  /** The fields that the operations are about, where they may be. */
  function Produced(ops: seq<Json>, paths: seq<string>): seq<string> {
    if ops == [] then []
    else
      var (rest, path) := (Produced(ops[..|ops| - 1], paths), Member(Members(ops[|ops| - 1]), "field_path"));
      if path.Str? && path.s in paths then rest + [path.s] else rest
  }

  predicate ResultAccepted(p: Platform, ops: seq<Json>, ids: seq<string>, paths: seq<string>, founder: Fields, input: string) {
    && (forall op | op in ops :: OperationAllowed(p, Members(op), ids, paths, founder, input))
    && NoRepeats(Produced(ops, paths))
  }

  method ValidateOperation(p: Platform, op: Fields, ids: seq<string>, paths: seq<string>, founder: Fields, input: string)
    returns (ok: bool)
    ensures ok <==> OperationAllowed(p, op, ids, paths, founder, input)
  {
    hide Accepted, FieldName;
    var (id, path) := (Member(op, "op_id"), Member(op, "field_path"));
    ok := id.Str? && id.s in ids;
    if path.Str? && path.s in paths {
      if FieldName(path.s) != "" && FieldName(path.s) in Keys(founder) {
        var issues := ValidateIntentOperation(p, op, path.s, founder, input);
        ok := ok && issues == [];
      }
    } else {
      ok := false;
    }
  }

  method ValidateIntent(p: Platform, ops: seq<Json>, ids: seq<string>, paths: seq<string>, founder: Fields, input: string)
    returns (ok: bool)
    ensures ok <==> ResultAccepted(p, ops, ids, paths, founder, input)
  {
    hide OperationAllowed;
    ok := true;
    var produced: seq<string> := [];
    for i := 0 to |ops|
      invariant produced == Produced(ops[..i], paths)
      invariant ok <==> forall op | op in ops[..i] :: OperationAllowed(p, Members(op), ids, paths, founder, input)
    {
      assert ops[..i + 1][..i] == ops[..i] && ops[..i + 1] == ops[..i] + [ops[i]];
      var path := Member(Members(ops[i]), "field_path");
      if path.Str? && path.s in paths {
        produced := produced + [path.s];
      }
      var allowed := ValidateOperation(p, Members(ops[i]), ids, paths, founder, input);
      ok := ok && allowed;
    }
    assert ops[..|ops|] == ops;
    ok := ok && NoRepeats(produced);
  }

  lemma {:induction false} AllProduced(ops: seq<Json>, paths: seq<string>)
    requires forall op | op in ops :: Member(Members(op), "field_path").Str? && Member(Members(op), "field_path").s in paths
    ensures |Produced(ops, paths)| == |ops| && forall s | s in Produced(ops, paths) :: s in paths
  {
    if ops != [] {
      AllProduced(ops[..|ops| - 1], paths);
    }
  }

  /** An accepted result has at most as many operations as fields that may change, so that it keeps the number that the
      schema sets exactly if it has at most as many as there are identifiers: those may repeat. */
  lemma AcceptedKeepsMaxItems(
    p: Platform, ops: seq<Json>, ids: seq<string>, paths: seq<string>, founder: Fields, input: string)
    requires ResultAccepted(p, ops, ids, paths, founder, input)
    ensures |ops| <= |Occurring(paths)|
    ensures |ops| <= Smaller(|Occurring(paths)|, |Occurring(ids)|) <==> |ops| <= |Occurring(ids)|
  {
    hide Accepted, FieldName;
    AllProduced(ops, paths);
    CountOccurring(Produced(ops, paths));
    SubsetSize(Occurring(Produced(ops, paths)), Occurring(paths));
  }

  function Smaller(a: nat, b: nat): nat {
    if a < b then a else b
  }
}
