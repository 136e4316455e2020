/** The schema generated for intent operations, the rules advertised for them, and the validator of the
    answer: what the validator accepts is what the schema and the rules allow. */
module IntentGates {
  import opened Json
  import opened JsonSchema
  import opened CollatedJson
  import opened ReferenceCollectors
  import opened SchemaReferences
  import opened VertexResponseSchema
  import opened ProjectionSoundness
  import opened ProjectionMerge

  const OWN_FUNDS := "/founder/own_funds_krw"
  const MAX_LOSS := "/founder/max_loss_krw"
  const COLLECTION_FIELDS := {"/founder/preferences", "/founder/avoidances"}

  /** The last segment of a field path. */
  function FieldName(path: string): string {
    var pieces := Split(path, '/');
    pieces[|pieces| - 1]
  }

  function EnumValues(path: string): Option<seq<string>> {
    match path
    case "/founder/borrowing_intent" => Some(["YES", "NO", "UNDECIDED"])
    case "/founder/cafe_type_preference" => Some(["OPEN_TO_BOTH", "INDEPENDENT_ONLY", "FRANCHISE_ONLY"])
    case "/founder/operation_mode" => Some(["DIRECT_FULL_TIME", "DIRECT_PART_TIME", "EMPLOYEE_LED", "UNDECIDED"])
    case _ => None
  }

  function Texts(values: seq<string>): seq<Json> {
    seq(|values|, i requires 0 <= i < |values| => Str(values[i]))
  }

  /** The texts of a list, in order. */
  function TextList(v: Json): seq<string> {
    TextsOf(Elements(v))
  }

  function TextsOf(items: seq<Json>): (r: seq<string>)
    ensures forall s :: s in r <==> Str(s) in items
  {
    if items == [] then []
    else
      var rest, last := TextsOf(items[..|items| - 1]), items[|items| - 1];
      assert items == items[..|items| - 1] + [last];
      if last.Str? then rest + [last.s] else rest
  }

  // ---- The generated schema ----

  const NULL_TYPE := Obj([Field("type", Str("null"))])
  const TEXT_TYPE := Obj([Field("type", Str("string"))])
  const AMOUNT_TYPE := Obj([Field("type", Str("integer")), Field("minimum", Num(0))])

  function OneOfValues(values: seq<Json>): Json {
    Obj([Field("enum", Arr(values))])
  }

  function TypedValueSchema(kind: string, valueSchema: Json): (r: Json)
    ensures r.Obj?
  {
    Obj([
      Field("type", Str("object")),
      Field("additionalProperties", Bool(false)),
      Field("required", Arr([Str("kind"), Str("value")])),
      Field("properties", Obj([Field("kind", OneOfValues([Str(kind)])), Field("value", valueSchema)]))
    ])
  }

  /** The schema of exactly this state value; nothing for a value that state does not hold. */
  function ExactTypedValue(v: Json): Option<Json> {
    match v
    case Null => Some(TypedValueSchema("NULL", NULL_TYPE))
    case Str(_) => Some(TypedValueSchema("STRING", OneOfValues([v])))
    case Num(_) => Some(TypedValueSchema("INTEGER", OneOfValues([v])))
    case _ => None
  }

  function Branch(path: string, kind: string, expectedOldValue: Json, typedValue: Json): (r: Json)
    ensures r.Obj?
  {
    Obj([
      Field("type", Str("object")),
      Field("properties", Obj([
        Field("field_path", OneOfValues([Str(path)])),
        Field("kind", OneOfValues([Str(kind)])),
        Field("expected_old_value", expectedOldValue),
        Field("typed_value", typedValue),
        Field("unit", NULL_TYPE)
      ]))
    ])
  }

  /** The branches for one field; nothing where the code throws. */
  function FieldBranches(founder: Fields, path: string): Option<seq<Json>> {
    if FieldName(path) == "" || FieldName(path) !in Keys(founder) then None
    else
      var current := At(founder, FieldName(path));
      if path in COLLECTION_FIELDS then
        if !current.Arr? || exists x | x in current.items :: !x.Str? then None
        else
          var add := Branch(path, "ADD", TypedValueSchema("NULL", NULL_TYPE), TypedValueSchema("STRING", TEXT_TYPE));
          var removable := TypedValueSchema("STRING", OneOfValues(Unique(current.items)));
          Some([add] + if current.items == [] then [] else [Branch(path, "REMOVE", removable, removable)])
      else
        match ExactTypedValue(current)
        case None => None
        case Some(expected) =>
          if path == MAX_LOSS then
            Some([Branch(path, "SET", expected, TypedValueSchema("INTEGER", AMOUNT_TYPE))]
                 + if current == Null then [] else [Branch(path, "UNSET", expected, TypedValueSchema("NULL", NULL_TYPE))])
          else if path == OWN_FUNDS then
            Some([Branch(path, "SET", expected, TypedValueSchema("INTEGER", AMOUNT_TYPE))])
          else
            var allowed := EnumValues(path);
            Some([Branch(path, "SET", expected,
                         TypedValueSchema("STRING", if allowed.Some? then OneOfValues(Texts(allowed.value)) else TEXT_TYPE))])
  }

  function Branches(founder: Fields, paths: seq<string>): Option<seq<Json>> {
    if paths == [] then Some([])
    else
      match (Branches(founder, paths[..|paths| - 1]), FieldBranches(founder, paths[|paths| - 1]))
      case (Some(rest), Some(last)) => Some(rest + last)
      case _ => None
  }

  method IntentOperationBranches(founder: Fields, paths: seq<string>) returns (branches: Option<seq<Json>>)
    ensures branches == Branches(founder, paths)
  {
    hide FieldBranches;
    var list := [];
    for i := 0 to |paths|
      invariant Branches(founder, paths[..i]) == Some(list)
    {
      assert paths[..i + 1][..i] == paths[..i];
      var next := FieldBranches(founder, paths[i]);
      if next.None? {
        BranchesStop(founder, paths, i + 1);
        return None;
      }
      list := list + next.value;
    }
    assert paths[..|paths|] == paths;
    return Some(list);
  }

  lemma {:induction false} BranchesStop(founder: Fields, paths: seq<string>, i: nat)
    requires i <= |paths| && Branches(founder, paths[..i]).None?
    ensures Branches(founder, paths).None?
    decreases |paths| - i
  {
    hide FieldBranches;
    if i == |paths| {
      assert paths[..i] == paths;
    } else {
      assert paths[..i + 1][..i] == paths[..i];
      BranchesStop(founder, paths, i + 1);
    }
  }

  lemma {:induction false} BranchListed(founder: Fields, paths: seq<string>, path: string)
    requires path in paths && Branches(founder, paths).Some?
    ensures FieldBranches(founder, path).Some?
    ensures forall b | b in FieldBranches(founder, path).value :: b in Branches(founder, paths).value
  {
    hide FieldBranches;
    if path != paths[|paths| - 1] {
      var i :| 0 <= i < |paths| && paths[i] == path;
      assert paths[..|paths| - 1][i] == path;
      BranchListed(founder, paths[..|paths| - 1], path);
    }
  }

  lemma {:induction false} BranchFrom(founder: Fields, paths: seq<string>, b: Json) returns (path: string)
    requires Branches(founder, paths).Some? && b in Branches(founder, paths).value
    ensures path in paths && FieldBranches(founder, path).Some? && b in FieldBranches(founder, path).value
  {
    hide FieldBranches;
    if b in FieldBranches(founder, paths[|paths| - 1]).value {
      path := paths[|paths| - 1];
    } else {
      path := BranchFrom(founder, paths[..|paths| - 1], b);
    }
  }

  // ---- The advertised rules ----

  datatype Rule = Rule(path: string, kinds: set<string>, typedKinds: set<string>)

  function RuleFor(founder: Fields, path: string): Option<Rule> {
    if FieldName(path) == "" || FieldName(path) !in Keys(founder) then None
    else
      var current := At(founder, FieldName(path));
      if path in COLLECTION_FIELDS then
        Some(Rule(path, {"ADD"} + (if Elements(current) == [] then {} else {"REMOVE"}), {"STRING"}))
      else
        Some(Rule(
          path,
          if path == MAX_LOSS && current != Null then {"SET", "UNSET"} else {"SET"},
          if path == MAX_LOSS then {"INTEGER", "NULL"} else if path == OWN_FUNDS then {"INTEGER"} else {"STRING"}))
  }

  // ---- The validator ----

  datatype IntentIssue =
    | SOURCE_SPAN_INVALID
    | COLLECTION_VALUE_INVALID
    | COLLECTION_PRECONDITION_INVALID
    | OPERATION_KIND_INVALID
    | SCALAR_PRECONDITION_INVALID
    | SCALAR_VALUE_INVALID
    | SCALAR_VALUE_UNCHANGED

  /** The platform's collation, and its white space. */
  datatype Platform = Platform(upTo: Collation, space: char -> bool) {
    predicate Blank(s: string) {
      forall c | c in s :: space(c)
    }

    predicate SameKey(a: Fields, b: Fields) {
      SameJson(upTo, Some(Obj(a)), Some(Obj(b)))
    }
  }

  function TypedValue(v: Json): Fields {
    match v
    case Null => [Field("kind", Str("NULL")), Field("value", Null)]
    case Str(_) => [Field("kind", Str("STRING")), Field("value", v)]
    case Num(_) => [Field("kind", Str("INTEGER")), Field("value", v)]
    case _ => []
  }

  predicate SpanValid(span: Fields, input: string) {
    var (start, end) := (Member(span, "start"), Member(span, "end"));
    start.Num? && end.Num? && 0 <= start.n < end.n <= |input|
  }

  predicate CollectionAccepted(p: Platform, kind: Json, expected: Fields, typed: Fields, current: Json) {
    var (item, values) := (Member(typed, "value"), TextList(current));
    && Member(typed, "kind") == Str("STRING") && item.Str? && !p.Blank(item.s) && |item.s| <= 64
    && (if kind == Str("ADD") then
          p.SameKey(expected, TypedValue(Null)) && item.s !in values && |values| < 8
        else
          kind == Str("REMOVE") && p.SameKey(expected, typed) && item.s in values)
  }

  predicate ScalarValueValid(p: Platform, path: string, typed: Fields) {
    var (kind, value) := (Member(typed, "kind"), Member(typed, "value"));
    if path == OWN_FUNDS || path == MAX_LOSS then
      kind == Str("INTEGER") && value.Num? && value.n >= 0
    else
      && kind == Str("STRING") && value.Str? && !p.Blank(value.s)
      && (path == "/founder/target_area_input" ==> |value.s| <= 256)
      && (EnumValues(path).Some? ==> value.s in EnumValues(path).value)
  }

  predicate ScalarAccepted(p: Platform, path: string, kind: Json, expected: Fields, typed: Fields, current: Json) {
    && p.SameKey(expected, TypedValue(current))
    && (if kind == Str("UNSET") && path == MAX_LOSS then
          p.SameKey(typed, TypedValue(Null)) && current != Null
        else
          kind == Str("SET") && ScalarValueValid(p, path, typed) && !p.SameKey(typed, TypedValue(current)))
  }

  predicate Accepted(p: Platform, op: Fields, path: string, founder: Fields, input: string)
    requires FieldName(path) in Keys(founder)
  {
    var (kind, current) := (Member(op, "kind"), At(founder, FieldName(path)));
    var (expected, typed) := (Members(Member(op, "expected_old_value")), Members(Member(op, "typed_value")));
    && SpanValid(Members(Member(op, "source_span")), input)
    && (if path in COLLECTION_FIELDS then CollectionAccepted(p, kind, expected, typed, current)
        else ScalarAccepted(p, path, kind, expected, typed, current))
  }

  method ValidateIntentOperation(p: Platform, op: Fields, path: string, founder: Fields, input: string)
    returns (issues: seq<IntentIssue>)
    requires FieldName(path) in Keys(founder)
    ensures issues == [] <==> Accepted(p, op, path, founder, input)
  {
    hide TextsOf, EnumValues, TypedValue;
    var kind, current := Member(op, "kind"), At(founder, FieldName(path));
    var expected, typed := Members(Member(op, "expected_old_value")), Members(Member(op, "typed_value"));
    issues := [];
    if !SpanValid(Members(Member(op, "source_span")), input) {
      issues := issues + [SOURCE_SPAN_INVALID];
    }
    var value := Member(typed, "value");
    if path in COLLECTION_FIELDS {
      var values := TextList(current);
      if Member(typed, "kind") != Str("STRING") || !value.Str? || p.Blank(value.s) || |value.s| > 64 {
        issues := issues + [COLLECTION_VALUE_INVALID];
      } else if kind == Str("ADD") {
        if !p.SameKey(expected, TypedValue(Null)) || value.s in values || |values| >= 8 {
          issues := issues + [COLLECTION_PRECONDITION_INVALID];
        }
      } else if kind == Str("REMOVE") {
        if !p.SameKey(expected, typed) || value.s !in values {
          issues := issues + [COLLECTION_PRECONDITION_INVALID];
        }
      } else {
        issues := issues + [OPERATION_KIND_INVALID];
      }
      return;
    }
    if !p.SameKey(expected, TypedValue(current)) {
      issues := issues + [SCALAR_PRECONDITION_INVALID];
    }
    if kind == Str("UNSET") && path == MAX_LOSS {
      if !p.SameKey(typed, TypedValue(Null)) {
        issues := issues + [SCALAR_VALUE_INVALID];
      }
      if current == Null {
        issues := issues + [SCALAR_VALUE_UNCHANGED];
      }
      return;
    }
    if kind != Str("SET") {
      issues := issues + [OPERATION_KIND_INVALID];
      return;
    }
    if !ScalarValueValid(p, path, typed) {
      issues := issues + [SCALAR_VALUE_INVALID];
    }
    if p.SameKey(typed, TypedValue(current)) {
      issues := issues + [SCALAR_VALUE_UNCHANGED];
    }
  }

  // ---- What the generated schemas accept ----

  lemma EnumAdmits(w: World, values: seq<Json>, x: Json)
    requires x in values
    ensures Admits(w, OneOfValues(values), x)
  {
    hide KindOf;
    KeyKinds();
    var fields := OneOfValues(values).fields;
    assert Get(fields, "enum") == Some(Arr(values)) && Keys(fields) == {"enum"};
    SameReflexive(x);
    assert Keyword(w, true, 0, "", fields, "enum", x);
  }

  lemma OnlyTypeAdmits(w: World, name: string, x: Json)
    ensures Admits(w, Obj([Field("type", Str(name))]), x) <==> HasType(name, x)
  {
    hide Judge;
    TypeOnlyAdmits(w, Str(name), x);
    assert OnlyType(Str(name)) == Obj([Field("type", Str(name))]);
  }

  /** The standard's reading of `minimum`. */
  ghost predicate MinimumStandard(w: World) {
    forall n: int :: w.assertion("minimum", Num(0), Num(n)) <==> n >= 0
  }

  lemma AmountAdmits(w: World, n: int)
    requires MinimumStandard(w) && n >= 0
    ensures Admits(w, AMOUNT_TYPE, Num(n))
  {
    hide Keyword;
    var fields := AMOUNT_TYPE.fields;
    assert fields[1..] == [Field("minimum", Num(0))];
    assert Keys(fields) == {"type", "minimum"} by { KeysCons(fields); KeysCons(fields[1..]); }
    assert Get(fields, "type") == Some(Str("integer")) && Get(fields, "minimum") == Some(Num(0));
    TypeKeyword(w, true, 0, "", fields, Num(n));
    MinimumKeyword(w, fields, n);
  }

  lemma MinimumKeyword(w: World, fields: Fields, n: int)
    requires MinimumStandard(w) && n >= 0 && Get(fields, "minimum") == Some(Num(0))
    ensures Keyword(w, true, 0, "", fields, "minimum", Num(n))
  {
    hide Judgement, SiblingsOf, Applies, Get;
    assert KindOf("minimum") == Assertion;
    AssertionApplies(Judgement(w, 0, "", 1 + SizeFields(fields)), w, "minimum", Num(0), SiblingsOf(fields), Num(n));
  }

  lemma AssertionApplies(judge: Verdict, w: World, k: string, a: Json, s: Siblings, x: Json)
    requires w.assertion(k, a, x)
    ensures Applies(judge, w, true, Assertion, k, a, s, x)
  {
  }

  /** A typed value as the contract shapes it: a kind, a value, and nothing else. */
  predicate TypedShape(fields: Fields) {
    Keys(fields) == {"kind", "value"}
  }

  /** A schema of the form that `TypedValueSchema` builds. */
  ghost predicate TypedForm(m: Fields, kind: string, valueSchema: Json) {
    && Keys(m) == {"type", "additionalProperties", "required", "properties"}
    && Get(m, "type") == Some(Str("object")) && Get(m, "additionalProperties") == Some(Bool(false))
    && Get(m, "required") == Some(Arr([Str("kind"), Str("value")]))
    && At(m, "properties").Obj?
    && TwoProperties(Props(m), kind, valueSchema)
  }

  ghost predicate TwoProperties(props: Fields, kind: string, valueSchema: Json) {
    && Keys(props) == {"kind", "value"}
    && At(props, "kind") == OneOfValues([Str(kind)]) && At(props, "value") == valueSchema
  }

  lemma TypedMembers(kind: string, valueSchema: Json)
    ensures TypedForm(TypedValueSchema(kind, valueSchema).fields, kind, valueSchema)
  {
    hide OneOfValues, Get, Keys;
    var m := TypedValueSchema(kind, valueSchema).fields;
    var props := [Field("kind", OneOfValues([Str(kind)])), Field("value", valueSchema)];
    TwoMembers(props[0], props[1]);
    TwoMembers(m[2], m[3]);
    TwoMore(m[0], m[1], [m[2], m[3]]);
    assert m == [m[0], m[1]] + [m[2], m[3]];
    assert Props(m) == props;
  }

  lemma TypedAdmits(w: World, kind: string, valueSchema: Json, v: Fields)
    requires TypedShape(v) && At(v, "kind") == Str(kind) && Admits(w, valueSchema, At(v, "value"))
    ensures Admits(w, TypedValueSchema(kind, valueSchema), Obj(v))
  {
    hide Judge, Keyword, TypedValueSchema, OneOfValues, Get, Keys, TwoProperties, PropertyNames;
    var m := TypedValueSchema(kind, valueSchema).fields;
    TypedMembers(kind, valueSchema);
    TypeKeyword(w, true, 0, "", m, Obj(v));
    RequiredKeyword(w, m, v);
    TypedProperties(w, m, kind, valueSchema, v);
    AllKeywords(w, m, {"type", "additionalProperties", "required", "properties"}, Obj(v));
  }

  lemma TypedProperties(w: World, m: Fields, kind: string, valueSchema: Json, v: Fields)
    requires "properties" in Keys(m) && At(m, "properties").Obj? && TwoProperties(Props(m), kind, valueSchema)
    requires Get(m, "additionalProperties") == Some(Bool(false))
    requires TypedShape(v) && At(v, "kind") == Str(kind) && Admits(w, valueSchema, At(v, "value"))
    ensures Keyword(w, true, 0, "", m, "properties", Obj(v))
    ensures Keyword(w, true, 0, "", m, "additionalProperties", Obj(v))
  {
    hide Judge, Keyword, OneOfValues, Get, Keys, Props, PropertyNames;
    EnumAdmits(w, [Str(kind)], Str(kind));
    PropertiesAdmit(w, m, Obj(v));
    ClosedKeyword(w, m, v);
  }

  lemma AllKeywords(w: World, m: Fields, keys: set<string>, v: Json)
    requires Keys(m) == keys && forall k | k in keys :: Keyword(w, true, 0, "", m, k, v)
    ensures Admits(w, Obj(m), v)
  {
    hide Keyword;
  }

  /** Without further properties allowed, every property of the value is a named one. */
  lemma ClosedKeyword(w: World, m: Fields, v: Fields)
    requires Get(m, "additionalProperties") == Some(Bool(false)) && Keys(v) <= Keys(Props(m))
    requires "properties" in Keys(m) && At(m, "properties").Obj?
    ensures Keyword(w, true, 0, "", m, "additionalProperties", Obj(v))
  {
    hide Judge, KindOf;
    KeyKinds();
    assert PropertyNames(m) == Keys(Props(m));
  }

  lemma RequiredKeyword(w: World, m: Fields, v: Fields)
    requires Get(m, "required") == Some(Arr([Str("kind"), Str("value")])) && {"kind", "value"} <= Keys(v)
    ensures Keyword(w, true, 0, "", m, "required", Obj(v))
  {
    hide Judgement, KindOf, SiblingsOf;
    KeyKinds();
  }

  ghost predicate BranchForm(m: Fields, path: string, kind: string, expectedOldValue: Json, typedValue: Json) {
    && Keys(m) == {"type", "properties"} && Get(m, "type") == Some(Str("object"))
    && At(m, "properties").Obj?
    && FiveProperties(Props(m), path, kind, expectedOldValue, typedValue)
  }

  ghost predicate FiveProperties(props: Fields, path: string, kind: string, expectedOldValue: Json, typedValue: Json) {
    && Keys(props) == {"field_path", "kind", "expected_old_value", "typed_value", "unit"}
    && At(props, "field_path") == OneOfValues([Str(path)]) && At(props, "kind") == OneOfValues([Str(kind)])
    && At(props, "expected_old_value") == expectedOldValue && At(props, "typed_value") == typedValue
    && At(props, "unit") == NULL_TYPE
  }

  lemma BranchMembers(path: string, kind: string, expectedOldValue: Json, typedValue: Json)
    ensures BranchForm(Branch(path, kind, expectedOldValue, typedValue).fields, path, kind, expectedOldValue, typedValue)
  {
    hide OneOfValues, Get, Keys;
    var m := Branch(path, kind, expectedOldValue, typedValue).fields;
    TwoMembers(m[0], m[1]);
    var props := m[1].value.fields;
    assert Props(m) == props;
    FiveMembers(props[0], props[1], props[2], props[3], props[4]);
    assert props == [props[0], props[1], props[2], props[3], props[4]];
  }

  lemma FiveMembers(a: Field, b: Field, c: Field, d: Field, e: Field)
    requires a.key !in {b.key, c.key, d.key, e.key} && b.key !in {c.key, d.key, e.key}
    requires c.key !in {d.key, e.key} && d.key != e.key
    ensures var s := [a, b, c, d, e];
      && Keys(s) == {a.key, b.key, c.key, d.key, e.key}
      && Get(s, a.key) == Some(a.value) && Get(s, b.key) == Some(b.value) && Get(s, c.key) == Some(c.value)
      && Get(s, d.key) == Some(d.value) && Get(s, e.key) == Some(e.value)
  {
    hide Get, Keys;
    NoMembers();
    Prepended(e, []);
    assert [e] + [] == [e];
    TwoMore(c, d, [e]);
    TwoMore(a, b, [c, d] + [e]);
    assert [a, b, c, d, e] == [a, b] + ([c, d] + [e]);
  }

  /** An operation that matches a branch member by member, and has no unit, is accepted by it. */
  lemma BranchAdmits(w: World, path: string, kind: string, expectedOldValue: Json, typedValue: Json, op: Fields)
    requires Get(op, "field_path") == Some(Str(path)) && Get(op, "kind") == Some(Str(kind))
    requires {"expected_old_value", "typed_value"} <= Keys(op) && Member(op, "unit") == Null
    requires Admits(w, expectedOldValue, At(op, "expected_old_value")) && Admits(w, typedValue, At(op, "typed_value"))
    ensures Admits(w, Branch(path, kind, expectedOldValue, typedValue), Obj(op))
  {
    hide Judge, Keyword, Branch, OneOfValues, Get, Keys, FiveProperties;
    var m := Branch(path, kind, expectedOldValue, typedValue).fields;
    BranchMembers(path, kind, expectedOldValue, typedValue);
    TypeKeyword(w, true, 0, "", m, Obj(op));
    BranchProperties(w, m, path, kind, expectedOldValue, typedValue, op);
    AllKeywords(w, m, {"type", "properties"}, Obj(op));
  }

  lemma BranchProperties(
    w: World, m: Fields, path: string, kind: string, expectedOldValue: Json, typedValue: Json, op: Fields)
    requires "properties" in Keys(m) && At(m, "properties").Obj?
    requires FiveProperties(Props(m), path, kind, expectedOldValue, typedValue)
    requires Get(op, "field_path") == Some(Str(path)) && Get(op, "kind") == Some(Str(kind))
    requires {"expected_old_value", "typed_value"} <= Keys(op) && Member(op, "unit") == Null
    requires Admits(w, expectedOldValue, At(op, "expected_old_value")) && Admits(w, typedValue, At(op, "typed_value"))
    ensures Keyword(w, true, 0, "", m, "properties", Obj(op))
  {
    hide Judge, Keyword, OneOfValues, Get, Keys, Props;
    EnumAdmits(w, [Str(path)], Str(path));
    EnumAdmits(w, [Str(kind)], Str(kind));
    OnlyTypeAdmits(w, "null", Null);
    PropertiesAdmit(w, m, Obj(op));
  }

  lemma BranchWantsNoUnit(w: World, path: string, kind: string, expectedOldValue: Json, typedValue: Json, op: Fields)
    requires Admits(w, Branch(path, kind, expectedOldValue, typedValue), Obj(op))
    ensures Member(op, "unit") == Null
  {
    hide Judge, Branch, OneOfValues, Get, Keys;
    BranchMembers(path, kind, expectedOldValue, typedValue);
    if "unit" in Keys(op) {
      PropertyAdmits(w, Branch(path, kind, expectedOldValue, typedValue).fields, "unit", Obj(op));
      OnlyTypeAdmits(w, "null", At(op, "unit"));
    }
  }

  // ---- What the validator accepts, the schema accepts ----

  /** An operation as the contract shapes it. */
  ghost predicate OperationShape(op: Fields) {
    && UniqueKeys(Obj(op))
    && Get(op, "field_path").Some? && Get(op, "kind").Some?
    && {"expected_old_value", "typed_value"} <= Keys(op)
    && At(op, "expected_old_value").Obj? && TypedShape(At(op, "expected_old_value").fields)
    && At(op, "typed_value").Obj? && TypedShape(At(op, "typed_value").fields)
  }

  /** The expected value names the state value, and the typed value is of the kind. */
  lemma TypedSame(p: Platform, a: Fields, v: Json)
    requires UniqueKeys(Obj(a)) && TypedShape(a) && UniqueKeys(v)
    requires p.SameKey(a, TypedValue(v))
    ensures v.Null? || v.Str? || v.Num?
    ensures At(a, "value") == v
    ensures At(a, "kind") == Str(match v case Null => "NULL" case Str(_) => "STRING" case _ => "INTEGER")
  {
    hide Ordered, Keys, Get;
    TypedValueUnique(v);
    SameTextSameValue(p.upTo, Obj(a), Obj(TypedValue(v)));
    SameMembersOf(a, TypedValue(v));
    if v.Null? || v.Str? || v.Num? {
      var t := TypedValue(v);
      TwoMembers(t[0], t[1]);
      assert t == [t[0], t[1]];
    } else {
      NoMembers();
      assert false;
    }
  }

  lemma SameMembersOf(a: Fields, b: Fields)
    requires Same(Obj(a), Obj(b))
    ensures Keys(a) == Keys(b) && forall k | k in Keys(a) :: Same(At(a, k), At(b, k))
  {
  }

  lemma TypedValueUnique(v: Json)
    ensures UniqueKeys(Obj(TypedValue(v)))
  {
    var t := TypedValue(v);
    if t != [] {
      assert t[1..] == [t[1]];
      assert Keys([t[1]]) == {"value"};
    }
  }

  lemma ExactAdmits(w: World, v: Json, a: Fields)
    requires TypedShape(a) && ExactTypedValue(v).Some? && At(a, "value") == v
    requires At(a, "kind") == Str(match v case Null => "NULL" case Str(_) => "STRING" case _ => "INTEGER")
    ensures Admits(w, ExactTypedValue(v).value, Obj(a))
  {
    hide Judge, TypedValueSchema, OneOfValues, Keys, Get;
    OnlyTypeAdmits(w, "null", Null);
    EnumAdmits(w, [v], v);
    match v
    case Null => TypedAdmits(w, "NULL", NULL_TYPE, a);
    case Str(_) => TypedAdmits(w, "STRING", OneOfValues([v]), a);
    case _ => TypedAdmits(w, "INTEGER", OneOfValues([v]), a);
  }

  /** Some branch of the field accepts the operation. */
  ghost predicate Fits(w: World, branches: seq<Json>, op: Fields) {
    exists b | b in branches :: Admits(w, b, Obj(op))
  }

  lemma AddFits(p: Platform, w: World, path: string, op: Fields) returns (b: Json)
    requires OperationShape(op) && Get(op, "field_path") == Some(Str(path)) && Member(op, "unit") == Null
    requires At(op, "kind") == Str("ADD") && p.SameKey(At(op, "expected_old_value").fields, TypedValue(Null))
    requires At(At(op, "typed_value").fields, "kind") == Str("STRING") && At(At(op, "typed_value").fields, "value").Str?
    ensures b == Branch(path, "ADD", TypedValueSchema("NULL", NULL_TYPE), TypedValueSchema("STRING", TEXT_TYPE))
    ensures Admits(w, b, Obj(op))
  {
    hide Judge, TypedValueSchema, Branch, OneOfValues, Keys, Get, TypedValue;
    var (expected, typed) := (At(op, "expected_old_value").fields, At(op, "typed_value").fields);
    UniqueMember(op, "expected_old_value");
    TypedSame(p, expected, Null);
    ExactAdmits(w, Null, expected);
    OnlyTypeAdmits(w, "string", At(typed, "value"));
    TypedAdmits(w, "STRING", TEXT_TYPE, typed);
    b := Branch(path, "ADD", TypedValueSchema("NULL", NULL_TYPE), TypedValueSchema("STRING", TEXT_TYPE));
    BranchAdmits(w, path, "ADD", TypedValueSchema("NULL", NULL_TYPE), TypedValueSchema("STRING", TEXT_TYPE), op);
  }

  lemma RemoveFits(p: Platform, w: World, path: string, items: seq<Json>, op: Fields) returns (b: Json)
    requires OperationShape(op) && Get(op, "field_path") == Some(Str(path)) && Member(op, "unit") == Null
    requires At(op, "kind") == Str("REMOVE")
    requires p.SameKey(At(op, "expected_old_value").fields, At(op, "typed_value").fields)
    requires At(At(op, "typed_value").fields, "kind") == Str("STRING")
    requires At(At(op, "typed_value").fields, "value").Str? && At(At(op, "typed_value").fields, "value") in items
    ensures var removable := TypedValueSchema("STRING", OneOfValues(Unique(items)));
      b == Branch(path, "REMOVE", removable, removable)
    ensures Admits(w, b, Obj(op))
  {
    hide Judge, TypedValueSchema, Branch, OneOfValues, Keys, Get, Unique;
    var (expected, typed) := (At(op, "expected_old_value").fields, At(op, "typed_value").fields);
    var removable := TypedValueSchema("STRING", OneOfValues(Unique(items)));
    UniqueMember(op, "expected_old_value");
    UniqueMember(op, "typed_value");
    EnumAdmits(w, Unique(items), At(typed, "value"));
    TypedAdmits(w, "STRING", OneOfValues(Unique(items)), typed);
    SameTextSameValue(p.upTo, Obj(expected), Obj(typed));
    SameMembersOf(expected, typed);
    assert At(expected, "kind") == Str("STRING") && At(expected, "value") == At(typed, "value");
    TypedAdmits(w, "STRING", OneOfValues(Unique(items)), expected);
    b := Branch(path, "REMOVE", removable, removable);
    BranchAdmits(w, path, "REMOVE", removable, removable, op);
  }

  lemma CollectionFits(p: Platform, w: World, founder: Fields, path: string, op: Fields, branches: seq<Json>)
    requires path in COLLECTION_FIELDS && FieldBranches(founder, path) == Some(branches) && OperationShape(op)
    requires Get(op, "field_path") == Some(Str(path)) && Member(op, "unit") == Null
    requires CollectionAccepted(
      p, At(op, "kind"), At(op, "expected_old_value").fields, At(op, "typed_value").fields, At(founder, FieldName(path)))
    ensures Fits(w, branches, op)
  {
    hide Judge, TypedValueSchema, Branch, OneOfValues, Keys, Get, FieldName, TextsOf, Unique, TypedValue, SameJson;
    var current := At(founder, FieldName(path));
    if At(op, "kind") == Str("ADD") {
      var b := AddFits(p, w, path, op);
      assert b == branches[0];
    } else {
      var b := RemoveFits(p, w, path, current.items, op);
      assert b == branches[1];
    }
  }

  lemma UnsetFits(p: Platform, w: World, path: string, exact: Json, op: Fields) returns (b: Json)
    requires OperationShape(op) && Get(op, "field_path") == Some(Str(path)) && Member(op, "unit") == Null
    requires At(op, "kind") == Str("UNSET") && Admits(w, exact, At(op, "expected_old_value"))
    requires p.SameKey(At(op, "typed_value").fields, TypedValue(Null))
    ensures b == Branch(path, "UNSET", exact, TypedValueSchema("NULL", NULL_TYPE)) && Admits(w, b, Obj(op))
  {
    hide Judge, TypedValueSchema, Branch, OneOfValues, Keys, Get, TypedValue;
    var typed := At(op, "typed_value").fields;
    UniqueMember(op, "typed_value");
    TypedSame(p, typed, Null);
    OnlyTypeAdmits(w, "null", Null);
    TypedAdmits(w, "NULL", NULL_TYPE, typed);
    b := Branch(path, "UNSET", exact, TypedValueSchema("NULL", NULL_TYPE));
    BranchAdmits(w, path, "UNSET", exact, TypedValueSchema("NULL", NULL_TYPE), op);
  }

  lemma SetFits(p: Platform, w: World, path: string, exact: Json, op: Fields) returns (b: Json)
    requires OperationShape(op) && Get(op, "field_path") == Some(Str(path)) && Member(op, "unit") == Null
    requires At(op, "kind") == Str("SET") && Admits(w, exact, At(op, "expected_old_value"))
    requires ScalarValueValid(p, path, At(op, "typed_value").fields) && MinimumStandard(w)
    ensures b == Branch(path, "SET", exact, ValueSchema(path)) && Admits(w, b, Obj(op))
  {
    hide Judge, Branch, Keys, Get, ValueSchema, ScalarValueValid, MinimumStandard;
    ValueAdmits(p, w, path, At(op, "typed_value").fields);
    b := Branch(path, "SET", exact, ValueSchema(path));
    BranchAdmits(w, path, "SET", exact, ValueSchema(path), op);
  }

  lemma ScalarFits(p: Platform, w: World, founder: Fields, path: string, op: Fields, branches: seq<Json>)
    requires path !in COLLECTION_FIELDS && FieldBranches(founder, path) == Some(branches) && OperationShape(op)
    requires UniqueKeys(At(founder, FieldName(path))) && MinimumStandard(w)
    requires Get(op, "field_path") == Some(Str(path)) && Member(op, "unit") == Null
    requires ScalarAccepted(
      p, path, At(op, "kind"), At(op, "expected_old_value").fields, At(op, "typed_value").fields, At(founder, FieldName(path)))
    ensures Fits(w, branches, op)
  {
    hide Judge, TypedValueSchema, Branch, OneOfValues, Keys, Get, FieldName, ExactTypedValue, EnumValues, TypedValue, SameJson;
    hide ScalarValueValid, MinimumStandard;
    var expected, current := At(op, "expected_old_value").fields, At(founder, FieldName(path));
    var exact := ExactTypedValue(current).value;
    UniqueMember(op, "expected_old_value");
    TypedSame(p, expected, current);
    ExactAdmits(w, current, expected);
    if At(op, "kind") == Str("UNSET") {
      var b := UnsetFits(p, w, path, exact, op);
      assert b == branches[1];
    } else {
      var b := SetFits(p, w, path, exact, op);
      assert b == branches[0];
    }
  }

  /** The schema of the new value of a scalar field. */
  function ValueSchema(path: string): Json {
    if path == OWN_FUNDS || path == MAX_LOSS then TypedValueSchema("INTEGER", AMOUNT_TYPE)
    else
      var allowed := EnumValues(path);
      TypedValueSchema("STRING", if allowed.Some? then OneOfValues(Texts(allowed.value)) else TEXT_TYPE)
  }

  lemma ValueAdmits(p: Platform, w: World, path: string, typed: Fields)
    requires TypedShape(typed) && ScalarValueValid(p, path, typed) && MinimumStandard(w)
    ensures Admits(w, ValueSchema(path), Obj(typed))
  {
    hide Judge, TypedValueSchema, OneOfValues, Keys, Get, EnumValues;
    var value := At(typed, "value");
    if path == OWN_FUNDS || path == MAX_LOSS {
      AmountAdmits(w, value.n);
      TypedAdmits(w, "INTEGER", AMOUNT_TYPE, typed);
    } else if EnumValues(path).Some? {
      var allowed := EnumValues(path).value;
      var i :| 0 <= i < |allowed| && allowed[i] == value.s;
      assert Texts(allowed)[i] == value;
      EnumAdmits(w, Texts(allowed), value);
      TypedAdmits(w, "STRING", OneOfValues(Texts(allowed)), typed);
    } else {
      OnlyTypeAdmits(w, "string", value);
      TypedAdmits(w, "STRING", TEXT_TYPE, typed);
    }
  }

  lemma AnyBranchWantsNoUnit(w: World, founder: Fields, path: string, b: Json, op: Fields)
    requires FieldBranches(founder, path).Some? && b in FieldBranches(founder, path).value
    requires Admits(w, b, Obj(op))
    ensures Member(op, "unit") == Null
  {
    hide Judge, TypedValueSchema, Branch, OneOfValues, Keys, Get, FieldName, EnumValues, Member, Unique;
    var kind, expected, typed := SomeBranch(founder, path, b);
    BranchWantsNoUnit(w, path, kind, expected, typed, op);
  }

  lemma SomeBranch(founder: Fields, path: string, b: Json) returns (kind: string, expected: Json, typed: Json)
    requires FieldBranches(founder, path).Some? && b in FieldBranches(founder, path).value
    ensures b == Branch(path, kind, expected, typed)
  {
    hide TypedValueSchema, Branch, OneOfValues, Keys, Get, FieldName, EnumValues, Unique;
    if k, e, t :| b == Branch(path, k, e, t) {
      kind, expected, typed := k, e, t;
    }
  }

  /** What the validator accepts fits a branch of the generated schema exactly when it names no unit,
      which the contract allows, the schema forbids, and the validator does not look at. */
  lemma AcceptedFitsExactly(
    p: Platform, w: World, founder: Fields, paths: seq<string>, branches: seq<Json>, op: Fields, path: string, input: string)
    requires Branches(founder, paths) == Some(branches) && path in paths && FieldName(path) in Keys(founder)
    requires OperationShape(op) && UniqueKeys(Obj(founder)) && MinimumStandard(w)
    requires Get(op, "field_path") == Some(Str(path)) && Accepted(p, op, path, founder, input)
    ensures Fits(w, branches, op) <==> Member(op, "unit") == Null
  {
    hide Judge, Keys, Get, FieldName, FieldBranches, CollectionAccepted, ScalarAccepted, TypedShape;
    BranchListed(founder, paths, path);
    var own := FieldBranches(founder, path).value;
    if Member(op, "unit") == Null {
      UniqueMember(founder, FieldName(path));
      if path in COLLECTION_FIELDS {
        CollectionFits(p, w, founder, path, op, own);
      } else {
        ScalarFits(p, w, founder, path, op, own);
      }
      var b :| b in own && Admits(w, b, Obj(op));
      assert b in branches;
    }
    if Fits(w, branches, op) {
      var b :| b in branches && Admits(w, b, Obj(op));
      var from := BranchFrom(founder, paths, b);
      AnyBranchWantsNoUnit(w, founder, from, b, op);
    }
  }

  /** What the validator accepts follows the rule advertised for its field, and its source span keeps the
      bounds set in the schema. */
  lemma AcceptedFollowsRule(
    p: Platform, founder: Fields, paths: seq<string>, op: Fields, path: string, input: string)
    requires Branches(founder, paths).Some? && path in paths && FieldName(path) in Keys(founder)
    requires OperationShape(op) && UniqueKeys(Obj(founder)) && Accepted(p, op, path, founder, input)
    ensures RuleFor(founder, path).Some?
    ensures var rule := RuleFor(founder, path).value;
      && At(op, "kind").Str? && At(op, "kind").s in rule.kinds
      && At(At(op, "typed_value").fields, "kind").Str? && At(At(op, "typed_value").fields, "kind").s in rule.typedKinds
    ensures var span := Members(Member(op, "source_span"));
      && 0 <= Member(span, "start").n <= |input| - 1
      && 1 <= Member(span, "end").n <= |input|
  {
    hide Keys, Get, FieldName, Ordered, EnumValues, TextsOf;
    BranchListed(founder, paths, path);
    var typed := At(op, "typed_value").fields;
    UniqueMember(op, "typed_value");
    if path !in COLLECTION_FIELDS && At(op, "kind") == Str("UNSET") {
      TypedSame(p, typed, Null);
    }
  }
}
