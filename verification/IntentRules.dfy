/** What the validator, the branches and the schema that is sent ask of an intent operation, in terms of the operation and
    the state alone.
  */
module IntentRules {
  import opened Json
  import opened JsonSchema
  import opened Positions
  import opened CollatedJson
  import opened ReferenceCollectors
  import opened Sorting
  import opened VertexResponseSchema
  import opened ProjectionSoundness
  import opened ProjectionMerge
  import opened ProjectionTheorem
  import opened ProjectionExact
  import opened IntentGates
  import opened IntentSchema

  // ---- The validator's rule ----

  predicate Collection(path: string) {
    path == "/founder/preferences" || path == "/founder/avoidances"
  }

  predicate Money(path: string) {
    path == "/founder/own_funds_krw" || path == "/founder/max_loss_krw"
  }

  /** The values that some fields are limited to. */
  predicate Choice(path: string, text: string) {
    match path
    case "/founder/borrowing_intent" => text in {"YES", "NO", "UNDECIDED"}
    case "/founder/cafe_type_preference" => text in {"OPEN_TO_BOTH", "INDEPENDENT_ONLY", "FRANCHISE_ONLY"}
    case "/founder/operation_mode" => text in {"DIRECT_FULL_TIME", "DIRECT_PART_TIME", "EMPLOYEE_LED", "UNDECIDED"}
    case _ => true
  }

  /** A member that is an object, or the object without members. */
  function Object(op: Fields, k: string): Json {
    match Get(op, k)
    case Some(Obj(fields)) => Obj(fields)
    case _ => Obj([])
  }

  /** The state value as an operation writes it; a list and a boolean are written as nothing. */
  function Written(v: Json): Json {
    match v
    case Null => Obj([Field("kind", Str("NULL")), Field("value", Null)])
    case Str(_) => Obj([Field("kind", Str("STRING")), Field("value", v)])
    case Num(_) => Obj([Field("kind", Str("INTEGER")), Field("value", v)])
    case _ => Obj([])
  }

  predicate Alike(p: Platform, a: Json, b: Json) {
    SameJson(p.upTo, Some(a), Some(b))
  }

  predicate Visible(p: Platform, s: string) {
    exists i | 0 <= i < |s| :: !p.space(s[i])
  }

  predicate SpanRule(op: Fields, length: nat) {
    match (In(Object(op, "source_span"), "start"), In(Object(op, "source_span"), "end"))
    case (Some(Num(start)), Some(Num(end))) => start >= 0 && start + 1 <= end && end <= length
    case _ => false
  }

  function TextItemsOf(v: Json): nat {
    if v.Arr? then CountTexts(v.items) else 0
  }

  function CountTexts(items: seq<Json>): nat {
    if items == [] then 0 else (if items[0].Str? then 1 else 0) + CountTexts(items[1..])
  }

  predicate CollectionRule(p: Platform, op: Fields, current: Json) {
    var (expected, typed) := (Object(op, "expected_old_value"), Object(op, "typed_value"));
    && In(typed, "kind") == Some(Str("STRING"))
    && match In(typed, "value")
       case Some(Str(item)) =>
         && Visible(p, item) && |item| <= 64
         && (if Get(op, "kind") == Some(Str("ADD")) then
               Alike(p, expected, Written(Null)) && !Lists(Some(current), item) && TextItemsOf(current) <= 7
             else
               Get(op, "kind") == Some(Str("REMOVE")) && Alike(p, expected, typed) && Lists(Some(current), item))
       case _ => false
  }

  predicate NewValueRule(p: Platform, path: string, typed: Json) {
    match In(typed, "value")
    case Some(Num(n)) => Money(path) && In(typed, "kind") == Some(Str("INTEGER")) && n >= 0
    case Some(Str(s)) =>
      && !Money(path) && In(typed, "kind") == Some(Str("STRING")) && Visible(p, s) && Choice(path, s)
      && (path == "/founder/target_area_input" ==> |s| <= 256)
    case _ => false
  }

  predicate ScalarRule(p: Platform, op: Fields, path: string, current: Json) {
    var (expected, typed) := (Object(op, "expected_old_value"), Object(op, "typed_value"));
    && Alike(p, expected, Written(current))
    && (if path == "/founder/max_loss_krw" && Get(op, "kind") == Some(Str("UNSET")) then
          Alike(p, typed, Written(Null)) && current != Null
        else
          && Get(op, "kind") == Some(Str("SET")) && NewValueRule(p, path, typed)
          && !Alike(p, typed, Written(current)))
  }

  predicate OperationRule(p: Platform, op: Fields, path: string, current: Json, length: nat) {
    SpanRule(op, length) && if Collection(path) then CollectionRule(p, op, current) else ScalarRule(p, op, path, current)
  }

  lemma ObjectMembers(op: Fields, k: string)
    ensures Object(op, k) == Obj(Members(Member(op, k)))
  {
    hide Get;
  }

  lemma InMember(fields: Fields, k: string)
    ensures Member(fields, k) == match In(Obj(fields), k) case Some(v) => v case None => Null
    ensures In(Obj(fields), k) == Get(fields, k)
  {
    hide Get;
  }

  lemma SpanExactly(op: Fields, input: string)
    ensures SpanValid(Members(Member(op, "source_span")), input) <==> SpanRule(op, |input|)
  {
    hide Get, In, Member, Members;
    var span := Members(Member(op, "source_span"));
    ObjectMembers(op, "source_span");
    InMember(span, "start");
    InMember(span, "end");
  }

  lemma {:induction false} TextsCounted(items: seq<Json>)
    ensures |TextsOf(items)| == CountTexts(items)
  {
    if items != [] {
      CountLast(items[..|items| - 1], items[|items| - 1]);
      assert items == items[..|items| - 1] + [items[|items| - 1]];
      TextsCounted(items[..|items| - 1]);
    }
  }

  lemma {:induction false} CountLast(items: seq<Json>, last: Json)
    ensures CountTexts(items + [last]) == CountTexts(items) + if last.Str? then 1 else 0
  {
    if items != [] {
      assert (items + [last])[1..] == items[1..] + [last];
      CountLast(items[1..], last);
    } else {
      assert [] + [last] == [last];
    }
  }

  lemma ListedTexts(current: Json, item: string)
    ensures item in TextList(current) <==> Lists(Some(current), item)
    ensures |TextList(current)| == TextItemsOf(current)
  {
    hide TextsOf, CountTexts;
    TextsCounted(Elements(current));
    assert CountTexts([]) == 0 by { NoTexts(); }
  }

  lemma NoTexts()
    ensures CountTexts([]) == 0
  {
  }

  lemma VisibleExactly(p: Platform, s: string)
    ensures Visible(p, s) <==> !p.Blank(s)
  {
  }

  lemma WrittenIs(v: Json)
    ensures Written(v) == Obj(TypedValue(v))
  {
  }

  lemma CollectionExactly(p: Platform, op: Fields, current: Json)
    ensures
      CollectionAccepted(
        p, Member(op, "kind"), Members(Member(op, "expected_old_value")), Members(Member(op, "typed_value")), current)
      <==> CollectionRule(p, op, current)
  {
    hide Get, In, Member, Members, Lists, TextsOf, CountTexts, SameJson, TypedValue, Written, Visible, Platform.Blank;
    var (expected, typed) := (Members(Member(op, "expected_old_value")), Members(Member(op, "typed_value")));
    ObjectMembers(op, "expected_old_value");
    ObjectMembers(op, "typed_value");
    InMember(typed, "kind");
    InMember(typed, "value");
    InMember(op, "kind");
    WrittenIs(Null);
    var value := Member(typed, "value");
    if value.Str? {
      VisibleExactly(p, value.s);
      ListedTexts(current, value.s);
    }
  }

  lemma ChoiceExactly(path: string, text: string)
    ensures (EnumValues(path).Some? ==> text in EnumValues(path).value) <==> Choice(path, text)
  {
  }

  lemma NewValueExactly(p: Platform, path: string, typed: Fields)
    ensures ScalarValueValid(p, path, typed) <==> NewValueRule(p, path, Obj(typed))
  {
    hide Get, In, Member, EnumValues, Choice, Visible, Platform.Blank;
    InMember(typed, "kind");
    InMember(typed, "value");
    var value := Member(typed, "value");
    if value.Str? {
      VisibleExactly(p, value.s);
      ChoiceExactly(path, value.s);
    }
  }

  lemma ScalarExactly(p: Platform, op: Fields, path: string, current: Json)
    ensures
      ScalarAccepted(
        p, path, Member(op, "kind"), Members(Member(op, "expected_old_value")), Members(Member(op, "typed_value")), current)
      <==> ScalarRule(p, op, path, current)
  {
    hide Get, In, Member, Members, SameJson, TypedValue, Written, ScalarValueValid, NewValueRule;
    ObjectMembers(op, "expected_old_value");
    ObjectMembers(op, "typed_value");
    InMember(op, "kind");
    WrittenIs(Null);
    WrittenIs(current);
    NewValueExactly(p, path, Members(Member(op, "typed_value")));
  }

  /** The validator accepts an operation if and only if it meets the rule. */
  lemma AcceptedExactly(p: Platform, op: Fields, path: string, founder: Fields, input: string)
    requires FieldName(path) in Keys(founder)
    ensures Accepted(p, op, path, founder, input) <==> OperationRule(p, op, path, At(founder, FieldName(path)), |input|)
  {
    hide FieldName, Get, Member, Members, CollectionAccepted, ScalarAccepted, CollectionRule, ScalarRule, SpanRule, SpanValid;
    SpanExactly(op, input);
    CollectionExactly(p, op, At(founder, FieldName(path)));
    ScalarExactly(p, op, path, At(founder, FieldName(path)));
  }

  // ---- The whole result ----

  /** The last segment of the path is not empty, and the state has it. */
  predicate HasField(founder: Fields, path: string) {
    FieldName(path) != "" && FieldName(path) in Keys(founder)
  }

  /** The member is one of the texts. */
  predicate IsOne(v: Json, k: string, texts: seq<string>) {
    exists i | 0 <= i < |texts| :: In(v, k) == Some(Str(texts[i]))
  }

  /** Each operation has an identifier of the pool and a field that may change, and meets the rule if the state has that
      field; no two have the same field. */
  ghost predicate ResultRule(
    p: Platform, ops: seq<Json>, ids: seq<string>, paths: seq<string>, founder: Fields, length: nat) {
    && (forall i | 0 <= i < |ops| :: IsOne(ops[i], "op_id", ids))
    && (forall i | 0 <= i < |ops| :: IsOne(ops[i], "field_path", paths))
    && (forall i, path | 0 <= i < |ops| && In(ops[i], "field_path") == Some(Str(path)) && HasField(founder, path) ::
          OperationRule(p, ops[i].fields, path, At(founder, FieldName(path)), length))
    && (forall i, j | 0 <= i < j < |ops| :: In(ops[i], "field_path") != In(ops[j], "field_path"))
  }

  lemma InMembers(v: Json, k: string, text: string)
    ensures Member(Members(v), k) == Str(text) <==> In(v, k) == Some(Str(text))
    ensures In(v, k) == Some(Str(text)) ==> v.Obj?
  {
    hide Get;
    NoMembers();
  }

  lemma AllowedExactly(p: Platform, v: Json, ids: seq<string>, paths: seq<string>, founder: Fields, input: string)
    ensures OperationAllowed(p, Members(v), ids, paths, founder, input) <==>
      && IsOne(v, "op_id", ids)
      && IsOne(v, "field_path", paths)
      && (forall path | In(v, "field_path") == Some(Str(path)) && HasField(founder, path) ::
            OperationRule(p, v.fields, path, At(founder, FieldName(path)), |input|))
  {
    hide FieldName, Member, Members, In, Accepted, OperationRule;
    var (id, path) := (Member(Members(v), "op_id"), Member(Members(v), "field_path"));
    InText(v, "op_id");
    InText(v, "field_path");
    if path.Str? && HasField(founder, path.s) {
      AcceptedExactly(p, Members(v), path.s, founder, input);
    }
  }

  lemma InText(v: Json, k: string)
    ensures Member(Members(v), k).Str? ==> v.Obj? && Members(v) == v.fields && In(v, k) == Some(Member(Members(v), k))
    ensures In(v, k).Some? && In(v, k).value.Str? ==> Member(Members(v), k) == In(v, k).value
  {
    hide Get;
    NoMembers();
  }

  /** Where every field may change, the fields produced repeat if and only if two operations have the same. */
  lemma {:induction false} ProducedExactly(ops: seq<Json>, paths: seq<string>)
    requires forall i | 0 <= i < |ops| :: IsOne(ops[i], "field_path", paths)
    ensures |Produced(ops, paths)| == |ops|
    ensures forall i | 0 <= i < |ops| :: In(ops[i], "field_path") == Some(Str(Produced(ops, paths)[i]))
  {
    hide In, Member, Members;
    if ops != [] {
      var n := |ops| - 1;
      assert forall i | 0 <= i < n :: ops[..n][i] == ops[i];
      ProducedExactly(ops[..n], paths);
      InText(ops[n], "field_path");
    }
  }

  /** The validator accepts a result if and only if it meets the rule. */
  lemma ResultExactly(
    p: Platform, ops: seq<Json>, ids: seq<string>, paths: seq<string>, founder: Fields, input: string)
    ensures ResultAccepted(p, ops, ids, paths, founder, input) <==> ResultRule(p, ops, ids, paths, founder, |input|)
  {
    hide OperationAllowed, OperationRule, FieldName, In, Members, Produced, HasField;
    forall i | 0 <= i < |ops|
      ensures OperationAllowed(p, Members(ops[i]), ids, paths, founder, input) <==>
                OneRule(p, ops[i], ids, paths, founder, |input|) {
      AllowedExactly(p, ops[i], ids, paths, founder, input);
    }
    if forall i | 0 <= i < |ops| :: IsOne(ops[i], "field_path", paths) {
      ProducedExactly(ops, paths);
    }
    assert forall op | op in ops :: exists i :: 0 <= i < |ops| && ops[i] == op;
  }

  ghost predicate OneRule(p: Platform, v: Json, ids: seq<string>, paths: seq<string>, founder: Fields, length: nat) {
    && IsOne(v, "op_id", ids)
    && IsOne(v, "field_path", paths)
    && (forall path | In(v, "field_path") == Some(Str(path)) && HasField(founder, path) ::
          OperationRule(p, v.fields, path, At(founder, FieldName(path)), length))
  }

  // ---- What the generated schemas accept, exactly ----

  predicate Plain(v: Json) {
    !v.Arr? && !v.Obj?
  }

  lemma EnumExactly(w: World, values: seq<Json>, x: Json)
    requires forall y | y in values :: Plain(y)
    ensures Admits(w, OneOfValues(values), x) <==> x in values
  {
    var m := OneOfValues(values).fields;
    assert Get(m, "enum") == Some(Arr(values)) && Keys(m) == {"enum"};
    hide KindOf, SiblingsOf, Judge, Keyword, Applies, Get, Keys, Plain;
    KeyKinds();
    OneKeyword(w, true, 0, "", m, "enum", x);
    KeywordWhole(w, true, 0, "", m, "enum", x);
    EnumApplies(Whole(w, 0, ""), w, values, SiblingsOf(m), x);
  }

  lemma EnumApplies(judge: Verdict, w: World, values: seq<Json>, siblings: Siblings, x: Json)
    requires forall y | y in values :: Plain(y)
    ensures Applies(judge, w, true, Enum, "enum", Arr(values), siblings, x) <==> x in values
  {
    forall y | y in values ensures Same(y, x) <==> y == x {
      assert Plain(y);
    }
  }

  lemma AmountExactly(w: World, x: Json)
    requires MinimumStandard(w)
    ensures Admits(w, AMOUNT_TYPE, x) <==> x.Num? && x.n >= 0
  {
    var m := AMOUNT_TYPE.fields;
    hide Judge, Keyword, Get, Keys;
    TwoMembers(m[0], m[1]);
    assert m == [m[0], m[1]];
    if Admits(w, AMOUNT_TYPE, x) {
      TypeKept(w, 0, "", m, x);
      MemberAdmits(w, m, "minimum", x);
      MinimumKept(w, m, x);
    }
    if x.Num? && x.n >= 0 {
      AmountAdmits(w, x.n);
    }
  }

  lemma MinimumKept(w: World, m: Fields, x: Json)
    requires MinimumStandard(w) && x.Num? && Get(m, "minimum") == Some(Num(0))
    requires Keyword(w, true, 0, "", m, "minimum", x)
    ensures x.n >= 0
  {
    hide Judgement, SiblingsOf, Applies, Get;
    assert KindOf("minimum") == Assertion;
    AssertionHolds(Judgement(w, 0, "", 1 + SizeFields(m)), w, "minimum", Num(0), SiblingsOf(m), x);
  }

  lemma AssertionHolds(judge: Verdict, w: World, k: string, a: Json, s: Siblings, x: Json)
    requires Applies(judge, w, true, Assertion, k, a, s, x)
    ensures w.assertion(k, a, x)
  {
  }

  lemma TypedExactly(w: World, kind: string, valueSchema: Json, a: Fields)
    requires TypedShape(a)
    ensures Admits(w, TypedValueSchema(kind, valueSchema), Obj(a)) <==>
      At(a, "kind") == Str(kind) && Admits(w, valueSchema, At(a, "value"))
  {
    hide Judge, TypedValueSchema, OneOfValues, Get, Keys;
    TypedMembers(kind, valueSchema);
    var m := TypedValueSchema(kind, valueSchema).fields;
    if Admits(w, TypedValueSchema(kind, valueSchema), Obj(a)) {
      PropertyAdmits(w, m, "kind", Obj(a));
      PropertyAdmits(w, m, "value", Obj(a));
      OneTextAdmits(w, kind, At(a, "kind"));
    }
    if At(a, "kind") == Str(kind) && Admits(w, valueSchema, At(a, "value")) {
      TypedAdmits(w, kind, valueSchema, a);
    }
  }

  lemma BranchExactly(w: World, path: string, kind: string, expected: Json, typed: Json, op: Fields)
    requires OperationShape(op)
    ensures Admits(w, Branch(path, kind, expected, typed), Obj(op)) <==>
      && Get(op, "field_path") == Some(Str(path)) && Get(op, "kind") == Some(Str(kind)) && Member(op, "unit") == Null
      && Admits(w, expected, At(op, "expected_old_value")) && Admits(w, typed, At(op, "typed_value"))
  {
    hide Judge, Branch, OneOfValues, Keys, Get, TypedShape, UniqueKeys;
    var b := Branch(path, kind, expected, typed);
    if Admits(w, b, Obj(op)) {
      BranchMembers(path, kind, expected, typed);
      PropertyAdmits(w, b.fields, "field_path", Obj(op));
      OneTextAdmits(w, path, At(op, "field_path"));
      AcceptingBranch(w, path, kind, expected, typed, op);
      BranchWantsNoUnit(w, path, kind, expected, typed, op);
    } else if && Get(op, "field_path") == Some(Str(path)) && Get(op, "kind") == Some(Str(kind)) && Member(op, "unit") == Null
      && Admits(w, expected, At(op, "expected_old_value")) && Admits(w, typed, At(op, "typed_value")) {
      BranchAdmits(w, path, kind, expected, typed, op);
    }
  }

  // ---- The rule of a field ----

  /** An object with this kind and this value. */
  predicate Is(v: Json, kind: string, value: Json) {
    In(v, "kind") == Some(Str(kind)) && In(v, "value") == Some(value)
  }

  predicate IsText(v: Json) {
    In(v, "kind") == Some(Str("STRING")) && In(v, "value").Some? && In(v, "value").value.Str?
  }

  predicate IsItem(v: Json, current: Json) {
    IsText(v) && Lists(Some(current), In(v, "value").value.s)
  }

  predicate IsNew(path: string, v: Json) {
    if Money(path) then
      In(v, "kind") == Some(Str("INTEGER")) && In(v, "value").Some? && In(v, "value").value.Num? && In(v, "value").value.n >= 0
    else IsText(v) && Choice(path, In(v, "value").value.s)
  }

  /** The value as state holds it. */
  predicate IsCurrent(v: Json, current: Json) {
    match current
    case Null => Is(v, "NULL", Null)
    case Str(_) => Is(v, "STRING", current)
    case Num(_) => Is(v, "INTEGER", current)
    case _ => false
  }

  predicate Unsettable(path: string, current: Json) {
    path == "/founder/max_loss_krw" && current != Null
  }

  /** What some branch of the field accepts. */
  predicate FieldRule(path: string, current: Json, kind: string, expected: Json, typed: Json) {
    if Collection(path) then
      || (kind == "ADD" && Is(expected, "NULL", Null) && IsText(typed))
      || (kind == "REMOVE" && IsItem(expected, current) && IsItem(typed, current))
    else
      && IsCurrent(expected, current)
      && (|| (kind == "SET" && IsNew(path, typed))
          || (kind == "UNSET" && Unsettable(path, current) && Is(typed, "NULL", Null)))
  }

  lemma ShapeIn(v: Json)
    requires v.Obj? && TypedShape(v.fields)
    ensures In(v, "kind") == Some(At(v.fields, "kind")) && In(v, "value") == Some(At(v.fields, "value"))
  {
    hide Get;
  }

  lemma NullExactly(w: World, v: Json)
    requires v.Obj? && TypedShape(v.fields)
    ensures Admits(w, TypedValueSchema("NULL", NULL_TYPE), v) <==> Is(v, "NULL", Null)
  {
    hide Judge, TypedValueSchema, Get, Keys, In;
    ShapeIn(v);
    TypedExactly(w, "NULL", NULL_TYPE, v.fields);
    OnlyTypeAdmits(w, "null", At(v.fields, "value"));
  }

  lemma TextExactly(w: World, v: Json)
    requires v.Obj? && TypedShape(v.fields)
    ensures Admits(w, TypedValueSchema("STRING", TEXT_TYPE), v) <==> IsText(v)
  {
    hide Judge, TypedValueSchema, Get, Keys, In;
    ShapeIn(v);
    TypedExactly(w, "STRING", TEXT_TYPE, v.fields);
    OnlyTypeAdmits(w, "string", At(v.fields, "value"));
  }

  lemma ItemExactly(w: World, items: seq<Json>, v: Json)
    requires v.Obj? && TypedShape(v.fields) && forall x | x in items :: x.Str?
    ensures Admits(w, TypedValueSchema("STRING", OneOfValues(Unique(items))), v) <==> IsItem(v, Arr(items))
  {
    hide Judge, TypedValueSchema, Get, Keys, In, OneOfValues, Unique;
    ShapeIn(v);
    TypedExactly(w, "STRING", OneOfValues(Unique(items)), v.fields);
    EnumExactly(w, Unique(items), At(v.fields, "value"));
    assert At(v.fields, "value") in items ==> At(v.fields, "value").Str?;
  }

  lemma CurrentExactly(w: World, current: Json, v: Json)
    requires v.Obj? && TypedShape(v.fields) && ExactTypedValue(current).Some?
    ensures Admits(w, ExactTypedValue(current).value, v) <==> IsCurrent(v, current)
  {
    hide Judge, TypedValueSchema, Get, Keys, In, OneOfValues;
    ShapeIn(v);
    match current
    case Null => NullExactly(w, v);
    case Str(_) =>
      TypedExactly(w, "STRING", OneOfValues([current]), v.fields);
      EnumExactly(w, [current], At(v.fields, "value"));
    case Num(_) =>
      TypedExactly(w, "INTEGER", OneOfValues([current]), v.fields);
      EnumExactly(w, [current], At(v.fields, "value"));
    case _ =>
  }

  lemma NewExactly(w: World, path: string, v: Json)
    requires v.Obj? && TypedShape(v.fields) && MinimumStandard(w)
    ensures Admits(w, ValueSchema(path), v) <==> IsNew(path, v)
  {
    hide Judge, TypedValueSchema, Get, Keys, In, OneOfValues, EnumValues, Choice, MinimumStandard, Texts;
    ShapeIn(v);
    var value := At(v.fields, "value");
    if Money(path) {
      TypedExactly(w, "INTEGER", AMOUNT_TYPE, v.fields);
      AmountExactly(w, value);
    } else if EnumValues(path).Some? {
      var allowed := EnumValues(path).value;
      TextsAre(allowed);
      TypedExactly(w, "STRING", OneOfValues(Texts(allowed)), v.fields);
      EnumExactly(w, Texts(allowed), value);
      if value.Str? {
        ChoiceExactly(path, value.s);
      }
    } else {
      TextExactly(w, v);
      if value.Str? {
        ChoiceExactly(path, value.s);
      }
    }
  }

  lemma TextsAre(values: seq<string>)
    ensures forall x :: x in Texts(values) <==> x.Str? && x.s in values
  {
    var texts := Texts(values);
    forall x ensures x in texts <==> x.Str? && x.s in values {
      if x in texts {
        var i :| 0 <= i < |texts| && texts[i] == x;
      }
      if x.Str? && x.s in values {
        var i :| 0 <= i < |values| && values[i] == x.s;
        assert texts[i] == x;
      }
    }
  }

  // ---- The branches of a field ----

  /** The branches by their parts. */
  function Add(path: string): Json {
    Branch(path, "ADD", TypedValueSchema("NULL", NULL_TYPE), TypedValueSchema("STRING", TEXT_TYPE))
  }

  function Remove(path: string, items: seq<Json>): Json {
    var removable := TypedValueSchema("STRING", OneOfValues(Unique(items)));
    Branch(path, "REMOVE", removable, removable)
  }

  function Set(path: string, current: Json): Json
    requires ExactTypedValue(current).Some?
  {
    Branch(path, "SET", ExactTypedValue(current).value, ValueSchema(path))
  }

  function Unset(path: string, current: Json): Json
    requires ExactTypedValue(current).Some?
  {
    Branch(path, "UNSET", ExactTypedValue(current).value, TypedValueSchema("NULL", NULL_TYPE))
  }

  lemma FieldShape(founder: Fields, path: string)
    requires FieldBranches(founder, path).Some?
    ensures HasField(founder, path)
    ensures
      var (current, branches) := (At(founder, FieldName(path)), FieldBranches(founder, path).value);
      if Collection(path) then
        && current.Arr? && (forall x | x in current.items :: x.Str?)
        && branches == [Add(path)] + if current.items == [] then [] else [Remove(path, current.items)]
      else
        && ExactTypedValue(current).Some?
        && branches == [Set(path, current)] + if Unsettable(path, current) then [Unset(path, current)] else []
  {
    hide TypedValueSchema, Branch, OneOfValues, FieldName, EnumValues, Texts, Unique, ExactTypedValue;
  }

  /** The code throws where the state does not have the field, or holds something that no operation could change. */
  lemma ThrowsExactly(founder: Fields, path: string)
    ensures FieldBranches(founder, path).None? <==>
      || !HasField(founder, path)
      || (Collection(path) &&
          !(At(founder, FieldName(path)).Arr? && forall x | x in At(founder, FieldName(path)).items :: x.Str?))
      || (!Collection(path) && !(At(founder, FieldName(path)).Null? || At(founder, FieldName(path)).Str?
                                 || At(founder, FieldName(path)).Num?))
  {
    hide TypedValueSchema, Branch, OneOfValues, FieldName, EnumValues, Texts, Unique;
  }

  lemma AddExactly(w: World, path: string, op: Fields)
    requires OperationShape(op)
    ensures Admits(w, Add(path), Obj(op)) <==>
      && Get(op, "field_path") == Some(Str(path)) && Get(op, "kind") == Some(Str("ADD")) && Member(op, "unit") == Null
      && Is(At(op, "expected_old_value"), "NULL", Null) && IsText(At(op, "typed_value"))
  {
    hide Judge, Branch, TypedValueSchema, Get, Keys, Is, IsText, TypedShape;
    BranchExactly(w, path, "ADD", TypedValueSchema("NULL", NULL_TYPE), TypedValueSchema("STRING", TEXT_TYPE), op);
    NullExactly(w, At(op, "expected_old_value"));
    TextExactly(w, At(op, "typed_value"));
  }

  lemma RemoveExactly(w: World, path: string, items: seq<Json>, op: Fields)
    requires OperationShape(op) && forall x | x in items :: x.Str?
    ensures Admits(w, Remove(path, items), Obj(op)) <==>
      && Get(op, "field_path") == Some(Str(path)) && Get(op, "kind") == Some(Str("REMOVE")) && Member(op, "unit") == Null
      && IsItem(At(op, "expected_old_value"), Arr(items)) && IsItem(At(op, "typed_value"), Arr(items))
  {
    hide Judge, Branch, TypedValueSchema, OneOfValues, Get, Keys, IsItem, TypedShape, Unique;
    var removable := TypedValueSchema("STRING", OneOfValues(Unique(items)));
    BranchExactly(w, path, "REMOVE", removable, removable, op);
    ItemExactly(w, items, At(op, "expected_old_value"));
    ItemExactly(w, items, At(op, "typed_value"));
  }

  lemma SetExactly(w: World, path: string, current: Json, op: Fields)
    requires OperationShape(op) && ExactTypedValue(current).Some? && MinimumStandard(w)
    ensures Admits(w, Set(path, current), Obj(op)) <==>
      && Get(op, "field_path") == Some(Str(path)) && Get(op, "kind") == Some(Str("SET")) && Member(op, "unit") == Null
      && IsCurrent(At(op, "expected_old_value"), current) && IsNew(path, At(op, "typed_value"))
  {
    hide Judge, Branch, Get, Keys, IsCurrent, IsNew, TypedShape, ExactTypedValue, ValueSchema, MinimumStandard;
    BranchExactly(w, path, "SET", ExactTypedValue(current).value, ValueSchema(path), op);
    CurrentExactly(w, current, At(op, "expected_old_value"));
    NewExactly(w, path, At(op, "typed_value"));
  }

  lemma UnsetExactly(w: World, path: string, current: Json, op: Fields)
    requires OperationShape(op) && ExactTypedValue(current).Some?
    ensures Admits(w, Unset(path, current), Obj(op)) <==>
      && Get(op, "field_path") == Some(Str(path)) && Get(op, "kind") == Some(Str("UNSET")) && Member(op, "unit") == Null
      && IsCurrent(At(op, "expected_old_value"), current) && Is(At(op, "typed_value"), "NULL", Null)
  {
    hide Judge, Branch, Get, Keys, IsCurrent, Is, TypedShape, ExactTypedValue, TypedValueSchema;
    BranchExactly(w, path, "UNSET", ExactTypedValue(current).value, TypedValueSchema("NULL", NULL_TYPE), op);
    CurrentExactly(w, current, At(op, "expected_old_value"));
    NullExactly(w, At(op, "typed_value"));
  }

  lemma EmptyHasNoItem(v: Json)
    ensures !IsItem(v, Arr([]))
  {
  }

  /** An operation fits a branch of a field if and only if it is about that field, names no unit, and meets the rule. */
  lemma FieldExactly(w: World, founder: Fields, path: string, op: Fields)
    requires FieldBranches(founder, path).Some? && OperationShape(op) && MinimumStandard(w)
    ensures FieldName(path) in Keys(founder)
    ensures Fits(w, FieldBranches(founder, path).value, op) <==>
      && Get(op, "field_path") == Some(Str(path)) && Member(op, "unit") == Null && At(op, "kind").Str?
      && FieldRule(path, At(founder, FieldName(path)), At(op, "kind").s,
                   At(op, "expected_old_value"), At(op, "typed_value"))
  {
    hide Judge, FieldBranches, Add, Remove, Set, Unset, Get, Keys, OperationShape, ExactTypedValue, MinimumStandard, FieldName;
    hide Is, IsText, IsItem, IsCurrent, IsNew, Member;
    FieldShape(founder, path);
    var (current, branches) := (At(founder, FieldName(path)), FieldBranches(founder, path).value);
    KindThere(op);
    if Collection(path) {
      AddExactly(w, path, op);
      RemoveExactly(w, path, current.items, op);
      if current.items == [] {
        EmptyHasNoItem(At(op, "expected_old_value"));
        assert branches == [Add(path)];
      } else {
        assert branches == [Add(path), Remove(path, current.items)];
        assert branches[0] in branches && branches[1] in branches;
      }
    } else {
      SetExactly(w, path, current, op);
      UnsetExactly(w, path, current, op);
      if Unsettable(path, current) {
        assert branches == [Set(path, current), Unset(path, current)];
        assert branches[0] in branches && branches[1] in branches;
      } else {
        assert branches == [Set(path, current)];
      }
    }
  }

  lemma KindThere(op: Fields)
    requires OperationShape(op)
    ensures "kind" in Keys(op) && Get(op, "kind") == Some(At(op, "kind"))
    ensures "expected_old_value" in Keys(op) && "typed_value" in Keys(op)
  {
  }

  /** An operation fits one of all the branches if and only if it meets the rule of the field that it is about. */
  lemma FitsExactly(w: World, founder: Fields, paths: seq<string>, op: Fields, path: string)
    requires Branches(founder, paths).Some? && OperationShape(op) && MinimumStandard(w)
    requires Get(op, "field_path") == Some(Str(path))
    ensures Fits(w, Branches(founder, paths).value, op) <==>
      && path in paths && Member(op, "unit") == Null && At(op, "kind").Str?
      && FieldName(path) in Keys(founder)
      && FieldRule(path, At(founder, FieldName(path)), At(op, "kind").s,
                   At(op, "expected_old_value"), At(op, "typed_value"))
  {
    hide Judge, FieldBranches, Get, Keys, OperationShape, MinimumStandard, FieldName, FieldRule, Member;
    KindThere(op);
    if path in paths {
      BranchListed(founder, paths, path);
      FieldExactly(w, founder, path, op);
    }
    if Fits(w, Branches(founder, paths).value, op) {
      var b :| b in Branches(founder, paths).value && Admits(w, b, Obj(op));
      var from := BranchFrom(founder, paths, b);
      FieldExactly(w, founder, from, op);
      assert Fits(w, FieldBranches(founder, from).value, op);
    }
  }

  // ---- The schema that is sent ----

  predicate KindRule(path: string, current: Json, kind: string) {
    if Collection(path) then kind == "ADD" || (kind == "REMOVE" && current != Arr([]))
    else kind == "SET" || (kind == "UNSET" && Unsettable(path, current))
  }

  predicate ExpectedRule(path: string, current: Json, v: Json) {
    if Collection(path) then Is(v, "NULL", Null) || IsItem(v, current) else IsCurrent(v, current)
  }

  predicate TypedRule(path: string, current: Json, v: Json) {
    if Collection(path) then IsText(v) else IsNew(path, v) || (Unsettable(path, current) && Is(v, "NULL", Null))
  }

  /** The branch says this of the property, and it accepts the value. */
  ghost predicate Says(w: World, b: Json, property: string, v: Json) {
    PropertySchema(b, property).Some? && Admits(w, PropertySchema(b, property).value, v)
  }

  ghost predicate SomeSays(w: World, branches: seq<Json>, property: string, v: Json) {
    exists b | b in branches :: Says(w, b, property, v)
  }

  lemma {:induction false} SchemasSay(w: World, branches: seq<Json>, property: string, v: Json)
    ensures (exists q | q in PropertySchemas(branches, property) :: Admits(w, q, v)) <==> SomeSays(w, branches, property, v)
  {
    hide PropertySchema, Judge;
    if branches != [] {
      var (rest, last) := (branches[..|branches| - 1], branches[|branches| - 1]);
      assert branches == rest + [last];
      SchemasSay(w, rest, property, v);
      if SomeSays(w, branches, property, v) {
        var b :| b in branches && Says(w, b, property, v);
        if b in rest {
          assert SomeSays(w, rest, property, v);
        }
      }
      if SomeSays(w, rest, property, v) {
        var b :| b in rest && Says(w, b, property, v);
        assert b in branches;
      }
      assert last in branches;
      if PropertySchema(last, property).Some? {
        assert PropertySchemas(branches, property) == PropertySchemas(rest, property) + [PropertySchema(last, property).value];
      } else {
        assert PropertySchemas(branches, property) == PropertySchemas(rest, property);
      }
    }
  }

  lemma UnionExactly(w: World, schemas: seq<Json>, v: Json)
    requires CompactUnion(schemas).Some?
    ensures Admits(w, CompactUnion(schemas).value, v) <==> exists q | q in schemas :: Admits(w, q, v)
  {
    hide Judge;
    if |schemas| == 1 {
      assert schemas == [schemas[0]];
    } else {
      AnyOfVerdict(w, true, schemas, v);
      if q :| q in schemas && Admits(w, q, v) {
        var i: nat :| i < |schemas| && schemas[i] == q;
        assert Judge(w, true, 0, "", schemas[i], v);
      }
      if i :| 0 <= i < |schemas| && Judge(w, true, 0, "", schemas[i], v) {
        assert schemas[i] in schemas && Admits(w, schemas[i], v);
      }
    }
  }

  /** The union sent for a property accepts what some branch says of it. */
  lemma UnionSays(w: World, branches: seq<Json>, property: string, v: Json)
    requires CompactUnion(Distinctly(branches, property)).Some?
    ensures Admits(w, CompactUnion(Distinctly(branches, property)).value, v) <==> SomeSays(w, branches, property, v)
  {
    hide Judge, PropertySchemas, SomeSays, Unique;
    SchemasSay(w, branches, property, v);
    UnionExactly(w, Distinctly(branches, property), v);
  }

  lemma PartsSay(path: string, kind: string, expected: Json, typed: Json, w: World, v: Json)
    requires expected.Obj? && typed.Obj?
    ensures var b := Branch(path, kind, expected, typed);
      && (Says(w, b, "expected_old_value", v) <==> Admits(w, expected, v))
      && (Says(w, b, "typed_value", v) <==> Admits(w, typed, v))
      && (Says(w, b, "kind", v) <==> v == Str(kind))
  {
    hide Judge, Branch, OneOfValues;
    BranchSchemas(path, kind, expected, typed);
    EnumExactly(w, [Str(kind)], v);
  }

  lemma ValuesAreObjects(path: string, current: Json)
    ensures ValueSchema(path).Obj? && (ExactTypedValue(current).Some? ==> ExactTypedValue(current).value.Obj?)
  {
    hide TypedValueSchema, EnumValues, Texts, OneOfValues;
  }

  lemma FieldSays(w: World, founder: Fields, path: string, v: Json)
    requires FieldBranches(founder, path).Some? && MinimumStandard(w)
    ensures FieldName(path) in Keys(founder)
    ensures var (current, branches) := (At(founder, FieldName(path)), FieldBranches(founder, path).value);
      && (v.Str? ==> (SomeSays(w, branches, "kind", v) <==> KindRule(path, current, v.s)))
      && (v.Obj? && TypedShape(v.fields) ==>
            && (SomeSays(w, branches, "expected_old_value", v) <==> ExpectedRule(path, current, v))
            && (SomeSays(w, branches, "typed_value", v) <==> TypedRule(path, current, v)))
  {
    hide Judge, FieldBranches, FieldName, Is, IsText, IsItem, IsCurrent, IsNew, TypedShape, MinimumStandard;
    hide Branch, TypedValueSchema, ExactTypedValue, ValueSchema, OneOfValues, Unique, SomeSays;
    FieldShape(founder, path);
    var (current, branches) := (At(founder, FieldName(path)), FieldBranches(founder, path).value);
    ValuesAreObjects(path, current);
    if Collection(path) {
      CollectionSays(w, path, current.items, v);
    } else {
      ScalarSays(w, path, current, v);
    }
  }

  lemma OneSays(w: World, a: Json, property: string, v: Json)
    ensures SomeSays(w, [a], property, v) <==> Says(w, a, property, v)
    ensures forall b :: SomeSays(w, [a] + [b], property, v) <==> Says(w, a, property, v) || Says(w, b, property, v)
  {
    hide Says;
    assert a in [a];
    forall b ensures SomeSays(w, [a] + [b], property, v) <==> Says(w, a, property, v) || Says(w, b, property, v) {
      assert a in [a] + [b] && b in [a] + [b];
    }
  }

  lemma CollectionSays(w: World, path: string, items: seq<Json>, v: Json)
    requires Collection(path) && forall x | x in items :: x.Str?
    ensures var branches := [Add(path)] + if items == [] then [] else [Remove(path, items)];
      && (v.Str? ==> (SomeSays(w, branches, "kind", v) <==> KindRule(path, Arr(items), v.s)))
      && (v.Obj? && TypedShape(v.fields) ==>
            && (SomeSays(w, branches, "expected_old_value", v) <==> ExpectedRule(path, Arr(items), v))
            && (SomeSays(w, branches, "typed_value", v) <==> TypedRule(path, Arr(items), v)))
  {
    hide Judge, Is, TypedShape, Branch, TypedValueSchema, OneOfValues, Unique, SomeSays, Says, Lists;
    var removable := TypedValueSchema("STRING", OneOfValues(Unique(items)));
    var (none, text) := (TypedValueSchema("NULL", NULL_TYPE), TypedValueSchema("STRING", TEXT_TYPE));
    PartsSay(path, "ADD", none, text, w, v);
    PartsSay(path, "REMOVE", removable, removable, w, v);
    OneSays(w, Add(path), "kind", v);
    OneSays(w, Add(path), "expected_old_value", v);
    OneSays(w, Add(path), "typed_value", v);
    assert [Add(path)] + [] == [Add(path)];
    if v.Obj? && TypedShape(v.fields) {
      NullExactly(w, v);
      TextExactly(w, v);
      ItemExactly(w, items, v);
      EmptyHasNoItem(v);
    }
  }

  lemma ScalarSays(w: World, path: string, current: Json, v: Json)
    requires !Collection(path) && ExactTypedValue(current).Some? && MinimumStandard(w)
    ensures var branches := [Set(path, current)] + if Unsettable(path, current) then [Unset(path, current)] else [];
      && (v.Str? ==> (SomeSays(w, branches, "kind", v) <==> KindRule(path, current, v.s)))
      && (v.Obj? && TypedShape(v.fields) ==>
            && (SomeSays(w, branches, "expected_old_value", v) <==> ExpectedRule(path, current, v))
            && (SomeSays(w, branches, "typed_value", v) <==> TypedRule(path, current, v)))
  {
    hide Judge, Is, IsCurrent, IsNew, TypedShape, Branch, TypedValueSchema, ExactTypedValue, ValueSchema, SomeSays, Says;
    hide MinimumStandard;
    ValuesAreObjects(path, current);
    var (exact, none) := (ExactTypedValue(current).value, TypedValueSchema("NULL", NULL_TYPE));
    PartsSay(path, "SET", exact, ValueSchema(path), w, v);
    PartsSay(path, "UNSET", exact, none, w, v);
    OneSays(w, Set(path, current), "kind", v);
    OneSays(w, Set(path, current), "expected_old_value", v);
    OneSays(w, Set(path, current), "typed_value", v);
    assert [Set(path, current)] + [] == [Set(path, current)];
    if v.Obj? && TypedShape(v.fields) {
      NullExactly(w, v);
      CurrentExactly(w, current, v);
      NewExactly(w, path, v);
    }
  }

  /** Some field that may change allows it. */
  ghost predicate SomeKind(founder: Fields, paths: seq<string>, kind: string) {
    exists path | path in paths :: FieldName(path) in Keys(founder) && KindRule(path, At(founder, FieldName(path)), kind)
  }

  ghost predicate SomeExpected(founder: Fields, paths: seq<string>, v: Json) {
    exists path | path in paths :: FieldName(path) in Keys(founder) && ExpectedRule(path, At(founder, FieldName(path)), v)
  }

  ghost predicate SomeTyped(founder: Fields, paths: seq<string>, v: Json) {
    exists path | path in paths :: FieldName(path) in Keys(founder) && TypedRule(path, At(founder, FieldName(path)), v)
  }

  lemma FieldsSay(w: World, founder: Fields, paths: seq<string>, property: string, v: Json)
    requires Branches(founder, paths).Some?
    ensures SomeSays(w, Branches(founder, paths).value, property, v) <==>
      exists path | path in paths ::
        FieldBranches(founder, path).Some? && SomeSays(w, FieldBranches(founder, path).value, property, v)
  {
    hide Says, FieldBranches, Branches;
    var branches := Branches(founder, paths).value;
    if SomeSays(w, branches, property, v) {
      var b :| b in branches && Says(w, b, property, v);
      var path := BranchFrom(founder, paths, b);
    }
    if path :| path in paths && FieldBranches(founder, path).Some?
               && SomeSays(w, FieldBranches(founder, path).value, property, v) {
      BranchListed(founder, paths, path);
      var b :| b in FieldBranches(founder, path).value && Says(w, b, property, v);
      assert b in branches;
    }
  }

  lemma AllSay(w: World, founder: Fields, paths: seq<string>, v: Json)
    requires Branches(founder, paths).Some? && MinimumStandard(w)
    ensures var branches := Branches(founder, paths).value;
      && (v.Str? ==> (SomeSays(w, branches, "kind", v) <==> SomeKind(founder, paths, v.s)))
      && (v.Obj? && TypedShape(v.fields) ==>
            && (SomeSays(w, branches, "expected_old_value", v) <==> SomeExpected(founder, paths, v))
            && (SomeSays(w, branches, "typed_value", v) <==> SomeTyped(founder, paths, v)))
  {
    hide SomeSays, FieldBranches, FieldName, MinimumStandard, KindRule, ExpectedRule, TypedRule, TypedShape, Branches;
    FieldsSay(w, founder, paths, "kind", v);
    FieldsSay(w, founder, paths, "expected_old_value", v);
    FieldsSay(w, founder, paths, "typed_value", v);
    forall path | path in paths
      ensures FieldBranches(founder, path).Some? && FieldName(path) in Keys(founder)
      ensures v.Str? ==>
        (SomeSays(w, FieldBranches(founder, path).value, "kind", v) <==>
         KindRule(path, At(founder, FieldName(path)), v.s))
      ensures v.Obj? && TypedShape(v.fields) ==>
        && (SomeSays(w, FieldBranches(founder, path).value, "expected_old_value", v) <==>
            ExpectedRule(path, At(founder, FieldName(path)), v))
        && (SomeSays(w, FieldBranches(founder, path).value, "typed_value", v) <==>
            TypedRule(path, At(founder, FieldName(path)), v))
    {
      BranchListed(founder, paths, path);
      FieldSays(w, founder, path, v);
    }
  }

  // ---- The kinds that are sent ----

  lemma TextEnumExactly(w: World, values: seq<Json>, x: Json)
    requires forall y | y in values :: y.Str?
    ensures Admits(w, TextEnum(values), x) <==> x in values
  {
    hide Judge, Keyword, Get, Keys;
    var m := TextEnum(values).fields;
    TwoMembers(m[0], m[1]);
    assert m == [m[0], m[1]];
    if x in values {
      TextEnumAdmits(w, values, x.s);
    }
    if Admits(w, TextEnum(values), x) {
      MemberAdmits(w, m, "enum", x);
      EnumKept(w, m, values, x);
    }
  }

  lemma EnumKept(w: World, m: Fields, values: seq<Json>, x: Json)
    requires Get(m, "enum") == Some(Arr(values)) && (forall y | y in values :: y.Str?)
    requires Keyword(w, true, 0, "", m, "enum", x)
    ensures x in values
  {
    hide KindOf, Judgement, SiblingsOf;
    KeyKinds();
    var y :| y in values && Same(y, x);
    assert y.Str?;
  }

  lemma {:induction false} EnumTextsExactly(schemas: seq<Json>, s: string)
    ensures Str(s) in EnumTexts(schemas) <==>
      exists q | q in schemas :: Str(s) in Elements(Member(Members(q), "enum"))
    ensures forall x | x in EnumTexts(schemas) :: x.Str?
  {
    hide TextItems, Member, Members, Elements;
    if schemas != [] {
      var (rest, last) := (schemas[..|schemas| - 1], schemas[|schemas| - 1]);
      assert schemas == rest + [last];
      EnumTextsExactly(rest, s);
      assert last in schemas && forall q :: q in schemas <==> q in rest || q == last;
    }
  }

  lemma {:induction false} KindSchemas(branches: seq<Json>, q: Json)
    requires forall b | b in branches :: SaysOneKind(b)
    ensures q in PropertySchemas(branches, "kind") ==> exists kind :: q == OneOfValues([Str(kind)])
  {
    hide PropertySchema, OneOfValues;
    if branches != [] {
      var (rest, last) := (branches[..|branches| - 1], branches[|branches| - 1]);
      assert branches == rest + [last];
      assert SaysOneKind(last) && forall b | b in rest :: b in branches;
      KindSchemas(rest, q);
    }
  }

  ghost predicate SaysOneKind(b: Json) {
    exists kind :: PropertySchema(b, "kind") == Some(OneOfValues([Str(kind)]))
  }

  lemma KindSaid(w: World, branches: seq<Json>, s: string)
    requires forall b | b in branches :: SaysOneKind(b)
    ensures Str(s) in EnumTexts(Distinctly(branches, "kind")) <==> SomeSays(w, branches, "kind", Str(s))
  {
    hide PropertySchema, OneOfValues, Judge, Unique, Elements, Members, Member;
    var schemas := Distinctly(branches, "kind");
    EnumTextsExactly(schemas, s);
    SchemasSay(w, branches, "kind", Str(s));
    forall q | q in schemas ensures Str(s) in Elements(Member(Members(q), "enum")) <==> Admits(w, q, Str(s)) {
      KindSchemas(branches, q);
      var kind :| q == OneOfValues([Str(kind)]);
      OneKind(w, kind, s);
    }
  }

  lemma OneKind(w: World, kind: string, s: string)
    ensures Str(s) in Elements(Member(Members(OneOfValues([Str(kind)])), "enum")) <==>
      Admits(w, OneOfValues([Str(kind)]), Str(s))
  {
    EnumExactly(w, [Str(kind)], Str(s));
    hide Judge;
    var m := OneOfValues([Str(kind)]).fields;
    assert Get(m, "enum") == Some(Arr([Str(kind)]));
  }

  lemma BranchesSayKinds(founder: Fields, paths: seq<string>)
    requires Branches(founder, paths).Some?
    ensures forall b | b in Branches(founder, paths).value :: SaysOneKind(b)
  {
    hide FieldBranches, Branch, PropertySchema, OneOfValues;
    forall b | b in Branches(founder, paths).value ensures SaysOneKind(b) {
      var path := BranchFrom(founder, paths, b);
      var kind, expected, typed := BranchOf(founder, path, b);
      BranchSchemas(path, kind, expected, typed);
    }
  }

  /** What the schema that is sent asks of an operation, apart from what the contract asks. */
  ghost predicate SentRule(founder: Fields, paths: seq<string>, ids: seq<string>, op: Fields)
    requires "field_path" in Keys(op) && "kind" in Keys(op) && "expected_old_value" in Keys(op) && "typed_value" in Keys(op)
  {
    && ("op_id" in Keys(op) ==> At(op, "op_id").Str? && At(op, "op_id").s in ids)
    && At(op, "field_path").Str? && At(op, "field_path").s in paths
    && At(op, "kind").Str? && SomeKind(founder, paths, At(op, "kind").s)
    && SomeExpected(founder, paths, At(op, "expected_old_value"))
    && SomeTyped(founder, paths, At(op, "typed_value"))
    && ("unit" in Keys(op) ==> At(op, "unit") == Null)
  }

  lemma OpKeys(op: Fields)
    requires OperationShape(op)
    ensures {"field_path", "kind", "expected_old_value", "typed_value"} <= Keys(op)
    ensures At(op, "expected_old_value").Obj? && TypedShape(At(op, "expected_old_value").fields)
    ensures At(op, "typed_value").Obj? && TypedShape(At(op, "typed_value").fields)
  {
  }

  /** An operation meets what is sent if and only if each of its members is one that some field allows. */
  lemma SentExactly(w: World, founder: Fields, paths: seq<string>, ids: seq<string>, op: Fields)
    requires Branches(founder, paths).Some? && OperationShape(op) && MinimumStandard(w)
    requires SentProperties(Branches(founder, paths).value, paths, ids).Some?
    ensures "field_path" in Keys(op) && "kind" in Keys(op) && "expected_old_value" in Keys(op) && "typed_value" in Keys(op)
    ensures MeetsSent(w, SentProperties(Branches(founder, paths).value, paths, ids).value, op) <==>
      SentRule(founder, paths, ids, op)
  {
    hide Judge, Keys, Get, OperationShape, MinimumStandard, SentProperties, Branches, Texts, TextEnum, CompactUnion, SomeSays;
    hide Distinctly, EnumTexts, Unique, TypedShape, SomeKind, SomeExpected, SomeTyped;
    var branches := Branches(founder, paths).value;
    var sent := SentProperties(branches, paths, ids).value;
    OpKeys(op);
    SixMembers(branches, paths, ids);
    UnionsThere(branches, paths, ids);
    UnionSays(w, branches, "expected_old_value", At(op, "expected_old_value"));
    UnionSays(w, branches, "typed_value", At(op, "typed_value"));
    AllSay(w, founder, paths, At(op, "expected_old_value"));
    AllSay(w, founder, paths, At(op, "typed_value"));
    KindsExactly(w, founder, paths, At(op, "kind"));
    PathsExactly(w, paths, At(op, "field_path"));
    if "op_id" in Keys(op) {
      PathsExactly(w, ids, At(op, "op_id"));
    }
    if "unit" in Keys(op) {
      OnlyTypeAdmits(w, "null", At(op, "unit"));
    }
  }

  lemma UnionsThere(branches: seq<Json>, paths: seq<string>, ids: seq<string>)
    requires SentProperties(branches, paths, ids).Some?
    ensures CompactUnion(Distinctly(branches, "expected_old_value")).Some?
    ensures CompactUnion(Distinctly(branches, "typed_value")).Some?
  {
  }

  lemma PathsExactly(w: World, texts: seq<string>, x: Json)
    ensures Admits(w, TextEnum(Texts(texts)), x) <==> x.Str? && x.s in texts
  {
    hide Judge, TextEnum, Texts;
    TextsAre(texts);
    TextEnumExactly(w, Texts(texts), x);
  }

  lemma KindsExactly(w: World, founder: Fields, paths: seq<string>, x: Json)
    requires Branches(founder, paths).Some? && MinimumStandard(w)
    ensures Admits(w, TextEnum(Unique(EnumTexts(Distinctly(Branches(founder, paths).value, "kind")))), x) <==>
      x.Str? && SomeKind(founder, paths, x.s)
  {
    hide Judge, TextEnum, EnumTexts, Distinctly, Unique, Branches, SomeKind, SomeSays, MinimumStandard, SaysOneKind;
    var branches := Branches(founder, paths).value;
    var kinds := EnumTexts(Distinctly(branches, "kind"));
    EnumTextsExactly(Distinctly(branches, "kind"), "");
    TextEnumExactly(w, Unique(kinds), x);
    if x.Str? {
      BranchesSayKinds(founder, paths);
      KindSaid(w, branches, x.s);
      AllSay(w, founder, paths, x);
    }
  }

  /** The advertised rule names the kinds that the branches of the field have. */
  lemma RuleExactly(founder: Fields, path: string, kind: string)
    requires FieldBranches(founder, path).Some?
    ensures FieldName(path) in Keys(founder) && RuleFor(founder, path).Some?
    ensures kind in RuleFor(founder, path).value.kinds <==> KindRule(path, At(founder, FieldName(path)), kind)
    ensures RuleFor(founder, path).value.typedKinds ==
      if Collection(path) then {"STRING"}
      else if path == "/founder/max_loss_krw" then {"INTEGER", "NULL"}
      else if path == "/founder/own_funds_krw" then {"INTEGER"} else {"STRING"}
  {
    hide FieldBranches, FieldName, Add, Remove, Set, Unset, ExactTypedValue;
    FieldShape(founder, path);
  }
}
