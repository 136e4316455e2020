/** Whatever a contract schema accepts, its projection accepts, and the projection holds no reference. */
module ProjectionTheorem {
  import opened Json
  import opened JsonSchema
  import opened VertexResponseSchema
  import opened ProjectionSoundness
  import opened ProjectionMerge

  // ---- Branches of a `oneOf` that can be told apart ----

  /** Two type names that no value has both. */
  predicate ExclusiveTypes(a: Fields, b: Fields) {
    match (Get(a, "type"), Get(b, "type"))
    case (Some(Str(s)), Some(Str(t))) => s != t && {s, t} != {"integer", "number"}
    case _ => false
  }

  /** The texts that the property `tag` can have in an object of the schema, if it must have one of some. */
  function Tags(fields: Fields, tag: string): Option<seq<Json>> {
    if Get(fields, "type") == Some(Str("object")) && Str(tag) in ArrayItems(Get(fields, "required"))
       && tag in Keys(Props(fields)) && At(Props(fields), tag).Obj?
    then
      match Get(At(Props(fields), tag).fields, "enum")
      case Some(Arr(texts)) => if forall x | x in texts :: x.Str? then Some(texts) else None
      case _ => None
    else None
  }

  /** The two schemas ask for different types, or for objects with different values of one tag. */
  ghost predicate Discriminated(a: Json, b: Json) {
    && a.Obj? && b.Obj?
    && (|| ExclusiveTypes(a.fields, b.fields)
        || exists tag ::
             && Tags(a.fields, tag).Some? && Tags(b.fields, tag).Some?
             && forall x | x in Tags(a.fields, tag).value :: x !in Tags(b.fields, tag).value)
  }

  lemma TagAdmitted(w: World, fields: Fields, tag: string, v: Json)
    requires Tags(fields, tag).Some? && Admits(w, Obj(fields), v)
    ensures v.Obj? && tag in Keys(v.fields) && At(v.fields, tag) in Tags(fields, tag).value
  {
    hide Judge, Keyword;
    TypeKept(w, 0, "", fields, v);
    MemberAdmits(w, fields, "required", v);
    RequiredNamed(w, fields, tag, v);
    PropertyAdmits(w, fields, tag, v);
    var child := At(Props(fields), tag).fields;
    MemberAdmits(w, child, "enum", At(v.fields, tag));
    EnumText(w, child, Tags(fields, tag).value, At(v.fields, tag));
  }

  lemma RequiredNamed(w: World, fields: Fields, name: string, v: Json)
    requires Str(name) in ArrayItems(Get(fields, "required")) && v.Obj?
    requires Keyword(w, true, 0, "", fields, "required", v)
    ensures name in Keys(v.fields)
  {
    hide Judgement, SiblingsOf;
    assert KindOf("required") == Required;
    assert Str(name).s in Keys(v.fields);
  }

  lemma EnumText(w: World, fields: Fields, texts: seq<Json>, v: Json)
    requires Get(fields, "enum") == Some(Arr(texts)) && (forall x | x in texts :: x.Str?)
    requires Keyword(w, true, 0, "", fields, "enum", v)
    ensures v in texts
  {
    hide Judgement, SiblingsOf;
    assert KindOf("enum") == Enum;
    var x :| x in texts && Same(x, v);
  }

  lemma DiscriminatedExclusive(w: World, a: Json, b: Json, v: Json)
    requires Discriminated(a, b) && Admits(w, a, v)
    ensures !Admits(w, b, v)
  {
    hide Judge;
    if Admits(w, b, v) {
      if ExclusiveTypes(a.fields, b.fields) {
        TypeKept(w, 0, "", a.fields, v);
        TypeKept(w, 0, "", b.fields, v);
        assert false;
      } else {
        var tag :| Tags(a.fields, tag).Some? && Tags(b.fields, tag).Some?
                   && forall x | x in Tags(a.fields, tag).value :: x !in Tags(b.fields, tag).value;
        TagAdmitted(w, a.fields, tag, v);
        TagAdmitted(w, b.fields, tag, v);
        assert false;
      }
    }
  }

  // ---- The schemas whose projection is a weakening ----

  /** Where the projection reaches: properties only stand beside a definite type where the schema is
      given up on, the branches of a `oneOf` stay distinguishable after projection, no `prefixItems`,
      no reference below `additionalProperties`, and every key of an object once. */
  ghost predicate Supported(place: Place, schema: Fields)
    decreases place.Left(), 2
  {
    if place.depth > MAX_PROJECTION_DEPTH then LooseSafe(schema)
    else
      match Get(schema, "$ref")
      case Some(Str(reference)) =>
        (match ResolveRef(place.documents, reference, place.file)
         case Err(_) => true
         case Ok(target) =>
           if target.key in place.seen then LooseSafe(target.schema)
           else Supported(place.Through(target), target.schema))
      case _ =>
        match Get(schema, "type")
        case Some(Arr(types)) => forall t | t in types :: Supported(place.Below(), Put(schema, "type", t))
        case _ => Distinct(schema) && "prefixItems" !in Keys(schema) && forall f | f in schema :: SupportedMember(place, f)
  }

  ghost predicate SupportedMember(place: Place, f: Field)
    requires place.depth <= MAX_PROJECTION_DEPTH
    decreases place.Left(), 1
  {
    match f.key
    case "properties" =>
      f.value.Obj? ==> Distinct(f.value.fields) && forall g | g in f.value.fields :: SupportedChild(place, g.value)
    case "items" => SupportedChild(place, f.value)
    case "anyOf" => f.value.Arr? ==> forall x | x in f.value.items :: SupportedChild(place, x)
    case "oneOf" =>
      f.value.Arr? ==>
        && (forall x | x in f.value.items :: SupportedChild(place, x))
        && var branches := ProjectChildren(place, f.value.items);
           branches.Ok? ==> AllDiscriminated(branches.value)
    case "allOf" => f.value.Arr? ==> forall x | x in f.value.items && Structural(x) :: SupportedChild(place, x)
    case "additionalProperties" => NoReference(f.value)
    case _ => true
  }

  ghost predicate AllDiscriminated(branches: seq<Json>) {
    forall i, j | 0 <= i < |branches| && 0 <= j < |branches| && i != j :: Discriminated(branches[i], branches[j])
  }

  ghost predicate SupportedChild(place: Place, child: Json)
    requires place.depth <= MAX_PROJECTION_DEPTH
    decreases place.Left(), 0
  {
    child.Obj? ==> Supported(place.Below(), child.fields)
  }

  // ---- What the parts of a projection are projections of ----

  lemma {:induction false} ChildProjected(place: Place, children: seq<Json>, i: nat)
    requires place.depth <= MAX_PROJECTION_DEPTH && ProjectChildren(place, children).Ok?
    ensures |ProjectChildren(place, children).value| == |children|
    ensures i < |children| ==> ProjectChild(place, children[i]) == Ok(ProjectChildren(place, children).value[i])
  {
    hide ProjectChild;
    if children != [] {
      ChildProjected(place, children[1..], if i > 0 then i - 1 else 0);
    }
  }

  lemma {:induction false} PropertyProjected(place: Place, properties: Fields, p: string)
    requires place.depth <= MAX_PROJECTION_DEPTH && ProjectProperties(place, properties).Ok?
    ensures var r := ProjectProperties(place, properties).value;
      && (p in Keys(r) <==> p in Keys(properties))
      && (p in Keys(properties) ==> ProjectChild(place, At(properties, p)) == Ok(At(r, p)))
  {
    hide ProjectChild;
    if properties != [] {
      KeysCons(properties);
      KeysCons(ProjectProperties(place, properties).value);
      PropertyProjected(place, properties[1..], p);
    }
  }

  lemma {:induction false} PropertiesDistinct(place: Place, properties: Fields)
    requires place.depth <= MAX_PROJECTION_DEPTH && ProjectProperties(place, properties).Ok? && Distinct(properties)
    ensures Distinct(ProjectProperties(place, properties).value)
  {
    hide ProjectChild;
    if properties != [] {
      PropertiesDistinct(place, properties[1..]);
      PropertyProjected(place, properties[1..], properties[0].key);
      var r := ProjectProperties(place, properties).value;
      assert r[1..] == ProjectProperties(place, properties[1..]).value;
    }
  }

  lemma {:induction false} VariantProjected(place: Place, schema: Fields, types: seq<Json>, i: nat)
    requires place.depth <= MAX_PROJECTION_DEPTH && ProjectVariants(place, schema, types).Ok?
    ensures var r := ProjectVariants(place, schema, types).value;
      && |r| == |types|
      && (i < |types| ==>
           var variant := Project(place.Below(), Put(schema, "type", types[i]));
           variant.Ok? && r[i] == Obj(variant.value))
  {
    hide Project;
    if types != [] {
      VariantProjected(place, schema, types[1..], if i > 0 then i - 1 else 0);
    }
  }

  lemma {:induction false} BranchProjected(place: Place, branches: seq<Json>, q: Fields) returns (x: Json)
    requires place.depth <= MAX_PROJECTION_DEPTH && ProjectBranches(place, branches).Ok?
    requires q in ProjectBranches(place, branches).value
    ensures x in branches && Structural(x) && Project(place.Below(), x.fields) == Ok(q)
  {
    hide Project;
    if Structural(branches[0]) && Project(place.Below(), branches[0].fields) == Ok(q) {
      x := branches[0];
    } else {
      x := BranchProjected(place, branches[1..], q);
    }
  }

  /** Every member of the base was written by a member of the schema. */
  ghost predicate WrittenBy(place: Place, members: Fields, base: Fields)
    requires place.depth <= MAX_PROJECTION_DEPTH
  {
    && Distinct(base)
    && (forall k | k in Keys(base) ::
          exists f | f in members :: ProjectMember(place, f) == Ok(Some(Field(k, At(base, k)))))
    && (forall f | f in members && ProjectMember(place, f).Ok? && ProjectMember(place, f).value.Some? ::
          ProjectMember(place, f).value.value.key in Keys(base))
  }

  lemma WrittenStep(place: Place, members: Fields, f: Field, base: Fields)
    requires place.depth <= MAX_PROJECTION_DEPTH && ProjectMember(place, f).Ok?
    requires WrittenBy(place, members, base)
    ensures WrittenBy(place, members + [f], Written(base, ProjectMember(place, f).value))
  {
    hide ProjectMember, Distinct;
    var written := ProjectMember(place, f).value;
    if written.Some? {
      DistinctPut(base, written.value.key, written.value.value);
    }
    var r := Written(base, written);
    forall k | k in Keys(r)
      ensures exists g | g in members + [f] :: ProjectMember(place, g) == Ok(Some(Field(k, At(r, k))))
    {
      if written.Some? && k == written.value.key {
        assert f in members + [f];
      } else {
        var g :| g in members && ProjectMember(place, g) == Ok(Some(Field(k, At(base, k))));
        assert g in members + [f];
      }
    }
  }

  lemma {:induction false} MembersWritten(place: Place, members: Fields)
    requires place.depth <= MAX_PROJECTION_DEPTH && ProjectMembers(place, members).Ok?
    ensures WrittenBy(place, members, ProjectMembers(place, members).value)
  {
    hide ProjectMember, WrittenBy;
    if members == [] {
      NothingWritten(place);
    } else {
      var rest, f := members[..|members| - 1], members[|members| - 1];
      MembersWritten(place, rest);
      WrittenStep(place, rest, f, ProjectMembers(place, rest).value);
      assert rest + [f] == members;
    }
  }

  lemma NothingWritten(place: Place)
    requires place.depth <= MAX_PROJECTION_DEPTH
    ensures WrittenBy(place, [], [])
  {
    hide ProjectMember;
  }

  // ---- One keyword at a time ----

  /** The verdicts on all schemas, not only on the smaller ones. */
  ghost function Whole(w: World, n: nat, doc: string): Verdict {
    (want: bool, x: Json, v: Json) => Judge(w, want, n, doc, x, v)
  }

  lemma KeywordOpens(w: World, n: nat, file: string, schema: Fields, k: string, v: Json)
    requires k in Keys(schema) && k != "$ref" && Keyword(w, true, n, file, schema, k, v)
    ensures Applies(Whole(w, n, file), w, true, KindOf(k), k, At(schema, k), SiblingsOf(schema), v)
  {
    hide Judge, Applies, KindOf, SiblingsOf;
    ReferenceKey(k);
    SelfCarries(Judgement(w, n, file, 1 + SizeFields(schema)), Whole(w, n, file), w, true, KindOf(k), k,
      At(schema, k), SiblingsOf(schema), v);
  }

  lemma KeywordCloses(w: World, fields: Fields, k: string, v: Json)
    requires Keys(fields) <= FLAT_KEYS && k in Keys(fields)
    requires Applies(Whole(w, 0, ""), w, true, KindOf(k), k, At(fields, k), SiblingsOf(fields), v)
    ensures Keyword(w, true, 0, "", fields, k, v)
  {
    hide Judge, Applies, KindOf, SiblingsOf, Subschemas;
    FlatKind(k);
    BranchesSmaller(fields);
    var size := 1 + SizeFields(fields);
    forall x, b, u | x in Subschemas(KindOf(k), At(fields, k), SiblingsOf(fields)) && Whole(w, 0, "")(b, x, u)
      ensures Judgement(w, 0, "", size)(b, x, u)
    {
      SubschemaSmaller(KindOf(k), At(fields, k), SiblingsOf(fields), size - 1, x);
    }
    SelfCarries(Whole(w, 0, ""), Judgement(w, 0, "", size), w, true, KindOf(k), k, At(fields, k), SiblingsOf(fields), v);
  }

  /** What the first verdicts accept of `x`, the second accept of `y`. */
  ghost predicate Weaker(judge1: Verdict, judge2: Verdict, x: Json, y: Json) {
    forall v :: judge1(true, x, v) ==> judge2(true, y, v)
  }

  lemma PropertiesWeaker(
    judge1: Verdict, judge2: Verdict, w: World, k: string, a: Fields, c: Fields, s: Siblings, v: Json)
    requires Keys(a) == Keys(c) && forall p | p in Keys(a) :: Weaker(judge1, judge2, At(a, p), At(c, p))
    requires Applies(judge1, w, true, Properties, k, Obj(a), s, v)
    ensures Applies(judge2, w, true, Properties, k, Obj(c), s, v)
  {
  }

  lemma ItemsWeaker(
    judge1: Verdict, judge2: Verdict, w: World, k: string, a: Json, c: Json, s: Siblings, v: Json)
    requires Weaker(judge1, judge2, a, c)
    requires Applies(judge1, w, true, Items, k, a, s, v)
    ensures Applies(judge2, w, true, Items, k, c, s, v)
  {
  }

  lemma AnyOfWeaker(
    judge1: Verdict, judge2: Verdict, w: World, k: string, a: seq<Json>, c: seq<Json>, s: Siblings, v: Json)
    requires |a| == |c| && forall i | 0 <= i < |a| :: Weaker(judge1, judge2, a[i], c[i])
    requires Applies(judge1, w, true, AnyOf, k, Arr(a), s, v)
    ensures Applies(judge2, w, true, AnyOf, k, Arr(c), s, v)
  {
  }

  lemma OneOfWeaker(
    judge1: Verdict, judge2: Verdict, w: World, k: string, a: seq<Json>, c: seq<Json>, s: Siblings, v: Json)
    requires |a| == |c| && forall i | 0 <= i < |a| :: Weaker(judge1, judge2, a[i], c[i])
    requires forall i, j | 0 <= i < |c| && 0 <= j < |c| && i != j ::
      judge2(true, c[i], v) ==> judge2(false, c[j], v)
    requires Applies(judge1, w, true, OneOf, k, Arr(a), s, v)
    ensures Applies(judge2, w, true, OneOf, k, Arr(c), s, v)
  {
  }

  /** A keyword whose subschemas hold no reference can be read anywhere. */
  lemma DetachedKeyword(w: World, n: nat, file: string, kind: Kind, k: string, a: Json, s: Siblings, v: Json)
    requires forall x | x in Subschemas(kind, a, s) :: NoReference(x)
    requires Applies(Whole(w, n, file), w, true, kind, k, a, s, v)
    ensures Applies(Whole(w, 0, ""), w, true, kind, k, a, s, v)
  {
    hide Applies, Judge, NoReference;
    forall x, b, u | x in Subschemas(kind, a, s) && Whole(w, n, file)(b, x, u) ensures Whole(w, 0, "")(b, x, u) {
      Detached(w, b, n, file, 0, "", x, u);
    }
    SelfCarries(Whole(w, n, file), Whole(w, 0, ""), w, true, kind, k, a, s, v);
  }

  // ---- The induction over the projection ----

  /** The schema `y` holds no reference, and accepts whatever `x` accepts in `file`. */
  ghost predicate Projected(w: World, file: string, x: Json, y: Json) {
    NoReference(y) && forall n: nat :: Weaker(Whole(w, n, file), Whole(w, 0, ""), x, y)
  }

  /** The world in which references lead where the code takes them. */
  ghost predicate Standard(place: Place, w: World) {
    w == WorldOf(place.documents, w.assertion)
  }

  lemma LooseProjected(w: World, file: string, schema: Fields)
    requires LooseSafe(schema)
    ensures Good(LooseSchemaFor(schema))
    ensures Projected(w, file, Obj(schema), Obj(LooseSchemaFor(schema)))
  {
    hide Judge, NoReference, Good, LooseSchemaFor;
    LooseGood(schema);
    assert NoReference(Obj(LooseSchemaFor(schema))) by { GoodParts(LooseSchemaFor(schema)); }
    forall n: nat, v | Whole(w, n, file)(true, Obj(schema), v)
      ensures Whole(w, 0, "")(true, Obj(LooseSchemaFor(schema)), v)
    {
      LooseSound(w, n, file, schema, v);
    }
  }

  lemma GoodParts(fields: Fields)
    requires Good(fields)
    ensures NoReference(Obj(fields))
  {
  }

  lemma LooseGood(schema: Fields)
    ensures Good(LooseSchemaFor(schema))
  {
    hide NoReference, KindOf, Subschemas, SiblingsOf;
    var r := LooseSchemaFor(schema);
    if r == LOOSE_ARRAY {
      assert Keys(r) == {"type", "items"} by { KeysCons(r); KeysCons(r[1..]); }
      LooseArrayGood();
    } else if r == LOOSE_OBJECT {
      LooseObjectGood();
    } else if Get(schema, "type").Some? && At(schema, "type").Arr? {
      var types := At(schema, "type").items;
      var branches := seq(|types|, i requires 0 <= i < |types| => OnlyType(types[i]));
      assert r == [Field("anyOf", Arr(branches))];
      forall x | x in branches ensures NoReference(x) {
        var i :| 0 <= i < |types| && x == OnlyType(types[i]);
        OnlyTypeGood(types[i]);
      }
      AnyOfGood(branches);
    } else if Get(schema, "type").Some? && At(schema, "type").Str? {
      OnlyTypeGood(At(schema, "type"));
    } else {
      OnlyTypeGood(Null);
    }
  }

  /** A list of one or two flat members whose subschemas hold no reference. */
  lemma PairGood(r: Fields)
    requires 1 <= |r| <= 2 && forall f | f in r :: f.key in FLAT_KEYS && f.key != "properties"
    requires |r| == 2 ==> r[0].key != r[1].key
    requires forall f, x | f in r && x in Subschemas(KindOf(f.key), f.value, Siblings({}, 0, None, None)) :: NoReference(x)
    ensures Good(r)
  {
    hide KindOf, NoReference, Subschemas;
    assert Distinct(r[1..]);
    assert Get(r, "properties") == None && Props(r) == [];
    FlatSiblings(r);
    forall k, x | k in Keys(r) && x in Subschemas(KindOf(k), At(r, k), SiblingsOf(r)) ensures NoReference(x) {
      var f :| f in r && f.key == k;
      DistinctAt(r, f);
    }
    FlatNoReference(r);
  }

  lemma LooseArrayGood()
    ensures Good(LOOSE_ARRAY)
  {
    assert KindOf("type") == Type && KindOf("items") == Items;
    assert NoReference(Obj([]));
    hide NoReference, KindOf;
    PairGood(LOOSE_ARRAY);
  }

  lemma LooseObjectGood()
    ensures Good(LOOSE_OBJECT)
  {
    assert KindOf("type") == Type && KindOf("additionalProperties") == AdditionalProperties;
    hide NoReference, KindOf;
    PairGood(LOOSE_OBJECT);
  }

  lemma OnlyTypeGood(t: Json)
    ensures Good(OnlyType(t).fields) && NoReference(OnlyType(t))
  {
    if t.Str? {
      assert KindOf("type") == Type;
      hide NoReference, KindOf;
      PairGood(OnlyType(t).fields);
      GoodParts(OnlyType(t).fields);
    } else {
      assert Get([], "properties") == None;
    }
  }

  lemma AnyOfGood(branches: seq<Json>)
    requires forall x | x in branches :: NoReference(x)
    ensures Good([Field("anyOf", Arr(branches))])
  {
    hide NoReference;
    var r := [Field("anyOf", Arr(branches))];
    assert KindOf("anyOf") == AnyOf;
    hide KindOf;
    PairGood(r);
  }

  lemma {:induction false} ProjectSound(w: World, place: Place, schema: Fields)
    requires Standard(place, w) && Supported(place, schema) && Project(place, schema).Ok?
    ensures Good(Project(place, schema).value)
    ensures Projected(w, place.file, Obj(schema), Obj(Project(place, schema).value))
    decreases place.Left(), 4
  {
    hide Projected, Good, LooseSafe, LooseSchemaFor, ResolveRef, ProjectObject, ProjectVariants, Put, Distinct, SupportedMember;
    hide Get, Keys, Standard;
    var ref, types := Get(schema, "$ref"), Get(schema, "type");
    if place.depth > MAX_PROJECTION_DEPTH {
      LooseProjected(w, place.file, schema);
    } else if ref.Some? && ref.value.Str? {
      ReferenceSound(w, place, schema);
    } else if types.Some? && types.value.Arr? {
      VariantsSound(w, place, schema, types.value.items);
    } else {
      ObjectSound(w, place, schema);
    }
  }

  lemma {:induction false} ReferenceSound(w: World, place: Place, schema: Fields)
    requires Standard(place, w) && Supported(place, schema) && Project(place, schema).Ok?
    requires place.depth <= MAX_PROJECTION_DEPTH && Get(schema, "$ref").Some? && At(schema, "$ref").Str?
    ensures Good(Project(place, schema).value)
    ensures Projected(w, place.file, Obj(schema), Obj(Project(place, schema).value))
    decreases place.Left(), 3
  {
    hide Good, LooseSafe, LooseSchemaFor, ResolveRef, Judge, NoReference;
    var out := Project(place, schema).value;
    var target := ResolveRef(place.documents, At(schema, "$ref").s, place.file).value;
    if target.key in place.seen {
      LooseProjected(w, target.file, target.schema);
    } else {
      ProjectSound(w, place.Through(target), target.schema);
    }
    assert Projected(w, target.file, Obj(target.schema), Obj(out));
    forall n: nat, v | Whole(w, n, place.file)(true, Obj(schema), v) ensures Whole(w, 0, "")(true, Obj(out), v) {
      ReferenceFollowed(w, n, place.file, schema, (target.file, Obj(target.schema)), v);
      assert Whole(w, n - 1, target.file)(true, Obj(target.schema), v);
    }
  }

  lemma ReferenceFollowed(w: World, n: nat, file: string, schema: Fields, target: (string, Json), v: Json)
    requires Get(schema, "$ref").Some? && At(schema, "$ref").Str?
    requires w.resolve(file, At(schema, "$ref").s) == Some(target)
    requires Judge(w, true, n, file, Obj(schema), v)
    ensures n > 0 && Judge(w, true, n - 1, target.0, target.1, v)
  {
    hide Applies, Judgement;
    assert KindOf("$ref") == Reference;
    assert Keyword(w, true, n, file, schema, "$ref", v);
  }

  // ---- A list of types ----

  lemma {:induction false} VariantsSound(w: World, place: Place, schema: Fields, types: seq<Json>)
    requires Standard(place, w) && place.depth <= MAX_PROJECTION_DEPTH && ProjectVariants(place, schema, types).Ok?
    requires Get(schema, "type") == Some(Arr(types)) && (Get(schema, "$ref").Some? ==> !At(schema, "$ref").Str?)
    requires forall t | t in types :: Supported(place.Below(), Put(schema, "type", t))
    ensures var out := [Field("anyOf", Arr(ProjectVariants(place, schema, types).value))];
      Good(out) && Projected(w, place.file, Obj(schema), Obj(out))
    decreases place.Left(), 3
  {
    hide Good, Judge, NoReference, Supported, Project;
    var variants := ProjectVariants(place, schema, types).value;
    VariantProjected(place, schema, types, 0);
    forall i | 0 <= i < |types|
      ensures NoReference(variants[i])
      ensures Projected(w, place.file, Obj(Put(schema, "type", types[i])), variants[i])
    {
      VariantProjected(place, schema, types, i);
      ProjectSound(w, place.Below(), Put(schema, "type", types[i]));
    }
    AnyOfGood(variants);
    var out := [Field("anyOf", Arr(variants))];
    GoodParts(out);
    forall n: nat, v | Whole(w, n, place.file)(true, Obj(schema), v) ensures Whole(w, 0, "")(true, Obj(out), v) {
      var i := VariantChosen(w, n, place.file, schema, types, v);
      assert Whole(w, n, place.file)(true, Obj(Put(schema, "type", types[i])), v);
      assert Weaker(Whole(w, n, place.file), Whole(w, 0, ""), Obj(Put(schema, "type", types[i])), variants[i]);
      assert Whole(w, 0, "")(true, variants[i], v);
      SingleAnyOf(w, 0, "", variants, i, v);
    }
  }

  /** A value accepted by a schema with several types is accepted with one of them. */
  lemma VariantChosen(w: World, n: nat, file: string, schema: Fields, types: seq<Json>, v: Json) returns (i: nat)
    requires Get(schema, "type") == Some(Arr(types)) && (Get(schema, "$ref").Some? ==> !At(schema, "$ref").Str?)
    requires Judge(w, true, n, file, Obj(schema), v)
    ensures i < |types| && Judge(w, true, n, file, Obj(Put(schema, "type", types[i])), v)
  {
    hide Keyword, KindOf, Get, SiblingsOf, SameEvaluators;
    TypeKept(w, n, file, schema, v);
    i :| 0 <= i < |types| && types[i].Str? && HasType(types[i].s, v);
    var variant := Put(schema, "type", types[i]);
    TypeReplaced(schema, types[i]);
    forall k | k in Keys(variant) ensures Keyword(w, true, n, file, variant, k, v) {
      if k == "type" {
        TypeKeyword(w, true, n, file, variant, v);
      } else {
        ReferenceKey(k);
        assert Get(variant, k) == Get(schema, k);
        SameKeyword(w, true, n, file, schema, variant, k, v);
      }
    }
  }

  /** The type evaluates no properties, and no keyword looks at it. */
  lemma TypeReplaced(schema: Fields, t: Json)
    requires "type" in Keys(schema)
    ensures SameEvaluators(schema, Put(schema, "type", t)) && SiblingsOf(schema) == SiblingsOf(Put(schema, "type", t))
  {
    assert !Evaluator("type");
    hide Evaluator;
  }

  // ---- The children of one keyword ----

  lemma {:induction false} ChildSound(w: World, place: Place, child: Json)
    requires Standard(place, w) && place.depth <= MAX_PROJECTION_DEPTH
    requires SupportedChild(place, child) && ProjectChild(place, child).Ok?
    ensures Projected(w, place.file, child, ProjectChild(place, child).value)
    decreases place.Left(), 0
  {
    hide Good, Supported, Project;
    if child.Obj? {
      ProjectSound(w, place.Below(), child.fields);
    }
  }

  lemma {:induction false} PropertiesSound(w: World, place: Place, n: nat, a: Fields, s: Siblings, v: Json)
    requires Standard(place, w) && place.depth <= MAX_PROJECTION_DEPTH
    requires SupportedMember(place, Field("properties", Obj(a))) && ProjectProperties(place, a).Ok?
    ensures var c := ProjectProperties(place, a).value;
      && Keys(c) == Keys(a) && Distinct(c)
      && (forall p | p in Keys(c) :: NoReference(At(c, p)))
      && (Applies(Whole(w, n, place.file), w, true, Properties, "properties", Obj(a), s, v) ==>
            Applies(Whole(w, 0, ""), w, true, Properties, "properties", Obj(c), s, v))
    decreases place.Left(), 1
  {
    hide Judge, NoReference, ProjectChild, Applies, SupportedChild, Weaker;
    var c := ProjectProperties(place, a).value;
    PropertiesDistinct(place, a);
    forall p ensures p in Keys(c) <==> p in Keys(a) {
      PropertyProjected(place, a, p);
    }
    forall p | p in Keys(a)
      ensures NoReference(At(c, p)) && Weaker(Whole(w, n, place.file), Whole(w, 0, ""), At(a, p), At(c, p))
    {
      PropertyProjected(place, a, p);
      assert Field(p, At(a, p)) in a;
      ChildSound(w, place, At(a, p));
    }
    if Applies(Whole(w, n, place.file), w, true, Properties, "properties", Obj(a), s, v) {
      PropertiesWeaker(Whole(w, n, place.file), Whole(w, 0, ""), w, "properties", a, c, s, v);
    }
  }

  lemma {:induction false} ChildrenSound(w: World, place: Place, n: nat, a: seq<Json>)
    requires Standard(place, w) && place.depth <= MAX_PROJECTION_DEPTH
    requires (forall x | x in a :: SupportedChild(place, x)) && ProjectChildren(place, a).Ok?
    ensures var c := ProjectChildren(place, a).value;
      && |c| == |a|
      && (forall x | x in c :: NoReference(x))
      && (forall i | 0 <= i < |a| :: Weaker(Whole(w, n, place.file), Whole(w, 0, ""), a[i], c[i]))
    decreases place.Left(), 1
  {
    hide Judge, NoReference, ProjectChild, SupportedChild, Weaker;
    var c := ProjectChildren(place, a).value;
    ChildProjected(place, a, 0);
    forall i | 0 <= i < |a|
      ensures NoReference(c[i]) && Weaker(Whole(w, n, place.file), Whole(w, 0, ""), a[i], c[i])
    {
      ChildProjected(place, a, i);
      ChildSound(w, place, a[i]);
    }
  }

  lemma OneOfKept(w: World, n: nat, file: string, a: seq<Json>, c: seq<Json>, s: Siblings, v: Json)
    requires |c| == |a| && (forall x | x in c :: NoReference(x)) && AllDiscriminated(c)
    requires forall i | 0 <= i < |a| :: Weaker(Whole(w, n, file), Whole(w, 0, ""), a[i], c[i])
    requires Applies(Whole(w, n, file), w, true, OneOf, "oneOf", Arr(a), s, v)
    ensures Applies(Whole(w, 0, ""), w, true, OneOf, "oneOf", Arr(c), s, v)
  {
    hide Judge, NoReference, Applies, Weaker, Discriminated;
    forall i, j | 0 <= i < |c| && 0 <= j < |c| && i != j
      ensures Whole(w, 0, "")(true, c[i], v) ==> Whole(w, 0, "")(false, c[j], v)
    {
      if Admits(w, c[i], v) {
        DiscriminatedExclusive(w, c[i], c[j], v);
        JudgeTotal(w, 0, "", c[j], v);
      }
    }
    OneOfWeaker(Whole(w, n, file), Whole(w, 0, ""), w, "oneOf", a, c, s, v);
  }

  // ---- One member, then the whole object ----

  function Flat(s: Siblings): Siblings {
    Siblings(s.named, 0, None, None)
  }

  /** The member `g` holds no reference and accepts what the member `f` of the schema accepts. */
  ghost predicate MemberKept(w: World, place: Place, n: nat, f: Field, g: Field, s: Siblings, v: Json) {
    && g.key in FLAT_KEYS
    && (forall x | x in Subschemas(KindOf(g.key), g.value, Flat(s)) :: NoReference(x))
    && (Applies(Whole(w, n, place.file), w, true, KindOf(f.key), f.key, f.value, s, v) ==>
          Applies(Whole(w, 0, ""), w, true, KindOf(g.key), g.key, g.value, Flat(s), v))
    && (g.key == "properties" ==>
          && f.key == "properties"
          && Distinct(ObjectFields(Some(g.value)))
          && Keys(ObjectFields(Some(g.value))) == Keys(ObjectFields(Some(f.value))))
  }

  lemma ConstKept(w: World, place: Place, n: nat, a: Json, s: Siblings, v: Json)
    ensures MemberKept(w, place, n, Field("const", a), Field("enum", Arr([a])), s, v)
  {
    hide Judge, KindOf, Applies;
    KeyKinds();
    if Applies(Whole(w, n, place.file), w, true, Const, "const", a, s, v) {
      ConstApplies(Whole(w, n, place.file), Whole(w, 0, ""), w, a, s, Flat(s), v);
    }
  }

  lemma ConstApplies(judge1: Verdict, judge2: Verdict, w: World, a: Json, s: Siblings, t: Siblings, v: Json)
    requires Applies(judge1, w, true, Const, "const", a, s, v)
    ensures Applies(judge2, w, true, Enum, "enum", Arr([a]), t, v)
  {
    hide Same;
    assert a in [a];
  }

  /** A member that is copied: its subschemas, if it has any, hold no references. */
  lemma CopyKept(w: World, place: Place, n: nat, f: Field, s: Siblings, v: Json)
    requires f.key in FLAT_KEYS && s.prefix == 0
    requires f.key in {"properties", "items"} ==> !f.value.Obj?
    requires f.key in {"anyOf", "oneOf"} ==> !f.value.Arr?
    requires f.key == "additionalProperties" ==> NoReference(f.value)
    ensures MemberKept(w, place, n, f, f, s, v)
  {
    hide Judge, Applies;
    forall x | x in Subschemas(KindOf(f.key), f.value, Flat(s)) ensures NoReference(x) {
      CopiedSubschema(f, Flat(s), x);
    }
    if Applies(Whole(w, n, place.file), w, true, KindOf(f.key), f.key, f.value, s, v) {
      hide KindOf, NoReference;
      FlatKind(f.key);
      AppliesWithMoreNames(Whole(w, n, place.file), w, KindOf(f.key), f.key, f.value, s, Flat(s), v);
      DetachedKeyword(w, n, place.file, KindOf(f.key), f.key, f.value, Flat(s), v);
    }
  }

  lemma CopiedSubschema(f: Field, s: Siblings, x: Json)
    requires f.key in FLAT_KEYS && s == Flat(s)
    requires f.key in {"properties", "items"} ==> !f.value.Obj?
    requires f.key in {"anyOf", "oneOf"} ==> !f.value.Arr?
    requires f.key == "additionalProperties" ==> NoReference(f.value)
    requires x in Subschemas(KindOf(f.key), f.value, s)
    ensures NoReference(x)
  {
    assert KindOf(f.key) in {Properties, Items, AnyOf, OneOf, AdditionalProperties};
  }

  /** The members whose subschemas are projected. */
  predicate Applied(f: Field) {
    || (f.key in {"properties", "items"} && f.value.Obj?)
    || (f.key in {"anyOf", "oneOf"} && f.value.Arr?)
  }

  lemma {:induction false} AppliedKept(w: World, place: Place, n: nat, f: Field, g: Field, s: Siblings, v: Json)
    requires Standard(place, w) && place.depth <= MAX_PROJECTION_DEPTH && s.prefix == 0
    requires SupportedMember(place, f) && ProjectMember(place, f) == Ok(Some(g))
    requires Applied(f)
    ensures MemberKept(w, place, n, f, g, s, v)
    decreases place.Left(), 2, 0
  {
    hide Judge, Applies, NoReference, KindOf, ProjectChild, Supported;
    KeyKinds();
    var judge1, judge2 := Whole(w, n, place.file), Whole(w, 0, "");
    if Applies(judge1, w, true, KindOf(f.key), f.key, f.value, s, v) {
      FlatKind(f.key);
      AppliesWithMoreNames(judge1, w, KindOf(f.key), f.key, f.value, s, Flat(s), v);
    }
    if f.key == "properties" {
      PropertiesSound(w, place, n, f.value.fields, Flat(s), v);
    } else if f.key == "items" {
      ChildSound(w, place, f.value);
      if Applies(judge1, w, true, Items, f.key, f.value, Flat(s), v) {
        ItemsWeaker(judge1, judge2, w, f.key, f.value, g.value, Flat(s), v);
      }
    } else {
      ChildrenSound(w, place, n, f.value.items);
      var kind := KindOf(f.key);
      if Applies(judge1, w, true, kind, f.key, f.value, Flat(s), v) {
        if f.key == "anyOf" {
          AnyOfWeaker(judge1, judge2, w, f.key, f.value.items, g.value.items, Flat(s), v);
        } else {
          OneOfKept(w, n, place.file, f.value.items, g.value.items, Flat(s), v);
        }
      }
    }
  }

  lemma {:induction false} MemberSound(w: World, place: Place, n: nat, f: Field, g: Field, s: Siblings, v: Json)
    requires Standard(place, w) && place.depth <= MAX_PROJECTION_DEPTH && s.prefix == 0
    requires SupportedMember(place, f) && f.key != "prefixItems" && ProjectMember(place, f) == Ok(Some(g))
    ensures MemberKept(w, place, n, f, g, s, v)
    decreases place.Left(), 2, 1
  {
    hide MemberKept, NoReference, Supported, Project;
    if f.key == "const" {
      ConstKept(w, place, n, f.value, s, v);
    } else if Applied(f) {
      AppliedKept(w, place, n, f, g, s, v);
    } else {
      CopyKept(w, place, n, f, s, v);
    }
  }

  /** The member that wrote `k` into the base, and what it kept. */
  lemma {:induction false} BaseMember(w: World, place: Place, n: nat, schema: Fields, k: string, v: Json)
    returns (f: Field)
    requires Standard(place, w) && SupportedObject(place, schema) && ProjectMembers(place, schema).Ok?
    requires k in Keys(ProjectMembers(place, schema).value)
    ensures f in schema && At(schema, f.key) == f.value && SupportedMember(place, f)
    ensures ProjectMember(place, f) == Ok(Some(Field(k, At(ProjectMembers(place, schema).value, k))))
    ensures MemberKept(w, place, n, f, Field(k, At(ProjectMembers(place, schema).value, k)), SiblingsOf(schema), v)
    decreases place.Left(), 2, 2
  {
    hide ProjectMember, SupportedMember, Distinct, MemberKept;
    var base := ProjectMembers(place, schema).value;
    MembersWritten(place, schema);
    f :| f in schema && ProjectMember(place, f) == Ok(Some(Field(k, At(base, k))));
    DistinctAt(schema, f);
    MemberSound(w, place, n, f, Field(k, At(base, k)), SiblingsOf(schema), v);
  }

  /** The object schemas among the supported ones. */
  ghost predicate SupportedObject(place: Place, schema: Fields) {
    && place.depth <= MAX_PROJECTION_DEPTH
    && (Get(schema, "$ref").Some? ==> !At(schema, "$ref").Str?)
    && (Get(schema, "type").Some? ==> !At(schema, "type").Arr?)
    && Distinct(schema) && "prefixItems" !in Keys(schema)
    && forall f | f in schema :: SupportedMember(place, f)
  }

  /** The base names the properties that the schema names. */
  lemma {:induction false} BaseNames(w: World, place: Place, schema: Fields)
    requires Standard(place, w) && SupportedObject(place, schema) && ProjectMembers(place, schema).Ok?
    ensures PropertyNames(ProjectMembers(place, schema).value) == PropertyNames(schema)
    ensures Distinct(Props(ProjectMembers(place, schema).value))
    decreases place.Left(), 2, 3
  {
    hide ProjectMember, SupportedMember, Distinct, Applies, Subschemas, KindOf, Judge, NoReference;
    var base := ProjectMembers(place, schema).value;
    if "properties" in Keys(base) {
      var f := BaseMember(w, place, 0, schema, "properties", Null);
    } else {
      if "properties" in Keys(schema) {
        PropertiesWritten(place, schema);
      }
      assert Props(base) == [];
      assert Distinct([]) by { NoPropsDistinct(); }
    }
  }

  lemma NoPropsDistinct()
    ensures Distinct([])
  {
  }

  lemma PropertiesWritten(place: Place, schema: Fields)
    requires place.depth <= MAX_PROJECTION_DEPTH && ProjectMembers(place, schema).Ok? && "properties" in Keys(schema)
    ensures "properties" in Keys(ProjectMembers(place, schema).value)
  {
    hide ProjectProperties, ProjectChild;
    MembersWritten(place, schema);
    var f := Field("properties", At(schema, "properties"));
    AllProjected(place, schema, f);
    assert ProjectMember(place, f).value.Some? && ProjectMember(place, f).value.value.key == "properties";
  }

  lemma {:induction false} AllProjected(place: Place, members: Fields, f: Field)
    requires place.depth <= MAX_PROJECTION_DEPTH && ProjectMembers(place, members).Ok? && f in members
    ensures ProjectMember(place, f).Ok?
  {
    hide ProjectMember;
    if f != members[|members| - 1] {
      var i :| 0 <= i < |members| && members[i] == f;
      assert members[..|members| - 1][i] == f;
      AllProjected(place, members[..|members| - 1], f);
    }
  }

  lemma {:induction false} BaseSound(w: World, place: Place, schema: Fields)
    requires Standard(place, w) && SupportedObject(place, schema) && ProjectMembers(place, schema).Ok?
    ensures Good(ProjectMembers(place, schema).value)
    ensures Projected(w, place.file, Obj(schema), Obj(ProjectMembers(place, schema).value))
    decreases place.Left(), 2, 4
  {
    hide ProjectMembers, SupportedMember, Distinct, Applies, Subschemas, KindOf, Judge, NoReference, PropertyNames, FLAT_KEYS;
    var base := ProjectMembers(place, schema).value;
    BaseNames(w, place, schema);
    assert Distinct(base) by { MembersWritten(place, schema); }
    forall k | k in Keys(base) ensures k in FLAT_KEYS {
      var f := BaseMember(w, place, 0, schema, k, Null);
    }
    FlatSiblings(base);
    assert SiblingsOf(base) == Flat(SiblingsOf(schema));
    forall k, x | k in Keys(base) && x in Subschemas(KindOf(k), At(base, k), SiblingsOf(base)) ensures NoReference(x) {
      var f := BaseMember(w, place, 0, schema, k, Null);
    }
    FlatNoReference(base);
    forall n: nat, v | Whole(w, n, place.file)(true, Obj(schema), v) ensures Whole(w, 0, "")(true, Obj(base), v) {
      BaseAdmits(w, place, n, schema, v);
    }
  }

  lemma {:induction false} BaseAdmits(w: World, place: Place, n: nat, schema: Fields, v: Json)
    requires Standard(place, w) && SupportedObject(place, schema) && ProjectMembers(place, schema).Ok?
    requires Keys(ProjectMembers(place, schema).value) <= FLAT_KEYS
    requires SiblingsOf(ProjectMembers(place, schema).value) == Flat(SiblingsOf(schema))
    requires Judge(w, true, n, place.file, Obj(schema), v)
    ensures Admits(w, Obj(ProjectMembers(place, schema).value), v)
    decreases place.Left(), 2, 3
  {
    hide ProjectMembers, SupportedMember, Distinct, Applies, Subschemas, KindOf, NoReference, SiblingsOf, Keyword;
    var base := ProjectMembers(place, schema).value;
    forall k | k in Keys(base) ensures Keyword(w, true, 0, "", base, k, v) {
      var f := BaseMember(w, place, n, schema, k, v);
      if f.key == "$ref" {
        NothingFromReference(place, f);
        assert false;
      } else {
        KeywordOpens(w, n, place.file, schema, f.key, v);
        KeywordCloses(w, base, k, v);
      }
    }
  }

  lemma NothingFromReference(place: Place, f: Field)
    requires place.depth <= MAX_PROJECTION_DEPTH && f.key == "$ref"
    ensures ProjectMember(place, f) == Ok(None)
  {
  }

  lemma {:induction false} BranchSound(w: World, place: Place, schema: Fields, q: Fields)
    requires Standard(place, w) && SupportedObject(place, schema)
    requires ProjectBranches(place, ArrayItems(Get(schema, "allOf"))).Ok?
    requires q in ProjectBranches(place, ArrayItems(Get(schema, "allOf"))).value
    ensures Good(q) && Projected(w, place.file, Obj(schema), Obj(q))
    decreases place.Left(), 2, 4
  {
    hide Judge, Good, NoReference, Distinct, Supported, Project, KindOf;
    var x := BranchProjected(place, ArrayItems(Get(schema, "allOf")), q);
    assert Field("allOf", At(schema, "allOf")) in schema;
    assert SupportedMember(place, Field("allOf", At(schema, "allOf")));
    ProjectSound(w, place.Below(), x.fields);
    forall n: nat, v | Whole(w, n, place.file)(true, Obj(schema), v) ensures Whole(w, 0, "")(true, Obj(q), v) {
      AllOfBranch(w, n, place.file, schema, x, v);
      assert Whole(w, n, place.file)(true, x, v);
    }
  }

  lemma AllOfBranch(w: World, n: nat, file: string, schema: Fields, x: Json, v: Json)
    requires x in ArrayItems(Get(schema, "allOf")) && Judge(w, true, n, file, Obj(schema), v)
    ensures Judge(w, true, n, file, x, v)
  {
    hide KindOf, Keyword;
    KeyKinds();
    assert Keyword(w, true, n, file, schema, "allOf", v);
    KeywordOpens(w, n, file, schema, "allOf", v);
    var i :| 0 <= i < |At(schema, "allOf").items| && At(schema, "allOf").items[i] == x;
    assert Whole(w, n, file)(true, At(schema, "allOf").items[i], v);
  }

  lemma {:induction false} ObjectSound(w: World, place: Place, schema: Fields)
    requires Standard(place, w) && SupportedObject(place, schema) && ProjectObject(place, schema).Ok?
    ensures Good(ProjectObject(place, schema).value)
    ensures Projected(w, place.file, Obj(schema), Obj(ProjectObject(place, schema).value))
    decreases place.Left(), 3
  {
    hide Judge, Good, NoReference, Distinct, SupportedMember, ProjectMembers, ProjectBranches, MergeParts;
    var base := ProjectMembers(place, schema).value;
    BaseSound(w, place, schema);
    var branches := ProjectBranches(place, ArrayItems(Get(schema, "allOf"))).value;
    if branches != [] {
      var parts := [base] + branches;
      forall q | q in parts ensures Good(q) && Projected(w, place.file, Obj(schema), Obj(q)) {
        if q != base {
          assert q in branches;
          BranchSound(w, place, schema, q);
        }
      }
      MergeGood(parts);
      GoodParts(MergeParts(parts));
      forall n: nat, v | Whole(w, n, place.file)(true, Obj(schema), v)
        ensures Whole(w, 0, "")(true, Obj(MergeParts(parts)), v)
      {
        forall q | q in parts ensures Good(q) && Admits(w, Obj(q), v) {
          assert Projected(w, place.file, Obj(schema), Obj(q));
          assert Whole(w, 0, "")(true, Obj(q), v);
        }
        MergeAdmits(w, parts, v);
      }
    }
  }

  // ---- The theorem ----

  /** A projection is a schema object of supported keywords with no reference in any position, and it
      accepts whatever the schema accepts, in whatever document it is read: where `Supported` holds. */
  lemma ProjectionWeakens(place: Place, assertion: AssertionKeywords, schema: Fields, doc: string, v: Json)
    requires Supported(place, schema) && Project(place, schema).Ok?
    ensures var w, out := WorldOf(place.documents, assertion), Project(place, schema).value;
      && Keys(out) <= SUPPORTED_KEYS && NoReference(Obj(out))
      && (Accepts(w, place.file, Obj(schema), v) ==> Accepts(w, doc, Obj(out), v))
      && (Rejects(w, doc, Obj(out), v) ==> !Accepts(w, place.file, Obj(schema), v))
  {
    hide Judge, Supported, Project, NoReference, Distinct;
    var w, out := WorldOf(place.documents, assertion), Project(place, schema).value;
    ProjectSound(w, place, schema);
    if n: nat :| Judge(w, true, n, place.file, Obj(schema), v) {
      assert Whole(w, n, place.file)(true, Obj(schema), v);
      assert Admits(w, Obj(out), v);
      Detached(w, true, 0, "", 0, doc, Obj(out), v);
    }
    DecidedWithoutReferences(w, doc, doc, Obj(out), v);
  }
}
