/** Where nothing has to be given up, the projection means exactly what the contract means. */
module ProjectionExact {
  import opened Json
  import opened JsonSchema
  import opened VertexResponseSchema
  import opened ProjectionSoundness
  import opened ProjectionMerge
  import opened ProjectionTheorem

  const KEPT_KEYS := FLAT_KEYS + {"const"}

  /** Everything the schema says is carried over: its references resolve and do not come back to one that
      it is inside of, the depth suffices, and its keywords are those that the projection keeps. */
  ghost predicate Kept(place: Place, schema: Fields)
    decreases place.Left(), 2
  {
    place.depth <= MAX_PROJECTION_DEPTH &&
    match Get(schema, "$ref")
    case Some(Str(reference)) =>
      && Keys(schema) == {"$ref"}
      && (match ResolveRef(place.documents, reference, place.file)
          case Err(_) => false
          case Ok(target) => target.key !in place.seen && Kept(place.Through(target), target.schema))
    case Some(_) => false
    case None =>
      match Get(schema, "type")
      case Some(Arr(types)) => forall t | t in types :: t.Str? && Kept(place.Below(), Put(schema, "type", t))
      case _ => KeptObject(place, schema)
  }

  ghost predicate KeptObject(place: Place, schema: Fields)
    requires place.depth <= MAX_PROJECTION_DEPTH
    decreases place.Left(), 1
  {
    && Distinct(schema) && Keys(schema) <= KEPT_KEYS && !({"const", "enum"} <= Keys(schema))
    && forall f | f in schema :: KeptMember(place, f)
  }

  ghost predicate KeptMember(place: Place, f: Field)
    requires place.depth <= MAX_PROJECTION_DEPTH
    decreases place.Left(), 0, 1
  {
    match f.key
    case "properties" =>
      f.value.Obj? ==> Distinct(f.value.fields) && forall g | g in f.value.fields :: KeptChild(place, g.value)
    case "items" => f.value.Obj? ==> KeptChild(place, f.value)
    case "anyOf" => f.value.Arr? ==> forall x | x in f.value.items :: KeptChild(place, x)
    case "oneOf" => f.value.Arr? ==> forall x | x in f.value.items :: KeptChild(place, x)
    case "additionalProperties" => NoReference(f.value)
    case _ => true
  }

  ghost predicate KeptChild(place: Place, child: Json)
    requires place.depth <= MAX_PROJECTION_DEPTH
    decreases place.Left(), 0, 0
  {
    child.Obj? && Kept(place.Below(), child.fields)
  }

  /** With `n` references to follow, `x` in `file` gets the verdicts that `y` gets anywhere. */
  ghost predicate Alike(w: World, n: nat, file: string, x: Json, y: Json) {
    Carries(Whole(w, n, file), Whole(w, 0, ""), x, y) && Carries(Whole(w, 0, ""), Whole(w, n, file), y, x)
  }

  // ---- One keyword ----

  lemma KeywordWhole(w: World, want: bool, n: nat, doc: string, fields: Fields, k: string, v: Json)
    requires k in Keys(fields) && k != "$ref" && k != "unevaluatedProperties"
    ensures Keyword(w, want, n, doc, fields, k, v) <==>
      Applies(Whole(w, n, doc), w, want, KindOf(k), k, At(fields, k), SiblingsOf(fields), v)
  {
    hide Judge, Applies, KindOf, SiblingsOf, Judgement, Whole, BranchesWithin;
    ReferenceKey(k);
    BranchesSmaller(fields);
    AppliesWhole(w, want, n, doc, 1 + SizeFields(fields), KindOf(k), k, At(fields, k), SiblingsOf(fields), v);
  }

  lemma AppliesWhole(
    w: World, want: bool, n: nat, doc: string, size: nat, kind: Kind, k: string, a: Json, s: Siblings, v: Json)
    requires Size(a) < size && BranchesWithin(s, size - 1)
    ensures Applies(Judgement(w, n, doc, size), w, want, kind, k, a, s, v) <==>
      Applies(Whole(w, n, doc), w, want, kind, k, a, s, v)
  {
    hide Judge, Applies, Subschemas;
    var judge, whole := Judgement(w, n, doc, size), Whole(w, n, doc);
    forall x, b, u | x in Subschemas(kind, a, s) && whole(b, x, u) ensures judge(b, x, u) {
      SubschemaSmaller(kind, a, s, size - 1, x);
    }
    if Applies(judge, w, want, kind, k, a, s, v) {
      SelfCarries(judge, whole, w, want, kind, k, a, s, v);
    }
    if Applies(whole, w, want, kind, k, a, s, v) {
      SelfCarries(whole, judge, w, want, kind, k, a, s, v);
    }
  }

  /** The member `g` of the projection gives the verdicts of the member `f` of the schema. */
  ghost predicate MemberAlike(w: World, n: nat, file: string, f: Field, g: Field, s: Siblings) {
    forall want, v ::
      Applies(Whole(w, n, file), w, want, KindOf(f.key), f.key, f.value, s, v) <==>
      Applies(Whole(w, 0, ""), w, want, KindOf(g.key), g.key, g.value, s, v)
  }

  lemma Correspondence(w: World, n: nat, file: string, kind: Kind, k: string, a: Json, c: Json, s: Siblings)
    requires Corresponds(Whole(w, n, file), Whole(w, 0, ""), kind, a, c, s, s)
    requires Corresponds(Whole(w, 0, ""), Whole(w, n, file), kind, c, a, s, s)
    ensures forall want, v ::
      Applies(Whole(w, n, file), w, want, kind, k, a, s, v) <==> Applies(Whole(w, 0, ""), w, want, kind, k, c, s, v)
  {
    hide Judge, Applies, Corresponds;
    forall want, v
      ensures Applies(Whole(w, n, file), w, want, kind, k, a, s, v) <==> Applies(Whole(w, 0, ""), w, want, kind, k, c, s, v)
    {
      if Applies(Whole(w, n, file), w, want, kind, k, a, s, v) {
        AppliesCarries(Whole(w, n, file), Whole(w, 0, ""), w, want, kind, k, a, c, s, s, v);
      }
      if Applies(Whole(w, 0, ""), w, want, kind, k, c, s, v) {
        AppliesCarries(Whole(w, 0, ""), Whole(w, n, file), w, want, kind, k, c, a, s, s, v);
      }
    }
  }

  lemma DetachedAlike(w: World, n: nat, file: string, x: Json)
    requires NoReference(x)
    ensures Alike(w, n, file, x, x)
  {
    hide Judge, NoReference;
    forall want, v | Whole(w, n, file)(want, x, v) ensures Whole(w, 0, "")(want, x, v) {
      Detached(w, want, n, file, 0, "", x, v);
    }
    forall want, v | Whole(w, 0, "")(want, x, v) ensures Whole(w, n, file)(want, x, v) {
      Detached(w, want, 0, "", n, file, x, v);
    }
  }

  lemma ConstAlike(w: World, n: nat, file: string, a: Json, s: Siblings)
    ensures MemberAlike(w, n, file, Field("const", a), Field("enum", Arr([a])), s)
  {
    hide Judge, KindOf, Applies;
    KeyKinds();
    forall want, v
      ensures Applies(Whole(w, n, file), w, want, Const, "const", a, s, v) <==>
              Applies(Whole(w, 0, ""), w, want, Enum, "enum", Arr([a]), s, v)
    {
      ConstIsEnum(Whole(w, n, file), Whole(w, 0, ""), w, want, a, s, v);
    }
  }

  lemma ConstIsEnum(judge1: Verdict, judge2: Verdict, w: World, want: bool, a: Json, s: Siblings, v: Json)
    ensures Applies(judge1, w, want, Const, "const", a, s, v) <==> Applies(judge2, w, want, Enum, "enum", Arr([a]), s, v)
  {
    hide Same;
    assert a in [a];
  }

  /** A member that is copied. */
  lemma CopyAlike(w: World, n: nat, file: string, f: Field, s: Siblings)
    requires f.key in FLAT_KEYS && s == Flat(s)
    requires f.key in {"properties", "items"} ==> !f.value.Obj?
    requires f.key in {"anyOf", "oneOf"} ==> !f.value.Arr?
    requires f.key == "additionalProperties" ==> NoReference(f.value)
    ensures MemberAlike(w, n, file, f, f, s)
  {
    hide Judge, Applies, NoReference, Carries;
    FlatKind(f.key);
    if TakesSchema(KindOf(f.key)) {
      assert f.value in Subschemas(KindOf(f.key), f.value, s);
      CopiedSubschema(f, s, f.value);
      DetachedAlike(w, n, file, f.value);
    }
    FlatShapes(f);
    Correspondence(w, n, file, KindOf(f.key), f.key, f.value, f.value, s);
  }

  lemma FlatShapes(f: Field)
    requires f.key in FLAT_KEYS
    requires f.key in {"properties", "items"} ==> !f.value.Obj?
    requires f.key in {"anyOf", "oneOf"} ==> !f.value.Arr?
    ensures KindOf(f.key) == Properties ==> !f.value.Obj?
    ensures TakesList(KindOf(f.key)) ==> !f.value.Arr?
  {
  }

  // ---- The induction ----

  lemma {:induction false} ProjectAlike(w: World, place: Place, n: nat, schema: Fields)
    requires Standard(place, w) && Kept(place, schema) && n >= place.Left()
    ensures Project(place, schema).Ok?
    ensures Alike(w, n, place.file, Obj(schema), Obj(Project(place, schema).value))
    decreases place.Left(), 4
  {
    hide Alike, ResolveRef;
    var ref, types := Get(schema, "$ref"), Get(schema, "type");
    if ref.Some? {
      ReferenceAlike(w, place, n, schema);
    } else if types.Some? && types.value.Arr? {
      VariantsAlike(w, place, n, schema, types.value.items);
    } else {
      ObjectAlike(w, place, n, schema);
    }
  }

  lemma {:induction false} ReferenceAlike(w: World, place: Place, n: nat, schema: Fields)
    requires Standard(place, w) && Kept(place, schema) && n >= place.Left()
    requires Get(schema, "$ref").Some? && At(schema, "$ref").Str?
    ensures Project(place, schema).Ok?
    ensures Alike(w, n, place.file, Obj(schema), Obj(Project(place, schema).value))
    decreases place.Left(), 3
  {
    hide ResolveRef, Judge;
    var target := ResolveRef(place.documents, At(schema, "$ref").s, place.file).value;
    ProjectAlike(w, place.Through(target), n - 1, target.schema);
    forall want, v
      ensures Judge(w, want, n, place.file, Obj(schema), v) <==> Judge(w, want, n - 1, target.file, Obj(target.schema), v)
    {
      OnlyReference(w, want, n, place.file, schema, (target.file, Obj(target.schema)), v);
    }
    var out := Obj(Project(place, schema).value);
    forall want, v | Whole(w, n, place.file)(want, Obj(schema), v) ensures Whole(w, 0, "")(want, out, v) {
      assert Whole(w, n - 1, target.file)(want, Obj(target.schema), v);
    }
    forall want, v | Whole(w, 0, "")(want, out, v) ensures Whole(w, n, place.file)(want, Obj(schema), v) {
      assert Whole(w, n - 1, target.file)(want, Obj(target.schema), v);
    }
  }

  lemma OnlyReference(w: World, want: bool, n: nat, file: string, schema: Fields, target: (string, Json), v: Json)
    requires Keys(schema) == {"$ref"} && At(schema, "$ref").Str? && n > 0
    requires w.resolve(file, At(schema, "$ref").s) == Some(target)
    ensures Judge(w, want, n, file, Obj(schema), v) <==> Judge(w, want, n - 1, target.0, target.1, v)
  {
    hide Applies, Judgement, KindOf;
    KeyKinds();
    assert Keyword(w, want, n, file, schema, "$ref", v) <==> Judge(w, want, n - 1, target.0, target.1, v);
    assert "$ref" in Keys(schema);
  }

  lemma {:induction false} ChildAlike(w: World, place: Place, n: nat, child: Json)
    requires Standard(place, w) && place.depth <= MAX_PROJECTION_DEPTH && KeptChild(place, child) && n >= place.Left()
    ensures ProjectChild(place, child).Ok?
    ensures Alike(w, n, place.file, child, ProjectChild(place, child).value)
    decreases place.Left(), 0
  {
    hide Alike, Kept, Project;
    ProjectAlike(w, place.Below(), n, child.fields);
  }

  lemma {:induction false} ChildrenAlike(w: World, place: Place, n: nat, a: seq<Json>)
    requires Standard(place, w) && place.depth <= MAX_PROJECTION_DEPTH && n >= place.Left()
    requires forall x | x in a :: KeptChild(place, x)
    ensures ProjectChildren(place, a).Ok? && |ProjectChildren(place, a).value| == |a|
    ensures forall i | 0 <= i < |a| :: Alike(w, n, place.file, a[i], ProjectChildren(place, a).value[i])
    decreases place.Left(), 1, |a|
  {
    hide Alike, KeptChild, ProjectChild;
    if a != [] {
      ChildAlike(w, place, n, a[0]);
      assert forall x | x in a[1..] :: x in a;
      ChildrenAlike(w, place, n, a[1..]);
    }
  }

  lemma {:induction false} PropertiesOk(w: World, place: Place, n: nat, a: Fields)
    requires Standard(place, w) && place.depth <= MAX_PROJECTION_DEPTH && n >= place.Left()
    requires forall f | f in a :: KeptChild(place, f.value)
    ensures ProjectProperties(place, a).Ok?
    decreases place.Left(), 1, |a|
  {
    hide Alike, KeptChild, ProjectChild;
    if a != [] {
      ChildAlike(w, place, n, a[0].value);
      assert forall x | x in a[1..] :: x in a;
      PropertiesOk(w, place, n, a[1..]);
    }
  }

  lemma {:induction false} PropertiesAlike(w: World, place: Place, n: nat, a: Fields)
    requires Standard(place, w) && place.depth <= MAX_PROJECTION_DEPTH && n >= place.Left()
    requires forall f | f in a :: KeptChild(place, f.value)
    ensures ProjectProperties(place, a).Ok?
    ensures var c := ProjectProperties(place, a).value;
      Keys(c) == Keys(a) && forall p | p in Keys(a) :: Alike(w, n, place.file, At(a, p), At(c, p))
    decreases place.Left(), 2, 0
  {
    hide Alike, KeptChild, ProjectChild;
    PropertiesOk(w, place, n, a);
    var c := ProjectProperties(place, a).value;
    forall p ensures p in Keys(c) <==> p in Keys(a) {
      PropertyProjected(place, a, p);
    }
    forall p | p in Keys(a) ensures Alike(w, n, place.file, At(a, p), At(c, p)) {
      PropertyProjected(place, a, p);
      assert Field(p, At(a, p)) in a;
      ChildAlike(w, place, n, At(a, p));
    }
  }

  lemma {:induction false} MemberKeptAlike(w: World, place: Place, n: nat, f: Field, s: Siblings) returns (g: Field)
    requires Standard(place, w) && place.depth <= MAX_PROJECTION_DEPTH && n >= place.Left() && s == Flat(s)
    requires KeptMember(place, f) && f.key in KEPT_KEYS
    ensures ProjectMember(place, f) == Ok(Some(g)) && MemberAlike(w, n, place.file, f, g, s)
    ensures g.key == if f.key == "const" then "enum" else f.key
    ensures g.key == "properties" ==>
      Keys(ObjectFields(Some(g.value))) == Keys(ObjectFields(Some(f.value)))
    decreases place.Left(), 2, 2
  {
    hide MemberAlike, NoReference, Kept, Project, Judge;
    if f.key == "const" {
      ConstAlike(w, n, place.file, f.value, s);
      g := Field("enum", Arr([f.value]));
    } else if Applied(f) {
      g := AppliedAlike(w, place, n, f, s);
    } else {
      CopyAlike(w, n, place.file, f, s);
      g := f;
    }
  }

  lemma {:induction false} AppliedAlike(w: World, place: Place, n: nat, f: Field, s: Siblings) returns (g: Field)
    requires Standard(place, w) && place.depth <= MAX_PROJECTION_DEPTH && n >= place.Left() && s == Flat(s)
    requires KeptMember(place, f) && Applied(f)
    ensures ProjectMember(place, f) == Ok(Some(g)) && MemberAlike(w, n, place.file, f, g, s)
    ensures g.key == f.key
    ensures g.key == "properties" ==> g.value.Obj? && f.value.Obj? && Keys(g.value.fields) == Keys(f.value.fields)
    decreases place.Left(), 2, 1
  {
    hide NoReference, Kept, Project, Judge, Applies, Carries, KindOf;
    KeyKinds();
    if f.key == "properties" {
      PropertiesAlike(w, place, n, f.value.fields);
      g := Field(f.key, Obj(ProjectProperties(place, f.value.fields).value));
    } else if f.key == "items" {
      ChildAlike(w, place, n, f.value);
      g := Field(f.key, ProjectChild(place, f.value).value);
    } else {
      ChildrenAlike(w, place, n, f.value.items);
      g := Field(f.key, Arr(ProjectChildren(place, f.value.items).value));
    }
    Correspondence(w, n, place.file, KindOf(f.key), f.key, f.value, g.value, s);
  }

  // ---- Whole objects ----

  lemma {:induction false} AllMembersOk(place: Place, members: Fields)
    requires place.depth <= MAX_PROJECTION_DEPTH && forall f | f in members :: ProjectMember(place, f).Ok?
    ensures ProjectMembers(place, members).Ok?
  {
    hide ProjectMember;
    if members != [] {
      AllMembersOk(place, members[..|members| - 1]);
      assert members[|members| - 1] in members;
    }
  }

  /** The key under which the base keeps a keyword. */
  function KeyIn(k: string): string {
    if k == "const" then "enum" else k
  }

  /** Each keyword of a kept object stands in the base, under its key there, and nothing else does. */
  lemma {:induction false} BaseKeeps(w: World, place: Place, n: nat, schema: Fields, s: Siblings)
    requires Standard(place, w) && place.depth <= MAX_PROJECTION_DEPTH && n >= place.Left()
    requires KeptObject(place, schema) && s == Flat(s)
    ensures ProjectMembers(place, schema).Ok?
    ensures var base := ProjectMembers(place, schema).value;
      && (forall k | k in Keys(schema) ::
            KeyIn(k) in Keys(base)
            && MemberAlike(w, n, place.file, Field(k, At(schema, k)), Field(KeyIn(k), At(base, KeyIn(k))), s))
      && (forall k | k in Keys(base) :: exists j | j in Keys(schema) :: KeyIn(j) == k)
      && PropertyNames(base) == PropertyNames(schema)
    decreases place.Left(), 3, 1
  {
    hide ProjectMember, KeptMember, MemberAlike, Distinct, KEPT_KEYS;
    forall f | f in schema ensures ProjectMember(place, f).Ok? {
      var g := MemberKeptAlike(w, place, n, f, s);
    }
    AllMembersOk(place, schema);
    MembersWritten(place, schema);
    var base := ProjectMembers(place, schema).value;
    forall k | k in Keys(base) ensures exists j | j in Keys(schema) :: KeyIn(j) == k {
      var f :| f in schema && ProjectMember(place, f) == Ok(Some(Field(k, At(base, k))));
      var g := MemberKeptAlike(w, place, n, f, s);
      assert f.key in Keys(schema) && KeyIn(f.key) == k;
    }
    forall k | k in Keys(schema)
      ensures KeyIn(k) in Keys(base)
      ensures MemberAlike(w, n, place.file, Field(k, At(schema, k)), Field(KeyIn(k), At(base, KeyIn(k))), s)
      ensures k == "properties" ==>
        Keys(ObjectFields(Some(At(base, k)))) == Keys(ObjectFields(Some(At(schema, k))))
    {
      var f := Field(k, At(schema, k));
      var g := MemberKeptAlike(w, place, n, f, s);
      var h :| h in schema && ProjectMember(place, h) == Ok(Some(Field(g.key, At(base, g.key))));
      var g' := MemberKeptAlike(w, place, n, h, s);
      DistinctAt(schema, h);
      assert h.key == k;
    }
    assert "properties" in Keys(base) ==> "properties" in Keys(schema);
  }

  lemma {:induction false} ObjectAlike(w: World, place: Place, n: nat, schema: Fields)
    requires Standard(place, w) && Kept(place, schema) && n >= place.Left()
    requires Get(schema, "$ref").None? && (Get(schema, "type").Some? ==> !At(schema, "type").Arr?)
    ensures Project(place, schema).Ok?
    ensures Alike(w, n, place.file, Obj(schema), Obj(Project(place, schema).value))
    decreases place.Left(), 3, 2
  {
    hide Judge, ProjectMembers, KeptMember, Distinct, MemberAlike, SiblingsOf, KindOf;
    var s := SiblingsOf(schema);
    KeptSiblings(schema);
    BaseKeeps(w, place, n, schema, s);
    var base := ProjectMembers(place, schema).value;
    NoBranches(place, schema);
    BaseSiblings(base, schema);
    assert Project(place, schema) == Ok(base);
    forall want, v | Whole(w, n, place.file)(want, Obj(schema), v) ensures Whole(w, 0, "")(want, Obj(base), v) {
      BaseVerdict(w, want, n, place.file, schema, base, v);
    }
    forall want, v | Whole(w, 0, "")(want, Obj(base), v) ensures Whole(w, n, place.file)(want, Obj(schema), v) {
      BaseVerdict(w, want, n, place.file, schema, base, v);
    }
  }

  lemma KeptSiblings(schema: Fields)
    requires Keys(schema) <= KEPT_KEYS
    ensures SiblingsOf(schema) == Siblings(PropertyNames(schema), 0, None, None)
    ensures "allOf" !in Keys(schema) && "$ref" !in Keys(schema) && "unevaluatedProperties" !in Keys(schema)
  {
    assert "unevaluatedProperties" !in KEPT_KEYS;
    assert "then" !in KEPT_KEYS && "else" !in KEPT_KEYS && "prefixItems" !in KEPT_KEYS;
    assert "allOf" !in KEPT_KEYS && "$ref" !in KEPT_KEYS;
  }

  lemma NoBranches(place: Place, schema: Fields)
    requires place.depth <= MAX_PROJECTION_DEPTH && "allOf" !in Keys(schema)
    ensures ProjectBranches(place, ArrayItems(Get(schema, "allOf"))) == Ok([])
  {
  }

  lemma BaseSiblings(base: Fields, schema: Fields)
    requires Keys(schema) <= KEPT_KEYS && PropertyNames(base) == PropertyNames(schema)
    requires forall k | k in Keys(base) :: exists j | j in Keys(schema) :: KeyIn(j) == k
    ensures SiblingsOf(base) == SiblingsOf(schema) && Keys(base) <= FLAT_KEYS && "$ref" !in Keys(base)
  {
    KeptSiblings(schema);
    forall k | k in Keys(base) ensures k in FLAT_KEYS {
      var j :| j in Keys(schema) && KeyIn(j) == k;
    }
    FlatSiblings(base);
    assert "$ref" !in FLAT_KEYS;
  }

  lemma BaseVerdict(w: World, want: bool, n: nat, file: string, schema: Fields, base: Fields, v: Json)
    requires Keys(schema) <= KEPT_KEYS && Keys(base) <= FLAT_KEYS && SiblingsOf(base) == SiblingsOf(schema)
    requires forall k | k in Keys(schema) ::
      KeyIn(k) in Keys(base)
      && MemberAlike(w, n, file, Field(k, At(schema, k)), Field(KeyIn(k), At(base, KeyIn(k))), SiblingsOf(schema))
    requires forall k | k in Keys(base) :: exists j | j in Keys(schema) :: KeyIn(j) == k
    ensures Judge(w, want, n, file, Obj(schema), v) <==> Judge(w, want, 0, "", Obj(base), v)
  {
    hide Keyword, SiblingsOf, KindOf, Applies, KEPT_KEYS, FLAT_KEYS;
    forall k | k in Keys(schema)
      ensures Keyword(w, want, n, file, schema, k, v) <==> Keyword(w, want, 0, "", base, KeyIn(k), v)
    {
      assert k != "$ref" && k != "unevaluatedProperties" && KeyIn(k) != "$ref" && KeyIn(k) != "unevaluatedProperties" by {
        KeptSiblings(schema);
      }
      assert MemberAlike(w, n, file, Field(k, At(schema, k)), Field(KeyIn(k), At(base, KeyIn(k))), SiblingsOf(schema));
      KeywordWhole(w, want, n, file, schema, k, v);
      KeywordWhole(w, want, 0, "", base, KeyIn(k), v);
    }
    VerdictByMembers(w, want, n, file, schema, base, v);
  }

  lemma VerdictByMembers(w: World, want: bool, n: nat, file: string, schema: Fields, base: Fields, v: Json)
    requires forall k | k in Keys(schema) ::
      KeyIn(k) in Keys(base) && (Keyword(w, want, n, file, schema, k, v) <==> Keyword(w, want, 0, "", base, KeyIn(k), v))
    requires forall k | k in Keys(base) :: exists j | j in Keys(schema) :: KeyIn(j) == k
    ensures Judge(w, want, n, file, Obj(schema), v) <==> Judge(w, want, 0, "", Obj(base), v)
  {
    hide Keyword, KeyIn;
    if want {
      if Judge(w, true, n, file, Obj(schema), v) {
        forall k | k in Keys(base) ensures Keyword(w, true, 0, "", base, k, v) {
          var j :| j in Keys(schema) && KeyIn(j) == k;
        }
      }
    } else {
      if k :| k in Keys(schema) && Keyword(w, false, n, file, schema, k, v) {
        assert Keyword(w, false, 0, "", base, KeyIn(k), v);
      }
      if k :| k in Keys(base) && Keyword(w, false, 0, "", base, k, v) {
        var j :| j in Keys(schema) && KeyIn(j) == k;
      }
    }
  }

  // ---- A list of types ----

  lemma {:induction false} VariantsOk(w: World, place: Place, n: nat, schema: Fields, types: seq<Json>)
    requires Standard(place, w) && place.depth <= MAX_PROJECTION_DEPTH && n >= place.Left()
    requires forall t | t in types :: Kept(place.Below(), Put(schema, "type", t))
    ensures ProjectVariants(place, schema, types).Ok?
    decreases place.Left(), 2, |types|
  {
    hide Kept, Project, Alike;
    if types != [] {
      ProjectAlike(w, place.Below(), n, Put(schema, "type", types[0]));
      assert forall t | t in types[1..] :: t in types;
      VariantsOk(w, place, n, schema, types[1..]);
    }
  }

  lemma {:induction false} VariantsAlike(w: World, place: Place, n: nat, schema: Fields, types: seq<Json>)
    requires Standard(place, w) && Kept(place, schema) && n >= place.Left()
    requires Get(schema, "$ref").None? && Get(schema, "type") == Some(Arr(types))
    ensures Project(place, schema).Ok?
    ensures Alike(w, n, place.file, Obj(schema), Obj(Project(place, schema).value))
    decreases place.Left(), 3, 2
  {
    hide Judge, Put;
    VariantsOk(w, place, n, schema, types);
    var variants := ProjectVariants(place, schema, types).value;
    VariantProjected(place, schema, types, 0);
    forall i | 0 <= i < |types|
      ensures Alike(w, n, place.file, Obj(Put(schema, "type", types[i])), variants[i])
    {
      VariantProjected(place, schema, types, i);
      ProjectAlike(w, place.Below(), n, Put(schema, "type", types[i]));
    }
    hide Kept, ProjectVariants;
    assert Project(place, schema) == Ok([Field("anyOf", Arr(variants))]);
    forall want, v
      ensures Judge(w, want, n, place.file, Obj(schema), v) <==>
              Judge(w, want, 0, "", Obj([Field("anyOf", Arr(variants))]), v)
    {
      VariantsVerdict(w, want, n, place.file, schema, types, variants, v);
    }
  }

  lemma VariantsVerdict(
    w: World, want: bool, n: nat, file: string, schema: Fields, types: seq<Json>, variants: seq<Json>, v: Json)
    requires Get(schema, "type") == Some(Arr(types)) && (forall t | t in types :: t.Str?) && "$ref" !in Keys(schema)
    requires |variants| == |types|
    requires forall i | 0 <= i < |types| :: Alike(w, n, file, Obj(Put(schema, "type", types[i])), variants[i])
    ensures Judge(w, want, n, file, Obj(schema), v) <==> Judge(w, want, 0, "", Obj([Field("anyOf", Arr(variants))]), v)
  {
    hide Judge, Put;
    TypesSplit(w, want, n, file, schema, types, v);
    AnyOfVerdict(w, want, variants, v);
    forall i | 0 <= i < |types|
      ensures Judge(w, want, n, file, Obj(Put(schema, "type", types[i])), v) <==> Judge(w, want, 0, "", variants[i], v)
    {
      assert Alike(w, n, file, Obj(Put(schema, "type", types[i])), variants[i]);
      assert Whole(w, n, file)(want, Obj(Put(schema, "type", types[i])), v) <==> Whole(w, 0, "")(want, variants[i], v);
    }
  }

  lemma AnyOfVerdict(w: World, want: bool, branches: seq<Json>, v: Json)
    ensures Judge(w, want, 0, "", Obj([Field("anyOf", Arr(branches))]), v) <==>
      if want then exists i | 0 <= i < |branches| :: Judge(w, true, 0, "", branches[i], v)
      else forall i | 0 <= i < |branches| :: Judge(w, false, 0, "", branches[i], v)
  {
    var fields := [Field("anyOf", Arr(branches))];
    assert Get(fields, "anyOf") == Some(Arr(branches)) && Keys(fields) == {"anyOf"};
    hide KindOf, SiblingsOf, Get, Keys, Judge, Keyword, Applies;
    KeyKinds();
    OneKeyword(w, want, 0, "", fields, "anyOf", v);
    KeywordWhole(w, want, 0, "", fields, "anyOf", v);
    AnyOfApplies(Whole(w, 0, ""), w, want, branches, SiblingsOf(fields), v);
    assert forall b, x :: Whole(w, 0, "")(b, x, v) <==> Judge(w, b, 0, "", x, v);
  }

  lemma AnyOfApplies(judge: Verdict, w: World, want: bool, branches: seq<Json>, s: Siblings, v: Json)
    ensures Applies(judge, w, want, AnyOf, "anyOf", Arr(branches), s, v) <==>
      if want then exists i | 0 <= i < |branches| :: judge(true, branches[i], v)
      else forall i | 0 <= i < |branches| :: judge(false, branches[i], v)
  {
  }

  lemma OneKeyword(w: World, want: bool, n: nat, file: string, fields: Fields, k: string, v: Json)
    requires Keys(fields) == {k}
    ensures k in Keys(fields)
    ensures Judge(w, want, n, file, Obj(fields), v) <==> Keyword(w, want, n, file, fields, k, v)
  {
    hide Keyword;
    assert k in Keys(fields);
  }

  /** A schema with a list of types accepts what it accepts with one of them, and rejects what it rejects
      with all of them. */
  lemma TypesSplit(w: World, want: bool, n: nat, file: string, schema: Fields, types: seq<Json>, v: Json)
    requires Get(schema, "type") == Some(Arr(types)) && (forall t | t in types :: t.Str?) && "$ref" !in Keys(schema)
    ensures Judge(w, want, n, file, Obj(schema), v) <==>
      if want then exists i | 0 <= i < |types| :: Judge(w, true, n, file, Obj(Put(schema, "type", types[i])), v)
      else forall i | 0 <= i < |types| :: Judge(w, false, n, file, Obj(Put(schema, "type", types[i])), v)
  {
    hide Judge;
    if want {
      if Judge(w, true, n, file, Obj(schema), v) {
        TypeKept(w, n, file, schema, v);
        var i :| 0 <= i < |types| && types[i].Str? && HasType(types[i].s, v);
        VariantAccepts(w, n, file, schema, types, types[i], v);
      }
      forall i | 0 <= i < |types| && Judge(w, true, n, file, Obj(Put(schema, "type", types[i])), v)
        ensures Judge(w, true, n, file, Obj(schema), v)
      {
        VariantAccepted(w, n, file, schema, types, types[i], v);
      }
    } else {
      forall i | 0 <= i < |types| && Judge(w, false, n, file, Obj(schema), v)
        ensures Judge(w, false, n, file, Obj(Put(schema, "type", types[i])), v)
      {
        VariantRejects(w, n, file, schema, types, types[i], v);
      }
      if forall i | 0 <= i < |types| :: Judge(w, false, n, file, Obj(Put(schema, "type", types[i])), v) {
        if TypeAllows(Arr(types), v) {
          var i :| 0 <= i < |types| && types[i].Str? && HasType(types[i].s, v);
          VariantRejected(w, n, file, schema, types, types[i], v);
        } else {
          TypeRejects(w, n, file, schema, v);
        }
      }
    }
  }

  lemma TypeRejects(w: World, n: nat, file: string, schema: Fields, v: Json)
    requires "type" in Keys(schema) && !TypeAllows(At(schema, "type"), v)
    ensures Judge(w, false, n, file, Obj(schema), v)
  {
    hide Keyword, TypeAllows;
    TypeKeyword(w, false, n, file, schema, v);
  }

  lemma VariantKeyword(w: World, want: bool, n: nat, file: string, schema: Fields, t: Json, k: string, v: Json)
    requires k in Keys(schema) && "type" in Keys(schema) && t.Str? && "$ref" !in Keys(schema)
    ensures k in Keys(Put(schema, "type", t))
    ensures k != "type" ==>
      (Keyword(w, want, n, file, schema, k, v) <==> Keyword(w, want, n, file, Put(schema, "type", t), k, v))
    ensures k == "type" ==>
      (Keyword(w, want, n, file, Put(schema, "type", t), k, v) <==> HasType(t.s, v) == want)
  {
    hide Keyword, KindOf, SiblingsOf, SameEvaluators, Get, Keys;
    var variant := Put(schema, "type", t);
    if k == "type" {
      TypeKeyword(w, want, n, file, variant, v);
    } else {
      ReferenceKey(k);
      TypeReplaced(schema, t);
      KeywordStays(w, want, n, file, schema, variant, k, v);
    }
  }

  lemma KeywordStays(w: World, want: bool, n: nat, file: string, f: Fields, g: Fields, k: string, v: Json)
    requires k in Keys(f) && k in Keys(g) && KindOf(k) != Reference && Get(f, k) == Get(g, k)
    requires SiblingsOf(f) == SiblingsOf(g) && SameEvaluators(f, g)
    ensures Keyword(w, want, n, file, f, k, v) <==> Keyword(w, want, n, file, g, k, v)
  {
    hide Keyword, KindOf, SiblingsOf, Get, Keys;
    if Keyword(w, want, n, file, f, k, v) {
      SameKeyword(w, want, n, file, f, g, k, v);
    }
    if Keyword(w, want, n, file, g, k, v) {
      SameKeyword(w, want, n, file, g, f, k, v);
    }
  }

  lemma VariantAccepts(w: World, n: nat, file: string, schema: Fields, types: seq<Json>, t: Json, v: Json)
    requires Get(schema, "type") == Some(Arr(types)) && "$ref" !in Keys(schema) && t.Str? && HasType(t.s, v)
    requires Judge(w, true, n, file, Obj(schema), v)
    ensures Judge(w, true, n, file, Obj(Put(schema, "type", t)), v)
  {
    hide Keyword, HasType;
    forall k | k in Keys(Put(schema, "type", t)) ensures Keyword(w, true, n, file, Put(schema, "type", t), k, v) {
      VariantKeyword(w, true, n, file, schema, t, k, v);
    }
  }

  lemma VariantAccepted(w: World, n: nat, file: string, schema: Fields, types: seq<Json>, t: Json, v: Json)
    requires Get(schema, "type") == Some(Arr(types)) && "$ref" !in Keys(schema) && t.Str? && t in types
    requires Judge(w, true, n, file, Obj(Put(schema, "type", t)), v)
    ensures Judge(w, true, n, file, Obj(schema), v)
  {
    hide Keyword, HasType;
    TypeKeyword(w, true, n, file, schema, v);
    forall k | k in Keys(schema) ensures Keyword(w, true, n, file, schema, k, v) {
      VariantKeyword(w, true, n, file, schema, t, k, v);
    }
  }

  lemma VariantRejects(w: World, n: nat, file: string, schema: Fields, types: seq<Json>, t: Json, v: Json)
    requires Get(schema, "type") == Some(Arr(types)) && "$ref" !in Keys(schema) && t.Str? && t in types
    requires Judge(w, false, n, file, Obj(schema), v)
    ensures Judge(w, false, n, file, Obj(Put(schema, "type", t)), v)
  {
    hide Keyword, HasType;
    TypeKeyword(w, false, n, file, schema, v);
    var k :| k in Keys(schema) && Keyword(w, false, n, file, schema, k, v);
    VariantKeyword(w, false, n, file, schema, t, k, v);
    assert Keyword(w, false, n, file, Put(schema, "type", t), k, v);
  }

  lemma VariantRejected(w: World, n: nat, file: string, schema: Fields, types: seq<Json>, t: Json, v: Json)
    requires Get(schema, "type") == Some(Arr(types)) && "$ref" !in Keys(schema) && t.Str? && HasType(t.s, v)
    requires Judge(w, false, n, file, Obj(Put(schema, "type", t)), v)
    ensures Judge(w, false, n, file, Obj(schema), v)
  {
    hide Keyword, HasType;
    var k :| k in Keys(Put(schema, "type", t)) && Keyword(w, false, n, file, Put(schema, "type", t), k, v);
    VariantKeyword(w, false, n, file, schema, t, k, v);
    assert Keyword(w, false, n, file, schema, k, v);
  }

  // ---- The theorem ----

  /** On kept schemas the projection succeeds, and accepts and rejects exactly what the contract does. */
  lemma ProjectionKeepsMeaning(place: Place, assertion: AssertionKeywords, schema: Fields, v: Json)
    requires Kept(place, schema)
    ensures Project(place, schema).Ok?
    ensures var w, out := WorldOf(place.documents, assertion), Obj(Project(place, schema).value);
      && (Accepts(w, place.file, Obj(schema), v) <==> Admits(w, out, v))
      && (Rejects(w, place.file, Obj(schema), v) <==> Judge(w, false, 0, "", out, v))
  {
    hide Judge, Kept, Project;
    var w := WorldOf(place.documents, assertion);
    var least := place.Left();
    ProjectAlike(w, place, least, schema);
    var out := Obj(Project(place, schema).value);
    forall want, n: nat | Judge(w, want, n, place.file, Obj(schema), v) ensures Judge(w, want, 0, "", out, v) {
      var more := n + least;
      JudgeMonotone(w, want, n, more, place.file, Obj(schema), v);
      ProjectAlike(w, place, more, schema);
      assert Whole(w, more, place.file)(want, Obj(schema), v);
    }
    forall want | Judge(w, want, 0, "", out, v) ensures Judge(w, want, least, place.file, Obj(schema), v) {
      assert Whole(w, 0, "")(want, out, v);
    }
  }
}
