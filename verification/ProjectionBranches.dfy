/** When the projection of a `oneOf` is still a weakening. */
module ProjectionBranches {
  import opened Json
  import opened JsonSchema
  import opened VertexResponseSchema
  import opened ProjectionSoundness
  import opened ProjectionMerge
  import opened ProjectionTheorem
  import opened ProjectionExact

  // ---- What is kept of a schema that is given up on ----

  /** The kept type allows the value. */
  predicate LooseAllows(schema: Fields, v: Json) {
    var t := Get(schema, "type");
    if t == Some(Str("array")) then v.Arr?
    else if t == Some(Str("object")) || Truthy(Get(schema, "properties")) then v.Obj?
    else
      match t
      case Some(Arr(types)) => exists x | x in types :: x.Str? ==> HasType(x.s, v)
      case Some(Str(name)) => HasType(name, v)
      case _ => true
  }

  predicate BranchAllows(branch: Json, v: Json) {
    branch.Obj? ==> LooseAllows(branch.fields, v)
  }

  lemma LooseAdmits(w: World, schema: Fields, v: Json)
    ensures Admits(w, Obj(LooseSchemaFor(schema)), v) <==> LooseAllows(schema, v)
  {
    hide Judge, HasType;
    LooseArrayAdmits(w, v);
    LooseObjectAdmits(w, v);
    var t := Get(schema, "type");
    if t.Some? && t.value.Arr? {
      LooseTypesAdmit(w, t.value.items, v);
    } else {
      TypeOnlyAdmits(w, if t.Some? then t.value else Null, v);
    }
  }

  lemma LooseTypesAdmit(w: World, types: seq<Json>, v: Json)
    ensures
      Admits(w, Obj([Field("anyOf", Arr(seq(|types|, i requires 0 <= i < |types| => OnlyType(types[i]))))]), v) <==>
      exists x | x in types :: x.Str? ==> HasType(x.s, v)
  {
    hide Judge, HasType, OnlyType;
    var branches := seq(|types|, i requires 0 <= i < |types| => OnlyType(types[i]));
    AnyOfVerdict(w, true, branches, v);
    forall i | 0 <= i < |types| ensures Admits(w, branches[i], v) <==> (types[i].Str? ==> HasType(types[i].s, v)) {
      TypeOnlyAdmits(w, types[i], v);
    }
    if x :| x in types && (x.Str? ==> HasType(x.s, v)) {
      var i: nat :| i < |types| && types[i] == x;
      assert Judge(w, true, 0, "", branches[i], v);
    }
  }

  // ---- The keyword ----

  predicate OnlyOneAllows(branches: seq<Json>, v: Json) {
    exists i | 0 <= i < |branches| ::
      BranchAllows(branches[i], v) && forall j | 0 <= j < |branches| && j != i :: !BranchAllows(branches[j], v)
  }

  ghost predicate OnlyOneAdmits(w: World, branches: seq<Json>, v: Json) {
    exists i | 0 <= i < |branches| ::
      Admits(w, branches[i], v) && forall j | 0 <= j < |branches| && j != i :: !Admits(w, branches[j], v)
  }

  /** Of schemas without references, a `oneOf` accepts what exactly one accepts. */
  lemma OneOfDecided(w: World, branches: seq<Json>, s: Siblings, v: Json)
    requires forall x | x in branches :: NoReference(x)
    ensures Applies(Whole(w, 0, ""), w, true, OneOf, "oneOf", Arr(branches), s, v) <==> OnlyOneAdmits(w, branches, v)
  {
    hide Judge, NoReference;
    forall i | 0 <= i < |branches| ensures Judge(w, false, 0, "", branches[i], v) <==> !Admits(w, branches[i], v) {
      JudgeTotal(w, 0, "", branches[i], v);
      JudgeConsistent(w, 0, "", branches[i], v);
    }
    OneOfApplies(Whole(w, 0, ""), w, branches, s, v);
    assert forall b, x :: Whole(w, 0, "")(b, x, v) <==> Judge(w, b, 0, "", x, v);
  }

  lemma OneOfApplies(judge: Verdict, w: World, branches: seq<Json>, s: Siblings, v: Json)
    ensures Applies(judge, w, true, OneOf, "oneOf", Arr(branches), s, v) <==>
      exists i | 0 <= i < |branches| ::
        judge(true, branches[i], v) && forall j | 0 <= j < |branches| && j != i :: judge(false, branches[j], v)
  {
  }

  /** At the depth limit nothing fails, and a branch is replaced by its type. */
  lemma {:induction false} LimitChildren(w: World, place: Place, branches: seq<Json>, i: nat, v: Json)
    requires place.depth == MAX_PROJECTION_DEPTH
    ensures ProjectChildren(place, branches).Ok? && |ProjectChildren(place, branches).value| == |branches|
    ensures i < |branches| ==>
      var c := ProjectChildren(place, branches).value[i];
      NoReference(c) && (Admits(w, c, v) <==> BranchAllows(branches[i], v))
  {
    hide ProjectChild, Judge, NoReference, BranchAllows;
    if branches != [] {
      LimitChild(w, place, branches[0], v);
      LimitChildren(w, place, branches[1..], if i > 0 then i - 1 else 0, v);
    }
  }

  lemma LimitChild(w: World, place: Place, x: Json, v: Json)
    requires place.depth == MAX_PROJECTION_DEPTH
    ensures ProjectChild(place, x).Ok? && NoReference(ProjectChild(place, x).value)
    ensures Admits(w, ProjectChild(place, x).value, v) <==> BranchAllows(x, v)
  {
    hide Judge, NoReference, LooseSchemaFor, LooseAllows, ProjectObject;
    if x.Obj? {
      LooseAdmits(w, x.fields, v);
      LooseGood(x.fields);
      GoodParts(LooseSchemaFor(x.fields));
    } else {
      OnlyTypeGood(Null);
      TypeOnlyAdmits(w, Null, v);
    }
  }

  lemma LimitReferences(w: World, place: Place, branches: seq<Json>)
    requires place.depth == MAX_PROJECTION_DEPTH
    ensures ProjectChildren(place, branches).Ok?
    ensures forall x | x in ProjectChildren(place, branches).value :: NoReference(x)
  {
    hide Judge, NoReference, BranchAllows, ProjectChildren;
    LimitChildren(w, place, branches, 0, Null);
    var c := ProjectChildren(place, branches).value;
    forall x | x in c ensures NoReference(x) {
      var i: nat :| i < |c| && c[i] == x;
      LimitChildren(w, place, branches, i, Null);
    }
  }

  lemma LimitAdmits(w: World, place: Place, branches: seq<Json>, v: Json)
    requires place.depth == MAX_PROJECTION_DEPTH
    ensures ProjectChildren(place, branches).Ok?
    ensures OnlyOneAdmits(w, ProjectChildren(place, branches).value, v) <==> OnlyOneAllows(branches, v)
  {
    hide Judge, NoReference, BranchAllows, ProjectChildren;
    LimitChildren(w, place, branches, 0, v);
    forall i | 0 <= i < |branches|
      ensures Admits(w, ProjectChildren(place, branches).value[i], v) <==> BranchAllows(branches[i], v)
    {
      LimitChildren(w, place, branches, i, v);
    }
  }

  /** At the depth limit the projection of a `oneOf` accepts what the kept type of exactly one branch allows:
      two object branches, whatever else they say, can no longer be told apart. */
  lemma OneOfAtTheLimit(w: World, place: Place, branches: seq<Json>, s: Siblings, v: Json)
    requires place.depth == MAX_PROJECTION_DEPTH
    ensures ProjectChildren(place, branches).Ok?
    ensures Applies(Whole(w, 0, ""), w, true, OneOf, "oneOf", Arr(ProjectChildren(place, branches).value), s, v) <==>
      OnlyOneAllows(branches, v)
  {
    hide Judge, NoReference, Applies, ProjectChildren, OnlyOneAllows, OnlyOneAdmits;
    LimitReferences(w, place, branches);
    LimitAdmits(w, place, branches, v);
    OneOfDecided(w, ProjectChildren(place, branches).value, s, v);
  }

  // ---- The schema around it ----

  /** The schema without the `oneOf`, and without what the projection never reads. */
  function Rest(schema: Fields, k: string): Fields {
    Without(Without(schema, k), "unevaluatedProperties")
  }

  /** What is true of the members of a projected schema is true of them without `k`, which writes only itself. */
  lemma {:induction false} MembersWithout(place: Place, members: Fields, k: string)
    requires place.depth <= MAX_PROJECTION_DEPTH && ProjectMembers(place, members).Ok?
    requires k in {"oneOf", "additionalProperties", "unevaluatedProperties"}
    ensures ProjectMembers(place, Without(members, k)).Ok?
    ensures AllBut(ProjectMembers(place, members).value, ProjectMembers(place, Without(members, k)).value, k)
  {
    hide ProjectMember, Without, Get, Written, AllBut;
    if members == [] {
      NothingBut(k);
    } else {
      var (earlier, f) := (members[..|members| - 1], members[|members| - 1]);
      MembersWithout(place, earlier, k);
      WithoutLast(earlier, f, k);
      assert members == earlier + [f];
      WritesItself(place, f, k);
      var rest := Without(earlier, k);
      assert (rest + [f])[..|rest|] == rest && rest + [] == rest;
      WrittenBut(ProjectMembers(place, earlier).value, ProjectMembers(place, rest).value, k, ProjectMember(place, f).value);
    }
  }

  /** The second object holds what the first does, apart from `k`. */
  ghost predicate AllBut(base: Fields, rest: Fields, k: string) {
    forall j :: Get(rest, j) == (if j == k then None else Get(base, j))
  }

  lemma NothingBut(k: string)
    ensures Without([], k) == [] && AllBut([], [], k)
  {
  }

  lemma WrittenBut(base: Fields, rest: Fields, k: string, member: Option<Field>)
    requires AllBut(base, rest, k)
    ensures member.None? || member.value.key == k ==> AllBut(Written(base, member), rest, k)
    ensures member.None? || member.value.key != k ==> AllBut(Written(base, member), Written(rest, member), k)
  {
    hide Get, Put;
  }

  lemma {:induction false} WithoutLast(earlier: Fields, f: Field, k: string)
    ensures Without(earlier + [f], k) == Without(earlier, k) + if f.key == k then [] else [f]
  {
    if earlier != [] {
      assert (earlier + [f])[1..] == earlier[1..] + [f];
      WithoutLast(earlier[1..], f, k);
    }
  }

  lemma WritesItself(place: Place, f: Field, k: string)
    requires place.depth <= MAX_PROJECTION_DEPTH && ProjectMember(place, f).Ok?
    requires k in {"oneOf", "additionalProperties", "unevaluatedProperties"}
    ensures ProjectMember(place, f).value.Some? ==> (ProjectMember(place, f).value.value.key == k <==> f.key == k)
  {
    hide ProjectChildren, ProjectProperties, ProjectChild;
  }

  /** The schema objects, apart from what `k` says. */
  lemma BaseSplits(w: World, base: Fields, rest: Fields, k: string, v: Json)
    requires Keys(base) <= FLAT_KEYS && AllBut(base, rest, k) && k in Keys(base) && k != "properties"
    ensures Admits(w, Obj(base), v) <==> Admits(w, Obj(rest), v) && Keyword(w, true, 0, "", base, k, v)
  {
    hide Keyword, Get, KindOf, Evaluator;
    RestSiblings(base, rest, k);
    forall j | j in Keys(rest) ensures Keyword(w, true, 0, "", base, j, v) <==> Keyword(w, true, 0, "", rest, j, v) {
      KeywordMoves(w, base, rest, j, v);
    }
    hide SiblingsOf, FLAT_KEYS, AllBut;
    if Admits(w, Obj(rest), v) && Keyword(w, true, 0, "", base, k, v) {
      forall j | j in Keys(base) ensures Keyword(w, true, 0, "", base, j, v) {
        assert j != k ==> j in Keys(rest);
      }
    }
  }

  lemma RestSiblings(base: Fields, rest: Fields, k: string)
    requires Keys(base) <= FLAT_KEYS && AllBut(base, rest, k) && k != "properties"
    ensures Keys(rest) == Keys(base) - {k} && SiblingsOf(rest) == SiblingsOf(base)
  {
    assert forall j :: j in Keys(base) <==> Get(base, j).Some?;
    assert forall j :: j in Keys(rest) <==> Get(rest, j).Some?;
    FlatSiblings(base);
    FlatSiblings(rest);
  }

  lemma KeywordMoves(w: World, base: Fields, rest: Fields, j: string, v: Json)
    requires j in Keys(rest) && j in Keys(base) && j in FLAT_KEYS && Get(rest, j) == Get(base, j)
    requires SiblingsOf(rest) == SiblingsOf(base)
    ensures Keyword(w, true, 0, "", base, j, v) <==> Keyword(w, true, 0, "", rest, j, v)
  {
    hide Keyword, KindOf, SiblingsOf, Get, Keys, SameEvaluators;
    FlatKind(j);
    if Keyword(w, true, 0, "", base, j, v) {
      SameKeyword(w, true, 0, "", base, rest, j, v);
    }
    if Keyword(w, true, 0, "", rest, j, v) {
      SameKeyword(w, true, 0, "", rest, base, j, v);
    }
  }

  /** Whatever the schema accepts, it accepts without `k` and without what the projection never reads. */
  lemma RestAccepts(w: World, n: nat, file: string, schema: Fields, k: string, v: Json)
    requires Judge(w, true, n, file, Obj(schema), v) && k in {"oneOf", "additionalProperties"}
    requires Get(schema, "$ref").Some? ==> !At(schema, "$ref").Str?
    ensures Judge(w, true, n, file, Obj(Rest(schema, k)), v)
  {
    hide Keyword, KindOf, SiblingsOf, Get, SameEvaluators, Rest;
    var rest := Rest(schema, k);
    RestSame(schema, k);
    forall j | j in Keys(rest) ensures Keyword(w, true, n, file, rest, j, v) {
      ReferenceKey(j);
      SameKeyword(w, true, n, file, schema, rest, j, v);
    }
  }

  lemma RestSame(schema: Fields, k: string)
    requires k in {"oneOf", "additionalProperties"}
    ensures SiblingsOf(Rest(schema, k)) == SiblingsOf(schema)
    ensures forall j | j in Keys(Rest(schema, k)) :: j in Keys(schema) && Get(Rest(schema, k), j) == Get(schema, j)
    ensures "unevaluatedProperties" !in Keys(Rest(schema, k))
  {
    hide Without;
  }

  /** A schema object, without references, type lists or parts to merge, whose projection is written member by member. */
  predicate Plain(place: Place, schema: Fields) {
    && place.depth <= MAX_PROJECTION_DEPTH && Distinct(schema)
    && (Get(schema, "$ref").Some? ==> !At(schema, "$ref").Str?)
    && (Get(schema, "type").Some? ==> !At(schema, "type").Arr?)
    && "allOf" !in Keys(schema) && "prefixItems" !in Keys(schema)
  }

  lemma PlainProjects(place: Place, schema: Fields)
    requires Plain(place, schema)
    ensures Project(place, schema) == ProjectMembers(place, schema)
  {
    hide ProjectMembers;
    NoBranches(place, schema);
  }

  lemma PlainRest(place: Place, schema: Fields, k: string)
    requires Plain(place, schema) && k in {"oneOf", "additionalProperties"} && Project(place, schema).Ok?
    ensures Plain(place, Rest(schema, k)) && Project(place, Rest(schema, k)).Ok?
    ensures Get(Project(place, schema).value, "unevaluatedProperties") == None
    ensures AllBut(Project(place, schema).value, Project(place, Rest(schema, k)).value, k)
  {
    hide ProjectMembers, Project, Get, Without;
    DistinctWithout(schema, k);
    DistinctWithout(Without(schema, k), "unevaluatedProperties");
    PlainProjects(place, schema);
    PlainProjects(place, Rest(schema, k));
    MembersWithout(place, schema, k);
    MembersWithout(place, Without(schema, k), "unevaluatedProperties");
    NeverWritten(place, schema);
    NeverWritten(place, Without(schema, k));
  }

  lemma {:induction false} NeverWritten(place: Place, members: Fields)
    requires place.depth <= MAX_PROJECTION_DEPTH && ProjectMembers(place, members).Ok?
    ensures Get(ProjectMembers(place, members).value, "unevaluatedProperties") == None
  {
    hide ProjectMember, Get;
    if members == [] {
      NoMembers();
    } else {
      var f := members[|members| - 1];
      NeverWritten(place, members[..|members| - 1]);
      if ProjectMember(place, f).value.Some? {
        WritesSupported(place, f);
      }
    }
  }

  lemma WritesSupported(place: Place, f: Field)
    requires place.depth <= MAX_PROJECTION_DEPTH && ProjectMember(place, f).Ok? && ProjectMember(place, f).value.Some?
    ensures ProjectMember(place, f).value.value.key in SUPPORTED_KEYS
  {
    hide ProjectChildren, ProjectProperties, ProjectChild;
  }

  /** The member `k` of the projection is what the member `k` of the schema writes. */
  lemma OwnMember(place: Place, schema: Fields, k: string)
    requires Plain(place, schema) && Project(place, schema).Ok? && k in {"oneOf", "additionalProperties"} && k in Keys(schema)
    ensures ProjectMember(place, Field(k, At(schema, k))).Ok? && k in Keys(Project(place, schema).value)
    ensures ProjectMember(place, Field(k, At(schema, k))) == Ok(Some(Field(k, At(Project(place, schema).value, k))))
  {
    hide ProjectMember, Project, Distinct;
    PlainProjects(place, schema);
    var (base, own) := (ProjectMembers(place, schema).value, Field(k, At(schema, k)));
    AllProjected(place, schema, own);
    MembersWritten(place, schema);
    OwnWrites(place, own);
    var f :| f in schema && ProjectMember(place, f) == Ok(Some(Field(k, At(base, k))));
    WritesItself(place, f, k);
    DistinctAt(schema, f);
  }

  lemma OwnWrites(place: Place, f: Field)
    requires place.depth <= MAX_PROJECTION_DEPTH && ProjectMember(place, f).Ok? && f.key in {"oneOf", "additionalProperties"}
    ensures ProjectMember(place, f).value.Some? && ProjectMember(place, f).value.value.key == f.key
    ensures f.key == "oneOf" && f.value.Arr? ==>
      && ProjectChildren(place, f.value.items).Ok?
      && ProjectMember(place, f).value.value.value == Arr(ProjectChildren(place, f.value.items).value)
    ensures f.key == "additionalProperties" ==> ProjectMember(place, f).value.value == f
  {
    hide ProjectChildren, ProjectProperties, ProjectChild;
  }

  lemma PlainKeys(place: Place, schema: Fields)
    requires Plain(place, schema)
    ensures place.depth <= MAX_PROJECTION_DEPTH && (Get(schema, "$ref").Some? ==> !At(schema, "$ref").Str?)
  {
  }

  lemma ProjectedAdmits(w: World, n: nat, file: string, x: Json, y: Json, v: Json)
    requires Projected(w, file, x, y) && Judge(w, true, n, file, x, v)
    ensures Admits(w, y, v)
  {
    hide Judge, NoReference;
    assert Whole(w, n, file)(true, x, v);
    assert Weaker(Whole(w, n, file), Whole(w, 0, ""), x, y);
  }

  /** Apart from `k` the projection is that of the rest, and so holds only flat keywords. */
  lemma FlatProjection(place: Place, schema: Fields, k: string)
    requires Plain(place, schema) && Project(place, schema).Ok?
    ensures Keys(Project(place, schema).value) <= FLAT_KEYS
  {
    hide ProjectMember, Project;
    PlainProjects(place, schema);
    var base := ProjectMembers(place, schema).value;
    MembersWritten(place, schema);
    forall j | j in Keys(base) ensures j in FLAT_KEYS {
      var f :| f in schema && ProjectMember(place, f) == Ok(Some(Field(j, At(base, j))));
      WritesSupported(place, f);
      WritesPrefix(place, f);
    }
  }

  lemma WritesPrefix(place: Place, f: Field)
    requires place.depth <= MAX_PROJECTION_DEPTH && ProjectMember(place, f).Ok? && ProjectMember(place, f).value.Some?
    ensures ProjectMember(place, f).value.value.key == "prefixItems" ==> f.key == "prefixItems"
  {
    hide ProjectChildren, ProjectProperties, ProjectChild;
  }

  /** A value accepted by the schema is accepted by the projection exactly if exactly one projected branch accepts it. */
  lemma AcceptedByOne(w: World, place: Place, schema: Fields, branches: seq<Json>, n: nat, v: Json)
    requires Standard(place, w) && Plain(place, schema) && Project(place, schema).Ok?
    requires Get(schema, "oneOf") == Some(Arr(branches)) && Supported(place, Rest(schema, "oneOf"))
    requires ProjectChildren(place, branches).Ok? && forall x | x in ProjectChildren(place, branches).value :: NoReference(x)
    requires Judge(w, true, n, place.file, Obj(schema), v)
    ensures Admits(w, Obj(Project(place, schema).value), v) <==>
      OnlyOneAdmits(w, ProjectChildren(place, branches).value, v)
  {
    hide Judge, Project, Supported, Plain, Rest, NoReference, Keyword, Get, AllBut, ProjectMember, OnlyOneAdmits;
    var (rest, k) := (Rest(schema, "oneOf"), "oneOf");
    PlainRest(place, schema, k);
    PlainKeys(place, schema);
    RestAccepts(w, n, place.file, schema, k, v);
    ProjectSound(w, place, rest);
    ProjectedAdmits(w, n, place.file, Obj(rest), Obj(Project(place, rest).value), v);
    var out := Project(place, schema).value;
    OwnMember(place, schema, k);
    OwnWrites(place, Field(k, At(schema, k)));
    FlatProjection(place, schema, k);
    BaseSplits(w, out, Project(place, rest).value, k, v);
    KeywordWhole(w, true, 0, "", out, k, v);
    OneOfDecided(w, ProjectChildren(place, branches).value, SiblingsOf(out), v);
    KeyKinds();
  }

  /** The projection of a schema with a `oneOf`, above the limit or at it: where the rest of it is supported, the
      projection is a weakening if and only if each accepted value is accepted by exactly one projected branch. */
  lemma OneOfWeakensExactly(place: Place, assertion: AssertionKeywords, schema: Fields, branches: seq<Json>)
    requires Plain(place, schema) && Project(place, schema).Ok?
    requires Get(schema, "oneOf") == Some(Arr(branches)) && Supported(place, Rest(schema, "oneOf"))
    requires forall x | x in branches :: SupportedChild(place, x)
    ensures ProjectChildren(place, branches).Ok?
    ensures var w, out := WorldOf(place.documents, assertion), Obj(Project(place, schema).value);
      (forall v | Accepts(w, place.file, Obj(schema), v) :: Admits(w, out, v)) <==>
      (forall v | Accepts(w, place.file, Obj(schema), v) :: OnlyOneAdmits(w, ProjectChildren(place, branches).value, v))
  {
    hide Judge, Project, Supported, SupportedChild, Plain, Rest, NoReference, ProjectMember, OnlyOneAdmits, Get;
    var w := WorldOf(place.documents, assertion);
    PlainKeys(place, schema);
    OwnMember(place, schema, "oneOf");
    OwnWrites(place, Field("oneOf", At(schema, "oneOf")));
    ChildrenSound(w, place, 0, branches);
    forall v | Accepts(w, place.file, Obj(schema), v)
      ensures Admits(w, Obj(Project(place, schema).value), v) <==> OnlyOneAdmits(w, ProjectChildren(place, branches).value, v)
    {
      var n: nat :| Judge(w, true, n, place.file, Obj(schema), v);
      AcceptedByOne(w, place, schema, branches, n, v);
    }
  }

  /** At the depth limit the condition is one on the branches as they are written. */
  lemma OneOfAtTheLimitExactly(place: Place, assertion: AssertionKeywords, schema: Fields, branches: seq<Json>)
    requires place.depth == MAX_PROJECTION_DEPTH && Plain(place, schema) && Project(place, schema).Ok?
    requires Get(schema, "oneOf") == Some(Arr(branches)) && Supported(place, Rest(schema, "oneOf"))
    ensures var w, out := WorldOf(place.documents, assertion), Obj(Project(place, schema).value);
      (forall v | Accepts(w, place.file, Obj(schema), v) :: Admits(w, out, v)) <==>
      (forall v | Accepts(w, place.file, Obj(schema), v) :: OnlyOneAllows(branches, v))
  {
    hide Judge, Project, Supported, SupportedChild, Plain, Rest, NoReference, ProjectMember, OnlyOneAdmits, Get;
    hide OnlyOneAllows, BranchAllows, ProjectChildren;
    var w := WorldOf(place.documents, assertion);
    LimitReferences(w, place, branches);
    forall v | Accepts(w, place.file, Obj(schema), v)
      ensures Admits(w, Obj(Project(place, schema).value), v) <==> OnlyOneAllows(branches, v)
    {
      var n: nat :| Judge(w, true, n, place.file, Obj(schema), v);
      AcceptedByOne(w, place, schema, branches, n, v);
      LimitAdmits(w, place, branches, v);
    }
  }

  // ---- Branches that are told apart as they are written ----

  /** The schema object that the projection copies: behind the references, if they resolve, do not come back, and
      leave some depth. */
  function Standing(place: Place, schema: Fields): (r: Option<(Place, Fields)>)
    ensures r.Some? ==> place.depth <= r.value.0.depth <= MAX_PROJECTION_DEPTH
    decreases place.Left()
  {
    if place.depth > MAX_PROJECTION_DEPTH then None
    else
      match Get(schema, "$ref")
      case Some(Str(reference)) =>
        (match ResolveRef(place.documents, reference, place.file)
         case Err(_) => None
         case Ok(target) => if target.key in place.seen then None else Standing(place.Through(target), target.schema))
      case _ =>
        match Get(schema, "type")
        case Some(Arr(_)) => None
        case _ => Some((place, schema))
  }

  /** Where the projection of the schema is written member by member. */
  function Landing(place: Place, schema: Fields): Option<(Place, Fields)> {
    match Standing(place, schema)
    case None => None
    case Some((at, x)) => if Plain(at, x) then Some((at, x)) else None
  }

  /** The texts that a schema allows by `const` or `enum`. */
  function WrittenTexts(place: Place, schema: Fields): Option<seq<Json>> {
    match Landing(place, schema)
    case None => None
    case Some((_, x)) =>
      match (Get(x, "const"), Get(x, "enum"))
      case (Some(c), None) => if c.Str? then Some([c]) else None
      case (None, Some(Arr(texts))) => if forall t | t in texts :: t.Str? then Some(texts) else None
      case _ => None
  }

  /** The texts of the property `tag` in the objects of a schema that requires it. */
  function WrittenTags(place: Place, schema: Fields, tag: string): Option<seq<Json>> {
    match Landing(place, schema)
    case None => None
    case Some((at, x)) =>
      if Get(x, "type") == Some(Str("object")) && Str(tag) in ArrayItems(Get(x, "required")) && Distinct(Props(x))
         && tag in Keys(Props(x)) && At(Props(x), tag).Obj?
      then WrittenTexts(at.Below(), At(Props(x), tag).fields)
      else None
  }

  function WrittenType(place: Place, schema: Fields): Option<string> {
    match Landing(place, schema)
    case None => None
    case Some((_, x)) =>
      match Get(x, "type")
      case Some(Str(name)) => Some(name)
      case _ => None
  }

  /** The branches ask for different types, or for objects with different values of one tag. */
  ghost predicate WrittenApart(place: Place, a: Json, b: Json)
    requires place.depth <= MAX_PROJECTION_DEPTH
  {
    a.Obj? && b.Obj? &&
    var (s, t) := (WrittenType(place.Below(), a.fields), WrittenType(place.Below(), b.fields));
    || (s.Some? && t.Some? && s != t && {s.value, t.value} != {"integer", "number"})
    || exists tag ::
         var (c, d) := (WrittenTags(place.Below(), a.fields, tag), WrittenTags(place.Below(), b.fields, tag));
         c.Some? && d.Some? && forall x | x in c.value :: x !in d.value
  }

  lemma {:induction false} StandingProjects(place: Place, schema: Fields)
    requires Standing(place, schema).Some?
    ensures var (at, x) := Standing(place, schema).value; Project(place, schema) == ProjectObject(at, x)
    decreases place.Left()
  {
    hide ProjectObject, ResolveRef;
    match Get(schema, "$ref")
    case Some(Str(reference)) =>
      var target := ResolveRef(place.documents, reference, place.file).value;
      StandingProjects(place.Through(target), target.schema);
    case _ =>
  }

  lemma LandingProjects(place: Place, schema: Fields)
    requires Landing(place, schema).Some?
    ensures var (at, x) := Landing(place, schema).value;
      Plain(at, x) && Project(place, schema) == ProjectMembers(at, x)
  {
    hide ProjectMembers, Standing, Project;
    StandingProjects(place, schema);
    var (at, x) := Landing(place, schema).value;
    NoBranches(at, x);
  }

  /** A member that is alone in writing its key. */
  lemma WrittenMember(place: Place, schema: Fields, k: string, j: string)
    requires Plain(place, schema) && ProjectMembers(place, schema).Ok? && k in Keys(schema)
    requires forall f | f in schema && ProjectMember(place, f).Ok? && ProjectMember(place, f).value.Some? ::
      ProjectMember(place, f).value.value.key == j <==> f.key == k
    requires ProjectMember(place, Field(k, At(schema, k))).Ok? ==> ProjectMember(place, Field(k, At(schema, k))).value.Some?
    ensures ProjectMember(place, Field(k, At(schema, k))).Ok?
    ensures Get(ProjectMembers(place, schema).value, j) == Some(ProjectMember(place, Field(k, At(schema, k))).value.value.value)
  {
    hide ProjectMember, Distinct;
    var (base, own) := (ProjectMembers(place, schema).value, Field(k, At(schema, k)));
    AllProjected(place, schema, own);
    MembersWritten(place, schema);
    assert j in Keys(base);
    var f :| f in schema && ProjectMember(place, f) == Ok(Some(Field(j, At(base, j))));
    DistinctAt(schema, f);
  }

  /** What a member writes under its own name, or `const` under `enum`. */
  lemma WritesUnder(place: Place, f: Field)
    requires place.depth <= MAX_PROJECTION_DEPTH && ProjectMember(place, f).Ok?
    ensures ProjectMember(place, f).value.Some? ==>
      ProjectMember(place, f).value.value.key == if f.key == "const" then "enum" else f.key
    ensures f.key in {"type", "required", "enum"} ==> ProjectMember(place, f).value == Some(f)
    ensures f.key == "const" ==> ProjectMember(place, f).value == Some(Field("enum", Arr([f.value])))
    ensures f.key == "properties" && f.value.Obj? ==>
      && ProjectProperties(place, f.value.fields).Ok?
      && ProjectMember(place, f).value == Some(Field("properties", Obj(ProjectProperties(place, f.value.fields).value)))
  {
    hide ProjectChildren, ProjectProperties, ProjectChild;
  }

  /** A member of the written schema that the projection carries under its own name. */
  lemma Carried(place: Place, schema: Fields, k: string)
    requires Plain(place, schema) && ProjectMembers(place, schema).Ok? && k in Keys(schema)
    requires k in {"type", "required", "properties", "enum"} && (k == "enum" ==> "const" !in Keys(schema))
    requires k == "properties" ==> At(schema, k).Obj?
    ensures ProjectMember(place, Field(k, At(schema, k))).Ok?
    ensures Get(ProjectMembers(place, schema).value, k) == Some(ProjectMember(place, Field(k, At(schema, k))).value.value.value)
  {
    hide ProjectMember, Plain;
    assert place.depth <= MAX_PROJECTION_DEPTH by { PlainKeys(place, schema); }
    forall f | f in schema && ProjectMember(place, f).Ok? && ProjectMember(place, f).value.Some?
      ensures ProjectMember(place, f).value.value.key == k <==> f.key == k
    {
      WritesUnder(place, f);
    }
    if ProjectMember(place, Field(k, At(schema, k))).Ok? {
      WritesUnder(place, Field(k, At(schema, k)));
    }
    WrittenMember(place, schema, k, k);
  }

  lemma TypeCarried(place: Place, schema: Fields)
    requires WrittenType(place, schema).Some? && Project(place, schema).Ok?
    ensures Get(Project(place, schema).value, "type") == Some(Str(WrittenType(place, schema).value))
  {
    hide ProjectMember, Project, Plain, Landing, Standing, ProjectMembers;
    LandingProjects(place, schema);
    var (at, x) := Landing(place, schema).value;
    PlainKeys(at, x);
    Carried(at, x, "type");
    WritesUnder(at, Field("type", At(x, "type")));
  }

  lemma TextsCarried(place: Place, schema: Fields)
    requires WrittenTexts(place, schema).Some? && Project(place, schema).Ok?
    ensures Get(Project(place, schema).value, "enum") == Some(Arr(WrittenTexts(place, schema).value))
    ensures forall t | t in WrittenTexts(place, schema).value :: t.Str?
  {
    hide ProjectMember, Project, Plain, Landing, Standing, ProjectMembers;
    LandingProjects(place, schema);
    var (at, x) := Landing(place, schema).value;
    PlainKeys(at, x);
    if "const" in Keys(x) {
      forall f | f in x && ProjectMember(at, f).Ok? && ProjectMember(at, f).value.Some?
        ensures ProjectMember(at, f).value.value.key == "enum" <==> f.key == "const"
      {
        WritesUnder(at, f);
      }
      if ProjectMember(at, Field("const", At(x, "const"))).Ok? {
        WritesUnder(at, Field("const", At(x, "const")));
      }
      WrittenMember(at, x, "const", "enum");
    } else {
      Carried(at, x, "enum");
      WritesUnder(at, Field("enum", At(x, "enum")));
    }
  }

  lemma TagsCarried(place: Place, schema: Fields, tag: string)
    requires WrittenTags(place, schema, tag).Some? && Project(place, schema).Ok?
    ensures Tags(Project(place, schema).value, tag) == WrittenTags(place, schema, tag)
  {
    hide ProjectMember, Project, Plain, Landing, Standing, ProjectMembers, ProjectProperties, WrittenTexts, Distinct, Get;
    LandingProjects(place, schema);
    var (at, x) := Landing(place, schema).value;
    PlainKeys(at, x);
    TypeCarried(place, schema);
    Carried(at, x, "required");
    WritesUnder(at, Field("required", At(x, "required")));
    Carried(at, x, "properties");
    WritesUnder(at, Field("properties", At(x, "properties")));
    PropertyProjected(at, Props(x), tag);
    var child := At(Props(x), tag).fields;
    assert ProjectChild(at, Obj(child)) == Ok(At(ProjectProperties(at, Props(x)).value, tag));
    TextsCarried(at.Below(), child);
  }

  /** Branches that are apart as they are written stay apart in the projection. */
  lemma WrittenApartStays(place: Place, a: Json, b: Json)
    requires place.depth <= MAX_PROJECTION_DEPTH && WrittenApart(place, a, b)
    requires ProjectChild(place, a).Ok? && ProjectChild(place, b).Ok?
    ensures Discriminated(ProjectChild(place, a).value, ProjectChild(place, b).value)
  {
    hide Project, WrittenType, WrittenTags, Tags, Get;
    var below := place.Below();
    var (s, t) := (WrittenType(below, a.fields), WrittenType(below, b.fields));
    if s.Some? && t.Some? && s != t && {s.value, t.value} != {"integer", "number"} {
      TypeCarried(below, a.fields);
      TypeCarried(below, b.fields);
      assert ExclusiveTypes(ProjectChild(place, a).value.fields, ProjectChild(place, b).value.fields);
    } else {
      var tag :| WrittenTags(below, a.fields, tag).Some? && WrittenTags(below, b.fields, tag).Some?
        && forall x | x in WrittenTags(below, a.fields, tag).value :: x !in WrittenTags(below, b.fields, tag).value;
      TagsCarried(below, a.fields, tag);
      TagsCarried(below, b.fields, tag);
    }
  }

  /** A `oneOf` whose written branches are pairwise apart is supported, so that its projection is a weakening. */
  lemma WrittenApartSupported(place: Place, branches: seq<Json>)
    requires place.depth <= MAX_PROJECTION_DEPTH && forall x | x in branches :: SupportedChild(place, x)
    requires forall i, j | 0 <= i < |branches| && 0 <= j < |branches| && i != j ::
      WrittenApart(place, branches[i], branches[j])
    ensures SupportedMember(place, Field("oneOf", Arr(branches)))
  {
    hide ProjectChild, WrittenApart, SupportedChild, Discriminated;
    if ProjectChildren(place, branches).Ok? {
      var c := ProjectChildren(place, branches).value;
      ChildProjected(place, branches, 0);
      forall i, j | 0 <= i < |c| && 0 <= j < |c| && i != j ensures Discriminated(c[i], c[j]) {
        ChildProjected(place, branches, i);
        ChildProjected(place, branches, j);
        WrittenApartStays(place, branches[i], branches[j]);
      }
    }
  }
}
