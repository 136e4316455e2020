/** Contracts whose projection is not a weakening. */
module ProjectionLimits {
  import opened Json
  import opened JsonSchema
  import opened VertexResponseSchema
  import opened ProjectionSoundness
  import opened ProjectionMerge
  import opened ProjectionTheorem
  import opened ProjectionExact

  // ---- oneOf ----

  /** The same schema for two branches: no value is accepted by exactly one of them. */
  lemma TwinsRejectAll(w: World, x: Json, v: Json)
    ensures !Admits(w, Obj([Field("oneOf", Arr([x, x]))]), v)
  {
    hide Keyword, KindOf;
    var fields := [Field("oneOf", Arr([x, x]))];
    assert Get(fields, "oneOf") == Some(Arr([x, x]));
    if Judge(w, true, 0, "", Obj(fields), v) {
      MemberAdmits(w, fields, "oneOf", v);
      TwinsConflict(w, fields, x, v);
    }
  }

  lemma TwinsConflict(w: World, fields: Fields, x: Json, v: Json)
    requires Get(fields, "oneOf") == Some(Arr([x, x]))
    ensures !Keyword(w, true, 0, "", fields, "oneOf", v)
  {
    hide Judge, KindOf, SiblingsOf;
    KeyKinds();
    JudgeConsistent(w, 0, "", x, v);
    var judge := Judgement(w, 0, "", 1 + SizeFields(fields));
    assert !(judge(true, x, v) && judge(false, x, v));
    assert [x, x][0] == x && [x, x][1] == x;
  }

  /** A schema of one member projects to what that member writes. */
  lemma SingleMember(place: Place, f: Field, g: Field)
    requires place.depth <= MAX_PROJECTION_DEPTH && f.key !in {"$ref", "type", "allOf"}
    requires ProjectMember(place, f) == Ok(Some(g))
    ensures Project(place, [f]) == Ok([g])
  {
    hide ProjectMember;
    assert [f][..0] == [];
    assert Put([], g.key, g.value) == [g];
    assert ProjectMembers(place, [f]) == Ok([g]);
    assert Get([f], "$ref") == None && Get([f], "type") == None && Get([f], "allOf") == None;
    assert ProjectBranches(place, []) == Ok([]);
  }

  /** Two object branches at the depth limit become one and the same. */
  lemma TwinsProjected(place: Place, a: Fields, b: Fields)
    requires place.depth == MAX_PROJECTION_DEPTH
    requires Get(a, "type") == Some(Str("object")) && Get(b, "type") == Some(Str("object"))
    ensures Project(place, [Field("oneOf", Arr([Obj(a), Obj(b)]))]) ==
      Ok([Field("oneOf", Arr([Obj(LOOSE_OBJECT), Obj(LOOSE_OBJECT)]))])
  {
    hide ProjectObject;
    var x, children := Obj(LOOSE_OBJECT), [Obj(a), Obj(b)];
    assert ProjectChild(place, Obj(a)) == Ok(x) && ProjectChild(place, Obj(b)) == Ok(x);
    TwoChildren(place, Obj(a), Obj(b), x);
    SingleMember(place, Field("oneOf", Arr(children)), Field("oneOf", Arr([x, x])));
  }

  /** So the projection rejects every value, whatever the contract accepts. */
  lemma OneOfLostAtTheLimit(w: World, place: Place, a: Fields, b: Fields, v: Json)
    requires place.depth == MAX_PROJECTION_DEPTH
    requires Get(a, "type") == Some(Str("object")) && Get(b, "type") == Some(Str("object"))
    ensures var out := Project(place, [Field("oneOf", Arr([Obj(a), Obj(b)]))]);
      out.Ok? && !Admits(w, Obj(out.value), v)
  {
    hide Judge, Project;
    TwinsProjected(place, a, b);
    TwinsRejectAll(w, Obj(LOOSE_OBJECT), v);
  }

  lemma TwoChildren(place: Place, a: Json, b: Json, x: Json)
    requires place.depth <= MAX_PROJECTION_DEPTH
    requires ProjectChild(place, a) == Ok(x) && ProjectChild(place, b) == Ok(x)
    ensures ProjectChildren(place, [a, b]) == Ok([x, x])
  {
    hide ProjectChild;
    assert [a, b][1..] == [b] && [b][1..] == [];
    assert ProjectChildren(place, []) == Ok([]);
    assert ProjectChildren(place, [b]) == Ok([x] + []);
    assert [x] + ([x] + []) == [x, x];
  }

  /** A contract that accepts every object, through the first of its two branches. */
  const SPLIT_SCHEMA := [Field("oneOf", Arr([Obj(ANY_OBJECT), Obj(NO_OBJECT)]))]
  const ANY_OBJECT := [Field("type", Str("object"))]
  const NO_OBJECT := [Field("type", Str("object")), Field("enum", Arr([]))]

  lemma SplitSchemaLosesObjects(w: World, place: Place, v: Json)
    requires place.depth == MAX_PROJECTION_DEPTH && v.Obj?
    ensures Judge(w, true, 0, place.file, Obj(SPLIT_SCHEMA), v)
    ensures Project(place, SPLIT_SCHEMA).Ok? && !Admits(w, Obj(Project(place, SPLIT_SCHEMA).value), v)
  {
    hide Judge, Project, Keyword;
    assert Get(ANY_OBJECT, "type") == Some(Str("object")) && Get(NO_OBJECT, "type") == Some(Str("object"));
    OneOfLostAtTheLimit(w, place, ANY_OBJECT, NO_OBJECT, v);
    AnyObjectAccepts(w, place.file, v);
    NoObjectRejects(w, place.file, v);
    FirstOfTwo(w, place.file, Obj(ANY_OBJECT), Obj(NO_OBJECT), v);
  }

  lemma AnyObjectAccepts(w: World, file: string, v: Json)
    requires v.Obj?
    ensures Judge(w, true, 0, file, Obj(ANY_OBJECT), v)
  {
    hide Keyword;
    assert Keys(ANY_OBJECT) == {"type"} && Get(ANY_OBJECT, "type") == Some(Str("object"));
    TypeKeyword(w, true, 0, file, ANY_OBJECT, v);
  }

  lemma NoObjectRejects(w: World, file: string, v: Json)
    ensures Judge(w, false, 0, file, Obj(NO_OBJECT), v)
  {
    hide Keyword;
    assert NO_OBJECT[1].key == "enum";
    assert Get(NO_OBJECT, "enum") == Some(Arr([]));
    EmptyEnumRejects(w, file, NO_OBJECT, v);
  }

  lemma EmptyEnumRejects(w: World, file: string, fields: Fields, v: Json)
    requires Get(fields, "enum") == Some(Arr([]))
    ensures Keyword(w, false, 0, file, fields, "enum", v)
  {
    hide KindOf, Judgement, SiblingsOf;
    KeyKinds();
  }

  lemma FirstOfTwo(w: World, file: string, x: Json, y: Json, v: Json)
    requires Judge(w, true, 0, file, x, v) && Judge(w, false, 0, file, y, v)
    ensures Judge(w, true, 0, file, Obj([Field("oneOf", Arr([x, y]))]), v)
  {
    var fields := [Field("oneOf", Arr([x, y]))];
    assert Get(fields, "oneOf") == Some(Arr([x, y])) && Keys(fields) == {"oneOf"};
    hide KindOf, SiblingsOf, Judge, Keyword, Applies, Get, Keys;
    KeyKinds();
    OneKeyword(w, true, 0, file, fields, "oneOf", v);
    KeywordWhole(w, true, 0, file, fields, "oneOf", v);
    FirstApplies(Whole(w, 0, file), w, x, y, SiblingsOf(fields), v);
  }

  lemma FirstApplies(judge: Verdict, w: World, x: Json, y: Json, s: Siblings, v: Json)
    requires judge(true, x, v) && judge(false, y, v)
    ensures Applies(judge, w, true, OneOf, "oneOf", Arr([x, y]), s, v)
  {
    assert [x, y][0] == x && [x, y][1] == y;
  }

  // ---- A schema with properties that is also open to null ----

  const NULLABLE_OBJECT := [
    Field("type", Arr([Str("object"), Str("null")])),
    Field("properties", Obj([Field("name", Obj([Field("type", Str("string"))]))]))
  ]

  lemma NullableLosesNull(w: World, place: Place)
    requires place.depth > MAX_PROJECTION_DEPTH
    ensures Judge(w, true, 0, place.file, Obj(NULLABLE_OBJECT), Null)
    ensures Project(place, NULLABLE_OBJECT) == Ok(LOOSE_OBJECT) && !Admits(w, Obj(LOOSE_OBJECT), Null)
  {
    hide Judge, Keyword, KindOf;
    var r := NULLABLE_OBJECT;
    NullableMembers();
    LooseObjectAdmits(w, Null);
    TypeKeyword(w, true, 0, place.file, r, Null);
    assert Str("null") in [Str("object"), Str("null")];
    assert TypeAllows(At(r, "type"), Null);
    PropertiesIgnored(w, place.file, r, Null);
    NullableJudged(w, place.file, r);
  }

  lemma PropertiesIgnored(w: World, file: string, r: Fields, v: Json)
    requires "properties" in Keys(r) && !v.Obj?
    ensures Keyword(w, true, 0, file, r, "properties", v)
  {
    hide Judge, KindOf;
    KeyKinds();
  }

  lemma NullableMembers()
    ensures Keys(NULLABLE_OBJECT) == {"type", "properties"}
    ensures Get(NULLABLE_OBJECT, "type") == Some(Arr([Str("object"), Str("null")]))
    ensures Get(NULLABLE_OBJECT, "properties") == Some(NULLABLE_OBJECT[1].value)
  {
    var r := NULLABLE_OBJECT;
    assert r[0].key == "type" && r[1].key == "properties";
    KeysCons(r);
    KeysCons(r[1..]);
  }

  lemma NullableJudged(w: World, file: string, r: Fields)
    requires Keys(r) == {"type", "properties"}
    requires Keyword(w, true, 0, file, r, "type", Null) && Keyword(w, true, 0, file, r, "properties", Null)
    ensures Judge(w, true, 0, file, Obj(r), Null)
  {
    hide Keyword;
  }
}
