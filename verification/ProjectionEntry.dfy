/** Contracts that fail where the projection is entered: the schemas that fail at a depth, below as many arrays. */
module ProjectionEntry {
  import opened Json
  import opened JsonSchema
  import opened VertexResponseSchema
  import opened ProjectionSoundness
  import opened ProjectionTheorem
  import opened ProjectionExact
  import opened ProjectionLimits

  /** Arrays of arrays, n deep, of what the schema describes, and such a value. */
  function NestedItems(n: nat, schema: Fields): Fields {
    if n == 0 then schema else [Field("items", Obj(NestedItems(n - 1, schema)))]
  }

  function NestedValue(n: nat, v: Json): Json {
    if n == 0 then v else Arr([NestedValue(n - 1, v)])
  }

  function Deeper(place: Place, n: nat): Place {
    place.(depth := place.depth + n)
  }

  /** The projection of the nested schema nests the projection from further below. */
  lemma {:induction false} NestedProjects(place: Place, n: nat, schema: Fields)
    requires place.depth + n <= MAX_PROJECTION_DEPTH + 1 && Project(Deeper(place, n), schema).Ok?
    ensures Project(place, NestedItems(n, schema)) == Ok(NestedItems(n, Project(Deeper(place, n), schema).value))
    decreases n
  {
    hide Project;
    if n > 0 {
      NestedProjects(place.Below(), n - 1, schema);
      assert Deeper(place.Below(), n - 1) == Deeper(place, n);
      var inner := NestedItems(n - 1, schema);
      ItemsProject(place, inner);
    }
  }

  lemma ItemsProject(place: Place, inner: Fields)
    requires place.depth <= MAX_PROJECTION_DEPTH && Project(place.Below(), inner).Ok?
    ensures Project(place, [Field("items", Obj(inner))]) == Ok([Field("items", Obj(Project(place.Below(), inner).value))])
  {
    hide Project;
    SingleMember(place, Field("items", Obj(inner)), Field("items", Obj(Project(place.Below(), inner).value)));
  }

  lemma ItemsJudged(w: World, want: bool, fuel: nat, file: string, x: Json, v: Json)
    ensures Judge(w, want, fuel, file, Obj([Field("items", x)]), Arr([v])) <==> Judge(w, want, fuel, file, x, v)
  {
    var fields := [Field("items", x)];
    assert Get(fields, "items") == Some(x) && Keys(fields) == {"items"} && PrefixLength(fields) == 0;
    hide Get, Keys, Judge, Keyword, KindOf, Applies;
    KeyKinds();
    OneKeyword(w, want, fuel, file, fields, "items", Arr([v]));
    KeywordWhole(w, want, fuel, file, fields, "items", Arr([v]));
    OneItem(Whole(w, fuel, file), w, want, x, SiblingsOf(fields), v);
  }

  lemma OneItem(judge: Verdict, w: World, want: bool, x: Json, s: Siblings, v: Json)
    requires s.prefix == 0
    ensures Applies(judge, w, want, Items, "items", x, s, Arr([v])) <==> judge(want, x, v)
  {
    assert [v][0] == v;
  }

  lemma {:induction false} NestedJudged(w: World, want: bool, fuel: nat, file: string, n: nat, schema: Fields, v: Json)
    ensures Judge(w, want, fuel, file, Obj(NestedItems(n, schema)), NestedValue(n, v)) <==>
      Judge(w, want, fuel, file, Obj(schema), v)
  {
    hide Judge;
    if n > 0 {
      ItemsJudged(w, want, fuel, file, Obj(NestedItems(n - 1, schema)), NestedValue(n - 1, v));
      NestedJudged(w, want, fuel, file, n - 1, schema, v);
    }
  }

  /** A failure of the projection at depth n is one at its entry: the value that the contract accepts and the
      projection rejects comes n arrays deep. */
  lemma FailsFromTheEntry(documents: Documents, file: string, assertion: AssertionKeywords, n: nat, schema: Fields, v: Json)
    requires n <= MAX_PROJECTION_DEPTH + 1
    requires var (w, at) := (WorldOf(documents, assertion), Project(Place(documents, file, n, {}), schema));
      Judge(w, true, 0, file, Obj(schema), v) && at.Ok? && Judge(w, false, 0, "", Obj(at.value), v)
    ensures var (w, out) := (WorldOf(documents, assertion), Project(Place(documents, file, 0, {}), NestedItems(n, schema)));
      && Accepts(w, file, Obj(NestedItems(n, schema)), NestedValue(n, v))
      && out.Ok? && Rejects(w, "", Obj(out.value), NestedValue(n, v))
  {
    hide Judge, Project;
    var (w, place) := (WorldOf(documents, assertion), Place(documents, file, 0, {}));
    assert Deeper(place, n) == Place(documents, file, n, {});
    NestedProjects(place, n, schema);
    NestedJudged(w, true, 0, file, n, schema, v);
    NestedJudged(w, false, 0, "", n, Project(Place(documents, file, n, {}), schema).value, v);
  }

  /** An array contract, six arrays deep, of objects by two alternatives: it accepts an object there, its projection
      rejects it. */
  lemma ReceivedOneOfLost(documents: Documents, file: string, assertion: AssertionKeywords, fields: Fields)
    ensures
      var (w, contract, v) := (WorldOf(documents, assertion), NestedItems(6, SPLIT_SCHEMA), NestedValue(6, Obj(fields)));
      var out := Project(Place(documents, file, 0, {}), contract);
      Accepts(w, file, Obj(contract), v) && out.Ok? && Rejects(w, "", Obj(out.value), v)
  {
    hide Judge, Project;
    var (w, place, v) := (WorldOf(documents, assertion), Place(documents, file, 6, {}), Obj(fields));
    SplitSchemaLosesObjects(w, place, v);
    SplitProjected(place);
    JudgeTotal(w, 0, "", Obj(Project(place, SPLIT_SCHEMA).value), v);
    FailsFromTheEntry(documents, file, assertion, 6, SPLIT_SCHEMA, v);
  }

  lemma SplitProjected(place: Place)
    requires place.depth == MAX_PROJECTION_DEPTH
    ensures Project(place, SPLIT_SCHEMA).Ok? && NoReference(Obj(Project(place, SPLIT_SCHEMA).value))
  {
    hide NoReference, Project;
    assert Get(ANY_OBJECT, "type") == Some(Str("object")) && Get(NO_OBJECT, "type") == Some(Str("object"));
    TwinsProjected(place, ANY_OBJECT, NO_OBJECT);
    LooseObjectGood();
    GoodParts(LOOSE_OBJECT);
    TwinsGood(Obj(LOOSE_OBJECT));
  }

  lemma TwinsGood(x: Json)
    requires NoReference(x)
    ensures NoReference(Obj([Field("oneOf", Arr([x, x]))]))
  {
    hide NoReference;
    assert KindOf("oneOf") == OneOf;
    hide KindOf;
    PairGood([Field("oneOf", Arr([x, x]))]);
    GoodParts([Field("oneOf", Arr([x, x]))]);
  }

  /** Seven arrays deep, an object or null: the contract accepts null there, its projection rejects it. */
  lemma ReceivedNullLost(documents: Documents, file: string, assertion: AssertionKeywords)
    ensures
      var (w, contract, v) := (WorldOf(documents, assertion), NestedItems(7, NULLABLE_OBJECT), NestedValue(7, Null));
      var out := Project(Place(documents, file, 0, {}), contract);
      Accepts(w, file, Obj(contract), v) && out.Ok? && Rejects(w, "", Obj(out.value), v)
  {
    hide Judge, Project, NoReference;
    var (w, place) := (WorldOf(documents, assertion), Place(documents, file, 7, {}));
    NullableLosesNull(w, place);
    LooseObjectGood();
    GoodParts(LOOSE_OBJECT);
    JudgeTotal(w, 0, "", Obj(LOOSE_OBJECT), Null);
    FailsFromTheEntry(documents, file, assertion, 7, NULLABLE_OBJECT, Null);
  }
}
