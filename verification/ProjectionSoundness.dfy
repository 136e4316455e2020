/** The projection of a schema is a weakening of it: whatever the contract accepts, the projection accepts. */
module ProjectionSoundness {
  import opened Json
  import opened JsonSchema
  import opened SchemaReferences
  import opened VertexResponseSchema

  type AssertionKeywords = (string, Json, Json) -> bool

  /** The standard's reading of references is the code's own resolution. */
  function WorldOf(documents: Documents, assertion: AssertionKeywords): World {
    World(
      (file, reference) =>
        match ResolveRef(documents, reference, file)
        case Ok(target) => Some((target.file, Obj(target.schema)))
        case Err(_) => None,
      assertion)
  }

  /** The verdict of a schema without references, which needs neither documents nor fuel. */
  ghost predicate Admits(w: World, schema: Json, v: Json) {
    Judge(w, true, 0, "", schema, v)
  }

  // ---- What every projection looks like ----

  const FLAT_KEYS := SUPPORTED_KEYS - {"prefixItems"}

  /** Only supported keywords, each once, the properties each once, and nowhere a reference. */
  ghost predicate Good(fields: Fields) {
    && Keys(fields) <= FLAT_KEYS
    && Distinct(fields)
    && Distinct(ObjectFields(Get(fields, "properties")))
    && NoReference(Obj(fields))
  }

  lemma FlatKind(k: string)
    requires k in FLAT_KEYS
    ensures KindOf(k) in {Type, Enum, Required, Properties, AdditionalProperties, Items, AnyOf, OneOf, Assertion}
    ensures KindOf(k) == Properties <==> k == "properties"
    ensures KindOf(k) == Required <==> k == "required"
    ensures KindOf(k) == AdditionalProperties <==> k == "additionalProperties"
  {
  }

  lemma FlatSiblings(fields: Fields)
    requires Keys(fields) <= FLAT_KEYS
    ensures SiblingsOf(fields) == Siblings(PropertyNames(fields), 0, None, None)
  {
    assert "then" !in FLAT_KEYS && "else" !in FLAT_KEYS && "prefixItems" !in FLAT_KEYS;
  }

  // ---- A schema that is given up on ----

  /** The schema keeps its verdicts when only its type is kept: properties stand beside a type that is
      exactly `object` (or `array`). */
  predicate LooseSafe(schema: Fields) {
    Truthy(Get(schema, "properties")) ==>
      Get(schema, "type") == Some(Str("object")) || Get(schema, "type") == Some(Str("array"))
  }

  lemma TypeKeyword(w: World, want: bool, n: nat, file: string, schema: Fields, v: Json)
    requires "type" in Keys(schema)
    ensures Keyword(w, want, n, file, schema, "type", v) <==> TypeAllows(At(schema, "type"), v) == want
  {
    hide Judgement, SiblingsOf, TypeAllows;
    assert KindOf("type") == Type;
  }

  lemma TypeKept(w: World, n: nat, file: string, schema: Fields, v: Json)
    requires Judge(w, true, n, file, Obj(schema), v) && "type" in Keys(schema)
    ensures TypeAllows(At(schema, "type"), v)
  {
    hide Keyword;
    TypeKeyword(w, true, n, file, schema, v);
  }

  /** The schema that only asks for a type. */
  lemma TypeOnlyAdmits(w: World, t: Json, v: Json)
    ensures Admits(w, OnlyType(t), v) <==> (t.Str? ==> HasType(t.s, v))
  {
    hide Keyword;
    var fields := OnlyType(t).fields;
    if t.Str? {
      assert Get(fields, "type") == Some(t);
      TypeKeyword(w, true, 0, "", fields, v);
      assert Keys(fields) == {"type"};
    } else {
      assert Keys(fields) == {};
    }
  }

  lemma LooseArrayAdmits(w: World, v: Json)
    ensures Admits(w, Obj(LOOSE_ARRAY), v) <==> v.Arr?
  {
    hide Keyword;
    assert LOOSE_ARRAY[0].key == "type" && LOOSE_ARRAY[1].key == "items";
    TypeKeyword(w, true, 0, "", LOOSE_ARRAY, v);
    OpenItemsAdmits(w, v);
    assert forall k | k in Keys(LOOSE_ARRAY) :: k == "type" || k == "items";
  }

  lemma OpenItemsAdmits(w: World, v: Json)
    ensures "items" in Keys(LOOSE_ARRAY) && Keyword(w, true, 0, "", LOOSE_ARRAY, "items", v)
  {
    assert KindOf("items") == Items;
    assert LOOSE_ARRAY[1].key == "items" && Get(LOOSE_ARRAY, "items") == Some(Obj([]));
    assert forall u :: Judge(w, true, 0, "", Obj([]), u);
  }

  lemma LooseObjectAdmits(w: World, v: Json)
    ensures Admits(w, Obj(LOOSE_OBJECT), v) <==> v.Obj?
  {
    hide Keyword;
    assert LOOSE_OBJECT[0].key == "type" && LOOSE_OBJECT[1].key == "additionalProperties";
    TypeKeyword(w, true, 0, "", LOOSE_OBJECT, v);
    OpenPropertiesAdmits(w, v);
    assert forall k | k in Keys(LOOSE_OBJECT) :: k == "type" || k == "additionalProperties";
  }

  lemma OpenPropertiesAdmits(w: World, v: Json)
    ensures "additionalProperties" in Keys(LOOSE_OBJECT)
    ensures Keyword(w, true, 0, "", LOOSE_OBJECT, "additionalProperties", v)
  {
    assert KindOf("additionalProperties") == AdditionalProperties;
    assert LOOSE_OBJECT[1].key == "additionalProperties";
    assert Get(LOOSE_OBJECT, "additionalProperties") == Some(Bool(true));
  }

  lemma SingleAnyOf(w: World, n: nat, doc: string, branches: seq<Json>, i: nat, v: Json)
    requires i < |branches| && Judge(w, true, n, doc, branches[i], v)
    ensures Judge(w, true, n, doc, Obj([Field("anyOf", Arr(branches))]), v)
  {
    var fields := [Field("anyOf", Arr(branches))];
    assert Get(fields, "anyOf") == Some(Arr(branches));
    AnyOfKeyword(w, n, doc, fields, branches, i, v);
    assert Keys(fields) == {"anyOf"};
  }

  lemma AnyOfKeyword(w: World, n: nat, doc: string, fields: Fields, branches: seq<Json>, i: nat, v: Json)
    requires Get(fields, "anyOf") == Some(Arr(branches))
    requires i < |branches| && Judge(w, true, n, doc, branches[i], v)
    ensures Keyword(w, true, n, doc, fields, "anyOf", v)
  {
    hide Judge, SiblingsOf;
    assert KindOf("anyOf") == AnyOf;
    SizeItem(branches, i);
    assert Judgement(w, n, doc, 1 + SizeFields(fields))(true, branches[i], v);
  }

  lemma LooseSound(w: World, n: nat, file: string, schema: Fields, v: Json)
    requires LooseSafe(schema) && Judge(w, true, n, file, Obj(schema), v)
    ensures Admits(w, Obj(LooseSchemaFor(schema)), v)
  {
    hide Judge;
    LooseArrayAdmits(w, v);
    LooseObjectAdmits(w, v);
    if "type" in Keys(schema) {
      TypeKept(w, n, file, schema, v);
      match At(schema, "type")
      case Arr(types) =>
        if !Truthy(Get(schema, "properties")) {
          var i :| 0 <= i < |types| && types[i].Str? && HasType(types[i].s, v);
          TypeOnlyAdmits(w, types[i], v);
          SingleAnyOf(w, 0, "", seq(|types|, j requires 0 <= j < |types| => OnlyType(types[j])), i, v);
        }
      case t =>
        TypeOnlyAdmits(w, t, v);
    } else {
      TypeOnlyAdmits(w, Null, v);
    }
  }

  /** Keeping only the type is a weakening exactly when the schema is safe, or accepts nothing but
      objects anyway: a schema with properties that is also open to other values loses those. */
  lemma LooseExact(documents: Documents, assertion: AssertionKeywords, file: string, schema: Fields)
    ensures
      var w := WorldOf(documents, assertion);
      (forall v | Accepts(w, file, Obj(schema), v) :: Admits(w, Obj(LooseSchemaFor(schema)), v)) <==>
      LooseSafe(schema) || (forall v | Accepts(w, file, Obj(schema), v) :: v.Obj?)
  {
    hide Judge, LooseSchemaFor;
    var w := WorldOf(documents, assertion);
    forall v | Accepts(w, file, Obj(schema), v)
      ensures LooseSafe(schema) ==> Admits(w, Obj(LooseSchemaFor(schema)), v)
      ensures !LooseSafe(schema) ==> (Admits(w, Obj(LooseSchemaFor(schema)), v) <==> v.Obj?)
    {
      var n: nat :| Judge(w, true, n, file, Obj(schema), v);
      if LooseSafe(schema) {
        LooseSound(w, n, file, schema, v);
      } else {
        assert LooseSchemaFor(schema) == LOOSE_OBJECT by { UnsafeIsObject(schema); }
        LooseObjectAdmits(w, v);
      }
    }
  }

  lemma UnsafeIsObject(schema: Fields)
    requires !LooseSafe(schema)
    ensures LooseSchemaFor(schema) == LOOSE_OBJECT
  {
  }
}
