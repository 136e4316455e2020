/** When a projection still holds references: what stands below `additionalProperties` and `prefixItems` is copied
    unread. */
module ProjectionReferences {
  import opened Json
  import opened JsonSchema
  import opened VertexResponseSchema
  import opened ProjectionSoundness
  import opened ProjectionMerge
  import opened ProjectionTheorem

  /** `holds` is true of every schema object that the projection reads member by member. */
  ghost predicate Everywhere(place: Place, schema: Fields, holds: Fields -> bool)
    decreases place.Left(), 2
  {
    place.depth <= MAX_PROJECTION_DEPTH ==>
      match Get(schema, "$ref")
      case Some(Str(reference)) =>
        (match ResolveRef(place.documents, reference, place.file)
         case Err(_) => true
         case Ok(target) => target.key !in place.seen ==> Everywhere(place.Through(target), target.schema, holds))
      case _ =>
        match Get(schema, "type")
        case Some(Arr(types)) => forall t | t in types :: Everywhere(place.Below(), Put(schema, "type", t), holds)
        case _ => holds(schema) && forall f | f in schema :: EverywhereIn(place, f, holds)
  }

  ghost predicate EverywhereIn(place: Place, f: Field, holds: Fields -> bool)
    requires place.depth <= MAX_PROJECTION_DEPTH
    decreases place.Left(), 1
  {
    match f.key
    case "properties" => f.value.Obj? ==> forall g | g in f.value.fields :: EverywhereBelow(place, g.value, holds)
    case "items" => EverywhereBelow(place, f.value, holds)
    case "anyOf" => f.value.Arr? ==> forall x | x in f.value.items :: EverywhereBelow(place, x, holds)
    case "oneOf" => f.value.Arr? ==> forall x | x in f.value.items :: EverywhereBelow(place, x, holds)
    case _ => true
  }

  ghost predicate EverywhereBelow(place: Place, child: Json, holds: Fields -> bool)
    requires place.depth <= MAX_PROJECTION_DEPTH
    decreases place.Left(), 0
  {
    child.Obj? ==> Everywhere(place.Below(), child.fields, holds)
  }

  /** Each key once, and no parts to merge. */
  predicate Regular(schema: Fields) {
    Distinct(schema) && Distinct(Props(schema)) && forall x | x in ArrayItems(Get(schema, "allOf")) :: !Structural(x)
  }

  /** What is copied unread holds no reference. */
  ghost predicate Bare(schema: Fields) {
    && ("additionalProperties" in Keys(schema) ==> NoReference(At(schema, "additionalProperties")))
    && forall x | x in ArrayItems(Get(schema, "prefixItems")) :: NoReference(x)
  }

  // ---- One member ----

  /** The subschemas of the keyword hold no reference. */
  ghost predicate Free(f: Field) {
    forall x | x in Subschemas(KindOf(f.key), f.value, Siblings({}, 0, None, None)) :: NoReference(x)
  }

  lemma SupportedSubschemas(fields: Fields, k: string)
    requires Keys(fields) <= SUPPORTED_KEYS && k in Keys(fields)
    ensures KindOf(k) != Reference
    ensures Subschemas(KindOf(k), At(fields, k), SiblingsOf(fields)) ==
      Subschemas(KindOf(k), At(fields, k), Siblings({}, 0, None, None))
  {
    assert "then" !in SUPPORTED_KEYS && "else" !in SUPPORTED_KEYS;
  }

  lemma FreeMembers(fields: Fields)
    requires Keys(fields) <= SUPPORTED_KEYS
    ensures NoReference(Obj(fields)) <==> forall k | k in Keys(fields) :: Free(Field(k, At(fields, k)))
  {
    hide KindOf, Subschemas, SiblingsOf;
    forall k | k in Keys(fields)
      ensures KindOf(k) != Reference
      ensures Subschemas(KindOf(k), At(fields, k), SiblingsOf(fields)) ==
        Subschemas(KindOf(k), At(fields, k), Siblings({}, 0, None, None))
    {
      SupportedSubschemas(fields, k);
    }
    if NoReference(Obj(fields)) {
      hide NoReference;
      forall k | k in Keys(fields) ensures Free(Field(k, At(fields, k))) {
        NoReferenceMember(fields, k);
      }
    }
  }

  /** What the member writes is free of references exactly if what it is written from is bare. */
  ghost predicate BareMember(place: Place, f: Field)
    requires place.depth <= MAX_PROJECTION_DEPTH
  {
    && (f.key == "additionalProperties" ==> NoReference(f.value))
    && (f.key == "prefixItems" ==> forall x | x in ArrayItems(Some(f.value)) :: NoReference(x))
    && EverywhereIn(place, f, Bare)
  }

  lemma {:induction false} MemberExactly(place: Place, f: Field, g: Field)
    requires place.depth <= MAX_PROJECTION_DEPTH && EverywhereIn(place, f, Regular)
    requires f.key == "properties" && f.value.Obj? ==> Distinct(f.value.fields)
    requires ProjectMember(place, f) == Ok(Some(g))
    ensures Free(g) <==> BareMember(place, f)
    decreases place.Left(), 2, 0
  {
    hide NoReference, ProjectChild, EverywhereBelow;
    if f.key == "properties" && f.value.Obj? {
      PropertiesExactly(place, f.value.fields);
      hide ProjectProperties;
    } else if f.key == "items" && f.value.Obj? {
      ChildExactly(place, f.value);
    } else if f.key in {"anyOf", "oneOf"} && f.value.Arr? {
      ChildrenExactly(place, f.value.items);
      ListFree(g);
    } else {
      CopiedExactly(place, f, g);
    }
  }

  lemma ListFree(g: Field)
    requires g.key in {"anyOf", "oneOf", "prefixItems"} && g.value.Arr?
    ensures Free(g) <==> forall x | x in g.value.items :: NoReference(x)
  {
    hide NoReference;
  }

  lemma CopiedExactly(place: Place, f: Field, g: Field)
    requires place.depth <= MAX_PROJECTION_DEPTH && ProjectMember(place, f) == Ok(Some(g))
    requires !(f.key == "properties" && f.value.Obj?) && !(f.key == "items" && f.value.Obj?)
    requires !(f.key in {"anyOf", "oneOf"} && f.value.Arr?)
    ensures Free(g) <==> BareMember(place, f)
  {
    hide NoReference, KindOf, Subschemas, EverywhereBelow;
    if f.key == "prefixItems" {
      PrefixFree(f);
    } else if f.key == "additionalProperties" {
      AdditionalFree(f);
    } else if f.key == "const" {
      assert Free(g) by { EnumFree(g); }
    } else {
      forall x | x in Subschemas(KindOf(g.key), g.value, Siblings({}, 0, None, None)) ensures NoReference(x) {
        CopiedSubschema(g, Siblings({}, 0, None, None), x);
      }
      assert EverywhereIn(place, f, Bare) by { NothingBelow(place, f); }
    }
  }

  lemma NothingBelow(place: Place, f: Field)
    requires place.depth <= MAX_PROJECTION_DEPTH
    requires !(f.key == "properties" && f.value.Obj?) && !(f.key == "items" && f.value.Obj?)
    requires !(f.key in {"anyOf", "oneOf"} && f.value.Arr?)
    ensures EverywhereIn(place, f, Bare)
  {
  }

  lemma PrefixFree(f: Field)
    requires f.key == "prefixItems"
    ensures Free(f) <==> forall x | x in ArrayItems(Some(f.value)) :: NoReference(x)
  {
    hide NoReference;
  }

  lemma AdditionalFree(f: Field)
    requires f.key == "additionalProperties"
    ensures Free(f) <==> NoReference(f.value)
  {
    hide NoReference;
  }

  lemma EnumFree(f: Field)
    requires f.key == "enum"
    ensures Free(f)
  {
  }

  lemma {:induction false} ChildExactly(place: Place, child: Json)
    requires place.depth <= MAX_PROJECTION_DEPTH && EverywhereBelow(place, child, Regular) && ProjectChild(place, child).Ok?
    ensures NoReference(ProjectChild(place, child).value) <==> EverywhereBelow(place, child, Bare)
    decreases place.Left(), 0
  {
    hide NoReference, Project, Everywhere;
    if child.Obj? {
      ReferencesExactly(place.Below(), child.fields);
    } else {
      OnlyTypeGood(Null);
    }
  }

  lemma {:induction false} PropertiesExactly(place: Place, a: Fields)
    requires place.depth <= MAX_PROJECTION_DEPTH && Distinct(a) && ProjectProperties(place, a).Ok?
    requires forall g | g in a :: EverywhereBelow(place, g.value, Regular)
    ensures Free(Field("properties", Obj(ProjectProperties(place, a).value))) <==>
      forall g | g in a :: EverywhereBelow(place, g.value, Bare)
    decreases place.Left(), 1
  {
    hide NoReference, ProjectChild, EverywhereBelow, ProjectProperties, Distinct;
    var c := ProjectProperties(place, a).value;
    forall p ensures p in Keys(c) <==> p in Keys(a)
      ensures p in Keys(a) ==> (NoReference(At(c, p)) <==> EverywhereBelow(place, At(a, p), Bare))
    {
      PropertyProjected(place, a, p);
      if p in Keys(a) {
        assert Field(p, At(a, p)) in a;
        ChildExactly(place, At(a, p));
      }
    }
    forall g | g in a ensures Get(a, g.key) == Some(g.value) {
      DistinctAt(a, g);
    }
    assert KindOf("properties") == Properties;
    PropertiesFree(c);
  }

  lemma PropertiesFree(c: Fields)
    ensures Free(Field("properties", Obj(c))) <==> forall p | p in Keys(c) :: NoReference(At(c, p))
  {
    hide NoReference;
  }

  lemma {:induction false} ChildrenExactly(place: Place, a: seq<Json>)
    requires place.depth <= MAX_PROJECTION_DEPTH && ProjectChildren(place, a).Ok?
    requires forall x | x in a :: EverywhereBelow(place, x, Regular)
    ensures (forall x | x in ProjectChildren(place, a).value :: NoReference(x)) <==>
      (forall x | x in a :: EverywhereBelow(place, x, Bare))
    decreases place.Left(), 1
  {
    hide NoReference, ProjectChild, EverywhereBelow;
    var c := ProjectChildren(place, a).value;
    ChildProjected(place, a, 0);
    forall i | 0 <= i < |a| ensures NoReference(c[i]) <==> EverywhereBelow(place, a[i], Bare) {
      ChildProjected(place, a, i);
      ChildExactly(place, a[i]);
    }
    if forall x | x in c :: NoReference(x) {
      forall x | x in a ensures EverywhereBelow(place, x, Bare) {
        var i :| 0 <= i < |a| && a[i] == x;
        assert c[i] in c;
      }
    }
    if forall x | x in a :: EverywhereBelow(place, x, Bare) {
      forall x | x in c ensures NoReference(x) {
        var i :| 0 <= i < |c| && c[i] == x;
        assert a[i] in a;
      }
    }
  }

  // ---- The induction ----

  lemma {:induction false} ReferencesExactly(place: Place, schema: Fields)
    requires Everywhere(place, schema, Regular) && Project(place, schema).Ok?
    ensures Keys(Project(place, schema).value) <= SUPPORTED_KEYS
    ensures NoReference(Obj(Project(place, schema).value)) <==> Everywhere(place, schema, Bare)
    decreases place.Left(), 4
  {
    hide NoReference, LooseSchemaFor, ResolveRef, SUPPORTED_KEYS, Put, Get, Regular, Bare, EverywhereIn;
    hide ProjectObject, ProjectVariants, Keys;
    var ref, types := Get(schema, "$ref"), Get(schema, "type");
    if place.depth > MAX_PROJECTION_DEPTH {
      LooseFree(schema);
    } else if ref.Some? && ref.value.Str? {
      var resolved := ResolveRef(place.documents, ref.value.s, place.file).value;
      if resolved.key in place.seen {
        LooseFree(resolved.schema);
      } else {
        ReferencesExactly(place.Through(resolved), resolved.schema);
      }
    } else if types.Some? && types.value.Arr? {
      VariantsExactly(place, schema, types.value.items);
    } else {
      ObjectExactly(place, schema);
    }
  }

  lemma LooseFree(schema: Fields)
    ensures Keys(LooseSchemaFor(schema)) <= SUPPORTED_KEYS && NoReference(Obj(LooseSchemaFor(schema)))
  {
    hide NoReference, LooseSchemaFor;
    LooseGood(schema);
    GoodParts(LooseSchemaFor(schema));
  }

  lemma {:induction false} VariantsExactly(place: Place, schema: Fields, types: seq<Json>)
    requires place.depth <= MAX_PROJECTION_DEPTH && ProjectVariants(place, schema, types).Ok?
    requires forall t | t in types :: Everywhere(place.Below(), Put(schema, "type", t), Regular)
    ensures var out := [Field("anyOf", Arr(ProjectVariants(place, schema, types).value))];
      && Keys(out) <= SUPPORTED_KEYS
      && (NoReference(Obj(out)) <==> forall t | t in types :: Everywhere(place.Below(), Put(schema, "type", t), Bare))
    decreases place.Left(), 3
  {
    hide NoReference, Project, Everywhere, Put;
    var c := ProjectVariants(place, schema, types).value;
    VariantProjected(place, schema, types, 0);
    forall i | 0 <= i < |types|
      ensures NoReference(c[i]) <==> Everywhere(place.Below(), Put(schema, "type", types[i]), Bare)
    {
      VariantProjected(place, schema, types, i);
      ReferencesExactly(place.Below(), Put(schema, "type", types[i]));
    }
    AnyOfExactly(c);
    assert (forall x | x in c :: NoReference(x)) <==> (forall i | 0 <= i < |c| :: NoReference(c[i]));
  }

  lemma AnyOfExactly(branches: seq<Json>)
    ensures Keys([Field("anyOf", Arr(branches))]) == {"anyOf"} && "anyOf" in SUPPORTED_KEYS
    ensures NoReference(Obj([Field("anyOf", Arr(branches))])) <==> forall x | x in branches :: NoReference(x)
  {
    hide NoReference;
    var out := [Field("anyOf", Arr(branches))];
    NoMembers();
    Prepended(out[0], []);
    assert [out[0]] + [] == out;
    FreeMembers(out);
    ListFree(out[0]);
  }

  lemma {:induction false} ObjectExactly(place: Place, schema: Fields)
    requires place.depth <= MAX_PROJECTION_DEPTH && ProjectObject(place, schema).Ok? && Regular(schema)
    requires forall f | f in schema :: EverywhereIn(place, f, Regular)
    ensures Keys(ProjectObject(place, schema).value) <= SUPPORTED_KEYS
    ensures NoReference(Obj(ProjectObject(place, schema).value)) <==>
      Bare(schema) && forall f | f in schema :: EverywhereIn(place, f, Bare)
    decreases place.Left(), 3
  {
    hide NoReference, ProjectMember, EverywhereIn, ProjectMembers, Bare, BareMember, Free, SUPPORTED_KEYS;
    NothingStructural(place, ArrayItems(Get(schema, "allOf")));
    var base := ProjectMembers(place, schema).value;
    MembersWritten(place, schema);
    forall k | k in Keys(base) ensures k in SUPPORTED_KEYS {
      var f :| f in schema && ProjectMember(place, f) == Ok(Some(Field(k, At(base, k))));
      WrittenKey(place, f);
    }
    FreeMembers(base);
    forall f | f in schema ensures BareMember(place, f) || !NoReference(Obj(base)) {
      if NoReference(Obj(base)) {
        FreeBase(place, schema, f);
      }
    }
    if forall f | f in schema :: BareMember(place, f) {
      forall k | k in Keys(base) ensures Free(Field(k, At(base, k))) {
        var f :| f in schema && ProjectMember(place, f) == Ok(Some(Field(k, At(base, k))));
        PropsOf(schema, f);
        MemberExactly(place, f, Field(k, At(base, k)));
      }
    }
    BareMembers(place, schema);
  }

  lemma {:induction false} NothingStructural(place: Place, branches: seq<Json>)
    requires place.depth <= MAX_PROJECTION_DEPTH && forall x | x in branches :: !Structural(x)
    ensures ProjectBranches(place, branches) == Ok([])
  {
    hide Structural;
    if branches != [] {
      NothingStructural(place, branches[1..]);
    }
  }

  lemma WrittenKey(place: Place, f: Field)
    requires place.depth <= MAX_PROJECTION_DEPTH && ProjectMember(place, f).Ok? && ProjectMember(place, f).value.Some?
    ensures var k := ProjectMember(place, f).value.value.key; k in SUPPORTED_KEYS && (k == f.key || f.key == "const")
  {
    hide ProjectChildren, ProjectProperties, ProjectChild;
  }

  lemma PropsOf(schema: Fields, f: Field)
    requires Regular(schema) && f in schema
    ensures f.key == "properties" && f.value.Obj? ==> Distinct(f.value.fields)
    ensures At(schema, f.key) == f.value
  {
    hide Distinct;
    DistinctAt(schema, f);
  }

  /** What writes nothing, or no subschemas, is bare. */
  lemma PlainlyBare(place: Place, f: Field)
    requires place.depth <= MAX_PROJECTION_DEPTH && ProjectMember(place, f).Ok?
    requires ProjectMember(place, f).value.None? || f.key in {"const", "enum"}
    ensures BareMember(place, f)
  {
    hide ProjectChildren, ProjectProperties, ProjectChild, NoReference;
  }

  lemma {:induction false} FreeBase(place: Place, schema: Fields, f: Field)
    requires place.depth <= MAX_PROJECTION_DEPTH && ProjectMembers(place, schema).Ok? && Regular(schema)
    requires f in schema && EverywhereIn(place, f, Regular)
    requires var base := ProjectMembers(place, schema).value;
      WrittenBy(place, schema, base) && forall k | k in Keys(base) :: Free(Field(k, At(base, k)))
    ensures BareMember(place, f)
    decreases place.Left(), 2, 1
  {
    hide NoReference, ProjectMember, EverywhereIn, ProjectMembers, BareMember, Free, Distinct, Structural;
    var base := ProjectMembers(place, schema).value;
    AllProjected(place, schema, f);
    if ProjectMember(place, f).value.None? || f.key in {"const", "enum"} {
      PlainlyBare(place, f);
    } else {
      var g := ProjectMember(place, f).value.value;
      WrittenKey(place, f);
      assert g.key in Keys(base);
      var f' :| f' in schema && ProjectMember(place, f') == Ok(Some(Field(g.key, At(base, g.key))));
      WrittenKey(place, f');
      SameWriter(place, schema, f, f');
      PropsOf(schema, f);
      MemberExactly(place, f, g);
    }
  }

  lemma SameWriter(place: Place, schema: Fields, f: Field, f': Field)
    requires place.depth <= MAX_PROJECTION_DEPTH && Distinct(schema) && f in schema && f' in schema
    requires ProjectMember(place, f).Ok? && ProjectMember(place, f).value.Some?
    requires ProjectMember(place, f').Ok? && ProjectMember(place, f').value.Some?
    requires ProjectMember(place, f).value.value.key == ProjectMember(place, f').value.value.key
    requires f.key !in {"const", "enum"}
    ensures f == f'
  {
    hide Distinct, ProjectMember;
    WrittenKey(place, f);
    WrittenKey(place, f');
    if f'.key == "const" {
      ConstWritesEnum(place, f');
    }
    DistinctAt(schema, f);
    DistinctAt(schema, f');
  }

  lemma ConstWritesEnum(place: Place, f: Field)
    requires place.depth <= MAX_PROJECTION_DEPTH && f.key == "const"
    ensures ProjectMember(place, f) == Ok(Some(Field("enum", Arr([f.value]))))
  {
  }

  lemma BareMembers(place: Place, schema: Fields)
    requires place.depth <= MAX_PROJECTION_DEPTH && Distinct(schema)
    ensures (forall f | f in schema :: BareMember(place, f)) <==>
      (Bare(schema) && forall f | f in schema :: EverywhereIn(place, f, Bare))
  {
    hide NoReference, EverywhereIn, Distinct;
    forall f | f in schema ensures Get(schema, f.key) == Some(f.value) {
      DistinctAt(schema, f);
    }
    if forall f | f in schema :: BareMember(place, f) {
      if "additionalProperties" in Keys(schema) {
        assert BareMember(place, Field("additionalProperties", At(schema, "additionalProperties")));
      }
      if "prefixItems" in Keys(schema) {
        assert BareMember(place, Field("prefixItems", At(schema, "prefixItems")));
      }
    }
  }
}
