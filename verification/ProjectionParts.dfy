/** What the merge of the parts of an `allOf` says, keyword by keyword, and what the projection therefore asks for. */
module ProjectionParts {
  import opened Json
  import opened JsonSchema
  import opened Sorting
  import opened VertexResponseSchema
  import opened ProjectionSoundness
  import opened ProjectionMerge
  import opened ProjectionTheorem
  import opened ProjectionBranches

  // ---- The last member of a list ----

  lemma {:induction false} Appended(a: Fields, f: Field, k: string)
    ensures Get(a + [f], k) == if k in Keys(a) then Get(a, k) else if k == f.key then Some(f.value) else None
    ensures Keys(a + [f]) == Keys(a) + {f.key}
  {
    if a == [] {
      assert [] + [f] == [f];
    } else {
      assert (a + [f])[1..] == a[1..] + [f];
      Appended(a[1..], f, k);
      KeysCons(a);
      KeysCons(a + [f]);
    }
  }

  lemma {:induction false} DistinctLast(a: Fields, f: Field)
    requires Distinct(a + [f])
    ensures Distinct(a) && f.key !in Keys(a)
  {
    if a != [] {
      assert (a + [f])[1..] == a[1..] + [f];
      DistinctLast(a[1..], f);
      KeysCons(a);
      Appended(a[1..], f, f.key);
    }
  }

  lemma {:induction false} UniqueOnce(items: seq<Json>)
    ensures NoRepeats(Unique(items))
  {
    if items != [] {
      UniqueOnce(items[..|items| - 1]);
    }
  }

  // ---- One part ----

  function Required(fields: Fields): seq<Json> {
    ArrayItems(Get(fields, "required"))
  }

  /** Every `required` is a list. */
  predicate ListsRequired(fields: Fields) {
    Get(fields, "required").Some? ==> At(fields, "required").Arr?
  }

  /** What one part changes. */
  ghost predicate PartMerged(m: Fields, q: Fields, r: Fields) {
    OthersMerged(m, q, r) && (ListsRequired(q) ==> RequiredMerged(m, q, r))
  }

  ghost predicate OthersMerged(m: Fields, q: Fields, r: Fields) {
    forall k | k != "properties" && k != "required" :: Get(r, k) == if k in Keys(q) then Get(q, k) else Get(m, k)
  }

  ghost predicate RequiredMerged(m: Fields, q: Fields, r: Fields) {
    && ("required" in Keys(r) <==> "required" in Keys(m) || "required" in Keys(q))
    && (ListsRequired(m) ==> ListsRequired(r))
    && (forall x :: x in Required(r) <==> x in Required(m) || x in Required(q))
    && (NoRepeats(Required(m)) ==> NoRepeats(Required(r)))
  }

  /** One part's properties are put over those before. */
  ghost predicate PropertiesMerged(m: Fields, q: Fields, r: Fields) {
    forall p :: Get(Props(r), p) == if p in Keys(Props(q)) then Get(Props(q), p) else Get(Props(m), p)
  }

  lemma OtherMerges(m: Fields, q: Fields, f: Field, r: Fields)
    requires OthersMerged(m, q, r) && f.key !in Keys(q)
    ensures OthersMerged(m, q + [f], MergeMember(r, f))
  {
    hide Unique, Spread, ArrayItems, ObjectFields, Keys;
    forall k | k != "properties" && k != "required"
      ensures Get(MergeMember(r, f), k) == if k in Keys(q + [f]) then Get(q + [f], k) else Get(m, k)
    {
      Appended(q, f, k);
    }
  }

  lemma RequiredMerges(m: Fields, q: Fields, f: Field, r: Fields)
    requires RequiredMerged(m, q, r) && ListsRequired(q + [f]) && f.key !in Keys(q)
    ensures RequiredMerged(m, q + [f], MergeMember(r, f))
  {
    hide Unique, Spread, ObjectFields, Keys, NoRepeats;
    Appended(q, f, "required");
    if f.key == "required" {
      RequiredUnited(m, q, f, r);
    } else {
      assert Required(q + [f]) == Required(q) && Required(MergeMember(r, f)) == Required(r);
      RequiredStays(r, f);
    }
  }

  lemma RequiredStays(r: Fields, f: Field)
    requires f.key != "required"
    ensures "required" in Keys(MergeMember(r, f)) <==> "required" in Keys(r)
    ensures Get(MergeMember(r, f), "required") == Get(r, "required")
  {
    hide Unique, Spread;
  }

  lemma RequiredUnited(m: Fields, q: Fields, f: Field, r: Fields)
    requires RequiredMerged(m, q, r) && f.key == "required" && f.value.Arr? && f.key !in Keys(q)
    ensures RequiredMerged(m, q + [f], MergeMember(r, f))
  {
    hide Unique, Keys, NoRepeats;
    Appended(q, f, "required");
    var names := Required(r) + f.value.items;
    UniqueOnce(names);
    assert MergeMember(r, f) == Put(r, "required", Arr(Unique(names)));
    assert Required(MergeMember(r, f)) == Unique(names) && Required(q + [f]) == f.value.items;
    assert Required(q) == [];
  }

  lemma MemberMerges(m: Fields, q: Fields, f: Field, r: Fields)
    requires PartMerged(m, q, r) && f.key !in Keys(q)
    ensures PartMerged(m, q + [f], MergeMember(r, f))
  {
    hide OthersMerged, RequiredMerged, MergeMember;
    OtherMerges(m, q, f, r);
    if ListsRequired(q + [f]) {
      Appended(q, f, "required");
      RequiredMerges(m, q, f, r);
    }
  }

  lemma PropertiesMerge(m: Fields, q: Fields, f: Field, r: Fields)
    requires PropertiesMerged(m, q, r) && f.key !in Keys(q)
    requires Distinct(Props(q + [f]))
    ensures PropertiesMerged(m, q + [f], MergeMember(r, f))
  {
    hide Unique, Spread, Distinct;
    Appended(q, f, "properties");
    var r' := MergeMember(r, f);
    if f.key == "properties" {
      var (before, added) := (Props(r), ObjectFields(Some(f.value)));
      assert Props(q) == [] && Props(q + [f]) == added;
      assert Props(r') == Spread(before, added);
      forall p ensures Get(Spread(before, added), p) == if p in Keys(added) then Get(added, p) else Get(before, p) {
        GetSpread(before, added, p);
      }
      NoMembers();
    } else {
      assert Props(q + [f]) == Props(q) && Props(r') == Props(r);
    }
  }

  lemma {:induction false} OnePart(m: Fields, q: Fields)
    requires Distinct(q)
    ensures PartMerged(m, q, MergePart(m, q))
    ensures Distinct(Props(q)) ==> PropertiesMerged(m, q, MergePart(m, q))
  {
    hide MergeMember, PartMerged, PropertiesMerged, Props, Distinct;
    if q == [] {
      NoPart(m);
    } else {
      var (rest, f) := (q[..|q| - 1], q[|q| - 1]);
      assert q == rest + [f];
      DistinctLast(rest, f);
      OnePart(m, rest);
      MemberMerges(m, rest, f, MergePart(m, rest));
      if Distinct(Props(q)) {
        DistinctFewer(rest, f);
        PropertiesMerge(m, rest, f, MergePart(m, rest));
      }
    }
  }

  lemma DistinctFewer(q: Fields, f: Field)
    requires f.key !in Keys(q) && Distinct(Props(q + [f]))
    ensures Distinct(Props(q))
  {
    hide Distinct;
    Appended(q, f, "properties");
    assert Distinct([]) by { NoPropsDistinct(); }
  }

  lemma NoPart(m: Fields)
    ensures PartMerged(m, [], m) && PropertiesMerged(m, [], m)
  {
  }

  // ---- All parts ----

  /** Part `i` is the last that has `k`. */
  ghost predicate LastWith(parts: seq<Fields>, i: nat, k: string) {
    i < |parts| && k in Keys(parts[i]) && forall j | i < j < |parts| :: k !in Keys(parts[j])
  }

  ghost predicate LastWithProperty(parts: seq<Fields>, i: nat, p: string) {
    i < |parts| && p in Keys(Props(parts[i])) && forall j | i < j < |parts| :: p !in Keys(Props(parts[j]))
  }

  ghost predicate AllDistinct(parts: seq<Fields>) {
    forall q | q in parts :: Distinct(q)
  }

  lemma NothingMerged()
    ensures MergeParts([]) == [] && Keys([]) == {} && Required([]) == [] && Props([]) == []
  {
  }

  /** A keyword of the merged object, other than `properties` and `required`, has the value that the last part with it
      gives it; one that no part has is absent. */
  lemma {:induction false} MergedKeyword(parts: seq<Fields>, k: string)
    requires AllDistinct(parts) && k != "properties" && k != "required"
    ensures forall i: nat | LastWith(parts, i, k) :: Get(MergeParts(parts), k) == Get(parts[i], k)
    ensures (forall q | q in parts :: k !in Keys(q)) ==> k !in Keys(MergeParts(parts))
  {
    hide MergePart, Distinct;
    if parts == [] {
      NothingMerged();
    } else {
      var n := |parts| - 1;
      var (rest, q) := (parts[..n], parts[n]);
      assert parts == rest + [q];
      MergedKeyword(rest, k);
      OnePart(MergeParts(rest), q);
      forall i: nat | LastWith(parts, i, k) ensures Get(MergeParts(parts), k) == Get(parts[i], k) {
        if i < n {
          assert LastWith(rest, i, k) by {
            assert forall j | i < j < n :: rest[j] == parts[j];
          }
          assert k !in Keys(parts[n]);
        }
      }
    }
  }

  /** A property of the merged object has the schema that the last part with it gives it. */
  lemma {:induction false} MergedProperty(parts: seq<Fields>, p: string)
    requires AllDistinct(parts) && forall q | q in parts :: Distinct(Props(q))
    ensures forall i: nat | LastWithProperty(parts, i, p) :: Get(Props(MergeParts(parts)), p) == Get(Props(parts[i]), p)
    ensures (forall q | q in parts :: p !in Keys(Props(q))) ==> p !in Keys(Props(MergeParts(parts)))
  {
    hide MergePart, Distinct, PartMerged, Props, LastWithProperty;
    if parts == [] {
      NothingMerged();
      NoLast(p);
    } else {
      var n := |parts| - 1;
      var (rest, q) := (parts[..n], parts[n]);
      assert parts == rest + [q];
      MergedProperty(rest, p);
      OnePart(MergeParts(rest), q);
      forall i: nat | LastWithProperty(parts, i, p)
        ensures i < |parts| && Get(Props(MergeParts(parts)), p) == Get(Props(parts[i]), p)
      {
        LastStays(rest, q, i, p);
        LastIndex(parts, i, p);
        assert PropertiesMerged(MergeParts(rest), q, MergeParts(parts));
      }
    }
  }

  lemma LastIndex(parts: seq<Fields>, i: nat, p: string)
    requires LastWithProperty(parts, i, p)
    ensures i < |parts|
  {
  }

  lemma NoLast(p: string)
    ensures forall i: nat :: !LastWithProperty([], i, p)
  {
  }

  lemma LastStays(rest: seq<Fields>, q: Fields, i: nat, p: string)
    requires LastWithProperty(rest + [q], i, p)
    ensures if i == |rest| then p in Keys(Props(q)) else LastWithProperty(rest, i, p) && p !in Keys(Props(q))
  {
    hide Props, Keys;
    var parts := rest + [q];
    if i < |rest| {
      assert parts[|rest|] == q;
      forall j | i < j < |rest| ensures p !in Keys(Props(rest[j])) {
        assert parts[j] == rest[j];
      }
    }
  }

  /** Where every `required` is a list, the merged object requires a name if and only if some part does, and names it once. */
  lemma {:induction false} MergedRequired(parts: seq<Fields>)
    requires AllDistinct(parts) && forall q | q in parts :: ListsRequired(q)
    ensures var m := MergeParts(parts);
      && (forall x :: x in Required(m) <==> exists q | q in parts :: x in Required(q))
      && NoRepeats(Required(m)) && ListsRequired(m)
      && ("required" in Keys(m) <==> exists q | q in parts :: "required" in Keys(q))
  {
    hide MergePart, Distinct, Required, ListsRequired, NoRepeats;
    if parts == [] {
      NothingMerged();
      NoneRequired();
    } else {
      var n := |parts| - 1;
      var (rest, q) := (parts[..n], parts[n]);
      assert parts == rest + [q];
      MergedRequired(rest);
      OnePart(MergeParts(rest), q);
      assert forall part | part in parts :: part in rest || part == q;
    }
  }

  lemma NoneRequired()
    ensures NoRepeats(Required([])) && ListsRequired([])
  {
  }

  // ---- What is copied, and how deep ----

  /** The keywords of the provider that hold no schema which is projected. */
  predicate CopiedKey(k: string) {
    k in {
      "type", "format", "title", "description", "enum", "prefixItems", "minItems", "maxItems", "minimum", "maximum",
      "additionalProperties", "required", "propertyOrdering"
    }
  }

  /** A `const` becomes an `enum` of one, the keywords of the provider are copied unless they hold schemas, and every other
      keyword is dropped. */
  lemma MemberExactly(place: Place, f: Field)
    requires place.depth <= 6
    ensures f.key == "const" ==> ProjectMember(place, f) == Ok(Some(Field("enum", Arr([f.value]))))
    ensures CopiedKey(f.key) ==> ProjectMember(place, f) == Ok(Some(f))
    ensures f.key in {"properties", "items"} && !f.value.Obj? ==> ProjectMember(place, f) == Ok(Some(f))
    ensures f.key in {"anyOf", "oneOf"} && !f.value.Arr? ==> ProjectMember(place, f) == Ok(Some(f))
    ensures !CopiedKey(f.key) && f.key !in {"const", "properties", "items", "anyOf", "oneOf"} ==>
      ProjectMember(place, f) == Ok(None)
  {
    hide ProjectChildren, ProjectProperties, ProjectChild;
  }

  /** Six schemas may lie above one that is not given up on. */
  lemma DepthExactly(place: Place, schema: Fields)
    ensures place.depth >= 7 ==> Project(place, schema) == Ok(LooseSchemaFor(schema))
    ensures place.depth <= 6 && Get(schema, "$ref") == None && Get(schema, "type") == None ==>
      Project(place, schema) == ProjectObject(place, schema)
    ensures place.Below().depth == place.depth + 1
  {
    hide ProjectObject, LooseSchemaFor;
  }

  // ---- The projection ----

  function AllOf(schema: Fields): seq<Json> {
    ArrayItems(Get(schema, "allOf"))
  }

  /** The written schema requires the name, itself or by a merged branch. */
  predicate Requires(place: Place, schema: Fields, name: Json)
    decreases place.Left(), 1
  {
    match Standing(place, schema)
    case None => false
    case Some((at, x)) =>
      name in Required(x) || exists b | b in AllOf(x) :: BranchRequires(at, b, name)
  }

  /** There every object names a key once, and every `required` is a list. */
  predicate ListsThroughout(place: Place, schema: Fields)
    decreases place.Left(), 1
  {
    match Standing(place, schema)
    case None => true
    case Some((at, x)) =>
      Distinct(x) && ListsRequired(x) && forall b | b in AllOf(x) :: BranchLists(at, b)
  }

  /** A branch of an `allOf` is merged if it is not a conditional. */
  predicate BranchRequires(place: Place, b: Json, name: Json)
    requires place.depth <= MAX_PROJECTION_DEPTH
    decreases place.Left(), 0
  {
    Structural(b) && Requires(place.Below(), b.fields, name)
  }

  predicate BranchLists(place: Place, b: Json)
    requires place.depth <= MAX_PROJECTION_DEPTH
    decreases place.Left(), 0
  {
    Structural(b) ==> ListsThroughout(place.Below(), b.fields)
  }

  lemma {:induction false} MergedDistinct(parts: seq<Fields>)
    ensures Distinct(MergeParts(parts))
  {
    if parts != [] {
      MergedDistinct(parts[..|parts| - 1]);
      PartDistinct(MergeParts(parts[..|parts| - 1]), parts[|parts| - 1]);
    }
  }

  lemma {:induction false} PartDistinct(m: Fields, q: Fields)
    requires Distinct(m)
    ensures Distinct(MergePart(m, q))
  {
    hide Distinct, Spread, Unique;
    if q != [] {
      var r := MergePart(m, q[..|q| - 1]);
      PartDistinct(m, q[..|q| - 1]);
      var f := q[|q| - 1];
      DistinctPut(r, f.key, f.value);
      DistinctPut(r, "properties", Obj(Spread(ObjectFields(Get(r, "properties")), ObjectFields(Some(f.value)))));
      DistinctPut(r, "required", Arr(Unique(ArrayItems(Get(r, "required")) + ArrayItems(Some(f.value)))));
    }
  }

  lemma {:induction false} BaseRequired(place: Place, members: Fields)
    requires place.depth <= MAX_PROJECTION_DEPTH && ProjectMembers(place, members).Ok? && Distinct(members)
    ensures Get(ProjectMembers(place, members).value, "required") == Get(members, "required")
  {
    hide ProjectMember, Distinct;
    if members != [] {
      var (rest, f) := (members[..|members| - 1], members[|members| - 1]);
      assert members == rest + [f];
      DistinctLast(rest, f);
      BaseRequired(place, rest);
      WritesUnder(place, f);
      Appended(rest, f, "required");
    }
  }

  /** Every branch that is not a conditional has its projection among those merged. */
  lemma {:induction false} BranchMerged(place: Place, branches: seq<Json>, x: Json)
    requires place.depth <= MAX_PROJECTION_DEPTH && ProjectBranches(place, branches).Ok?
    requires x in branches && Structural(x)
    ensures Project(place.Below(), x.fields).Ok?
    ensures Project(place.Below(), x.fields).value in ProjectBranches(place, branches).value
  {
    hide Project, Structural;
    if x != branches[0] {
      assert x in branches[1..];
      BranchMerged(place, branches[1..], x);
    }
  }

  ghost predicate RequiresNothing(r: Fields) {
    Distinct(r) && ListsRequired(r) && Required(r) == []
  }

  lemma LooseRequires(schema: Fields)
    ensures RequiresNothing(LooseSchemaFor(schema))
  {
  }

  lemma AnyOfRequires(variants: seq<Json>)
    ensures RequiresNothing([Field("anyOf", Arr(variants))])
  {
  }

  /** A schema that is given up on, or has a list of types, asks for no name. */
  lemma {:induction false} NothingRequired(place: Place, schema: Fields)
    requires Standing(place, schema).None? && Project(place, schema).Ok?
    ensures RequiresNothing(Project(place, schema).value)
    decreases place.Left()
  {
    hide ProjectVariants, LooseSchemaFor, RequiresNothing, ResolveRef;
    LooseRequires(schema);
    if place.depth <= MAX_PROJECTION_DEPTH {
      match Get(schema, "$ref")
      case Some(Str(reference)) =>
        var target := ResolveRef(place.documents, reference, place.file).value;
        LooseRequires(target.schema);
        if target.key !in place.seen {
          NothingRequired(place.Through(target), target.schema);
        }
      case _ =>
        AnyOfRequires(ProjectVariants(place, schema, At(schema, "type").items).value);
    }
  }

  /** Where every `required` is a list, the projection requires exactly what the written schema requires. */
  lemma {:induction false} ProjectionRequires(place: Place, schema: Fields, name: Json)
    requires Project(place, schema).Ok? && ListsThroughout(place, schema)
    ensures var out := Project(place, schema).value;
      Distinct(out) && ListsRequired(out) && (name in Required(out) <==> Requires(place, schema, name))
    decreases place.Left(), 1
  {
    hide Project, ProjectObject, Standing, Required, ListsRequired, Distinct, Structural;
    if Standing(place, schema).None? {
      NothingRequired(place, schema);
    } else {
      var (at, x) := Standing(place, schema).value;
      StandingProjects(place, schema);
      ObjectRequires(at, x, name);
    }
  }

  lemma {:induction false} ObjectRequires(place: Place, schema: Fields, name: Json)
    requires place.depth <= MAX_PROJECTION_DEPTH && ProjectObject(place, schema).Ok?
    requires Distinct(schema) && ListsRequired(schema)
    requires forall b | b in AllOf(schema) :: BranchLists(place, b)
    ensures var out := ProjectObject(place, schema).value;
      && Distinct(out) && ListsRequired(out)
      && (name in Required(out) <==>
            name in Required(schema) || exists b | b in AllOf(schema) :: BranchRequires(place, b, name))
    decreases place.Left(), 0
  {
    hide ProjectMembers, ProjectBranches, Project, Distinct, Structural, BranchRequires, BranchLists;
    var base := ProjectMembers(place, schema).value;
    var branches := ProjectBranches(place, AllOf(schema)).value;
    BaseRequired(place, schema);
    MembersWritten(place, schema);
    hide Required, ListsRequired;
    BranchesRequire(place, AllOf(schema), name);
    var parts := [base] + branches;
    if branches != [] {
      MergedRequired(parts);
      MergedDistinct(parts);
      assert base in parts && forall q | q in branches :: q in parts;
    }
  }

  lemma {:induction false} BranchesRequire(place: Place, all: seq<Json>, name: Json)
    requires place.depth <= MAX_PROJECTION_DEPTH && ProjectBranches(place, all).Ok?
    requires forall b | b in all :: BranchLists(place, b)
    ensures var branches := ProjectBranches(place, all).value;
      && (forall q | q in branches :: Distinct(q) && ListsRequired(q))
      && ((exists q | q in branches :: name in Required(q)) <==> exists b | b in all :: BranchRequires(place, b, name))
    decreases place.Left() - 1, 2
  {
    hide ProjectBranches, Project, Distinct, Truthy, Requires, ListsThroughout, Required, ListsRequired;
    var branches := ProjectBranches(place, all).value;
    forall q | q in branches
      ensures Distinct(q) && ListsRequired(q)
      ensures name in Required(q) ==> exists b | b in all :: BranchRequires(place, b, name)
    {
      var b := BranchProjected(place, all, q);
      ProjectionRequires(place.Below(), b.fields, name);
      assert BranchLists(place, b);
      assert Requires(place.Below(), b.fields, name) ==> BranchRequires(place, b, name);
    }
    forall b | b in all && BranchRequires(place, b, name) ensures exists q | q in branches :: name in Required(q) {
      BranchMerged(place, all, b);
      assert BranchLists(place, b);
      ProjectionRequires(place.Below(), b.fields, name);
    }
  }

  /** An object that the projection accepts names everything that the schema and its merged branches require. */
  lemma AcceptedNames(w: World, place: Place, schema: Fields, name: string, v: Json)
    requires Project(place, schema).Ok? && ListsThroughout(place, schema) && Requires(place, schema, Str(name))
    requires v.Obj? && Admits(w, Obj(Project(place, schema).value), v)
    ensures name in Keys(v.fields)
  {
    hide Judge, Project, ListsThroughout, Requires;
    ProjectionRequires(place, schema, Str(name));
    var out := Project(place, schema).value;
    MemberAdmits(w, out, "required", v);
    RequiredNamed(w, out, name, v);
  }
}
