/** Dereferencing a tool schema keeps its meaning. */
module ToolSchemaMeaning {
  import opened Json
  import opened JsonSchema
  import opened SchemaReferences
  import opened ToolSchemas

  // ---- The schemas on which the meaning is kept ----

  /** The keyword has the shape under which it applies subschemas. */
  predicate Shaped(kind: Kind, a: Json) {
    (TakesList(kind) && a.Arr?) || (kind == Properties && a.Obj?) || TakesSchema(kind)
  }

  /** References stand only where schemas do, and no `$ref` has an `allOf` beside it. */
  ghost predicate Clean(schema: Json)
    decreases Size(schema)
  {
    schema.Obj? ==>
      && Distinct(schema.fields)
      && forall k | k in Keys(schema.fields) ::
           var a, kind := Get(schema.fields, k).value, KindOf(k);
           && (kind == Reference ==> a.Str? && "allOf" !in Keys(schema.fields))
           && (kind == Properties && a.Obj? ==> !IsReference(a.fields))
           && (!Shaped(kind, a) && kind != Reference && kind != Definitions ==> References(a) == {})
           && forall x | x in Subschemas(kind, a, SiblingsOf(schema.fields)) && Size(x) < Size(schema) :: Clean(x)
  }

  /** Every reference in `v` that resolves leads to a clean schema. */
  ghost predicate CleanTargets(s: SchemaSet, references: set<string>, doc: string) {
    forall r | r in references && ResolveReference(s, r, doc).Ok? :: Clean(ResolveReference(s, r, doc).value.value)
  }

  ghost predicate CleanSet(s: SchemaSet) {
    forall doc | doc in s.documents :: CleanTargets(s, References(s.documents[doc]), doc)
  }

  /** The standard's reading of references is the code's own resolution. */
  function WorldOf(s: SchemaSet, assertion: (string, Json, Json) -> bool): World {
    World(
      (doc, reference) =>
        match ResolveReference(s, reference, doc)
        case Ok(r) => Some((r.documentName, r.value))
        case Err(_) => None,
      assertion)
  }

  // ---- Dereferencing keeps the meaning ----

  /** One dereferencing in progress, and two ways to judge: the source in `doc` with fuel `n`, the
      result in any document with any fuel. */
  datatype Reading = Reading(
    s: SchemaSet, assertion: (string, Json, Json) -> bool, keys: set<string>, doc: string, stack: set<string>,
    n: nat, doc': string, n': nat)
  {
    ghost predicate Valid() {
      Covers(s, keys) && CleanSet(s) && |keys - stack| <= n
    }

    /** The references in `v` are covered and lead to clean schemas. */
    ghost predicate Covered(v: Json) {
      TargetKeys(s, References(v), doc) <= keys && CleanTargets(s, References(v), doc)
    }

    /** `y` is `x` dereferenced. */
    ghost predicate Gives(x: Json, y: Json)
      requires Valid()
    {
      Covered(x) && Dereference(s, keys, x, doc, stack) == Ok(y)
    }

    ghost predicate JudgesSource(want: bool, x: Json, v: Json) {
      Judge(WorldOf(s, assertion), want, n, doc, x, v)
    }

    ghost predicate JudgesResult(want: bool, y: Json, v: Json) {
      Judge(WorldOf(s, assertion), want, n', doc', y, v)
    }

    ghost predicate SeesSource(seen: bool, x: Json, v: Json, p: string) {
      Noted(WorldOf(s, assertion), seen, n, doc, x, v, p)
    }

    ghost predicate SeesResult(seen: bool, y: Json, v: Json, p: string) {
      Noted(WorldOf(s, assertion), seen, n', doc', y, v, p)
    }

    /** The verdicts and notes inside the schema object `fields` of the source, and `out` of the result. */
    ghost function Source(fields: Fields): Verdict {
      Judgement(WorldOf(s, assertion), n, doc, 1 + SizeFields(fields))
    }

    ghost function Result(out: Fields): Verdict {
      Judgement(WorldOf(s, assertion), n', doc', 1 + SizeFields(out))
    }

    ghost function SourceNotes(fields: Fields): Notes {
      Noting(WorldOf(s, assertion), n, doc, 1 + SizeFields(fields))
    }

    ghost function ResultNotes(out: Fields): Notes {
      Noting(WorldOf(s, assertion), n', doc', 1 + SizeFields(out))
    }

    ghost predicate Agree(fields: Fields, out: Fields, x: Json, y: Json) {
      && Carries(Source(fields), Result(out), x, y) && Carries(Result(out), Source(fields), y, x)
      && NotesCarry(SourceNotes(fields), ResultNotes(out), x, y) && NotesCarry(ResultNotes(out), SourceNotes(fields), y, x)
    }

    ghost predicate AgreeOption(fields: Fields, out: Fields, x: Option<Json>, y: Option<Json>) {
      x.Some? == y.Some? && (x.Some? ==> Agree(fields, out, x.value, y.value))
    }

    /** The keyword `k` of the source has the verdicts of the keyword `j` of the result. */
    ghost predicate KeywordAgrees(fields: Fields, k: string, out: Fields, j: string, want: bool, v: Json)
      requires k in Keys(fields) && j in Keys(out)
    {
      Keyword(WorldOf(s, assertion), want, n, doc, fields, k, v) <==> Keyword(WorldOf(s, assertion), want, n', doc', out, j, v)
    }

    /** They evaluate the same properties. */
    ghost predicate MarkingAgrees(fields: Fields, k: string, out: Fields, j: string, v: Json)
      requires k in Keys(fields) && j in Keys(out)
    {
      forall seen, p ::
        Marking(WorldOf(s, assertion), seen, n, doc, fields, k, v, p) <==>
        Marking(WorldOf(s, assertion), seen, n', doc', out, j, v, p)
    }

    /** `out` is `fields` without its reference, every value dereferenced, and perhaps an `allOf`. */
    ghost predicate Rewrites(fields: Fields, out: Fields)
      requires Valid()
    {
      && (forall k | k in Keys(fields) && k != "$ref" :: k in Keys(out) && Gives(At(fields, k), At(out, k)))
      && (forall k | k in Keys(out) :: k in Keys(fields) || k == "allOf")
    }

    ghost predicate Ready(fields: Fields, out: Fields) {
      Valid() && Clean(Obj(fields)) && Rewrites(fields, out)
    }

    ghost function Left(): nat {
      |keys - stack|
    }
  }

  lemma CleanAt(fields: Fields, k: string)
    requires Clean(Obj(fields)) && k in Keys(fields)
    ensures KindOf(k) == Properties && At(fields, k).Obj? ==> !IsReference(At(fields, k).fields)
    ensures !Shaped(KindOf(k), At(fields, k)) && KindOf(k) !in {Reference, Definitions} ==> References(At(fields, k)) == {}
    ensures forall x | x in Subschemas(KindOf(k), At(fields, k), SiblingsOf(fields)) :: Clean(x)
  {
    hide KindOf, References, Clean, Subschemas, SiblingsOf, Shaped;
    Shapeless(fields, k);
    forall x | x in Subschemas(KindOf(k), At(fields, k), SiblingsOf(fields)) ensures Clean(x) {
      CleanInside(fields, k, x);
    }
  }

  lemma CleanInside(fields: Fields, k: string, x: Json)
    requires Clean(Obj(fields)) && k in Keys(fields)
    requires x in Subschemas(KindOf(k), At(fields, k), SiblingsOf(fields))
    ensures Clean(x)
  {
    hide KindOf, References, Shaped, Subschemas, SiblingsOf;
    BranchesSmaller(fields);
    SubschemaSmaller(KindOf(k), At(fields, k), SiblingsOf(fields), SizeFields(fields), x);
  }

  /** Source and result give the same verdicts and evaluate the same properties. */
  lemma {:induction false} Meaning(r: Reading, x: Json, y: Json, want: bool, v: Json)
    requires r.Valid() && Clean(x) && r.Gives(x, y)
    ensures r.JudgesSource(want, x, v) <==> r.JudgesResult(want, y, v)
    ensures forall seen, p :: r.SeesSource(seen, x, v, p) <==> r.SeesResult(seen, y, v, p)
    decreases r.Left(), Size(x), 8
  {
    hide Clean;
    if x.Obj? && IsReference(x.fields) {
      ReferenceMeaning(r, x.fields, y, want, v);
    } else if x.Obj? {
      MembersDereferenced(r, x, y);
      ObjectMeaning(r, x.fields, y.fields, want, v);
    }
  }

  lemma {:induction false} SubschemaMeaning(r: Reading, fields: Fields, out: Fields, x: Json, y: Json)
    requires r.Valid() && Clean(x) && r.Gives(x, y)
    requires Size(x) <= SizeFields(fields) && Size(y) <= SizeFields(out)
    ensures r.Agree(fields, out, x, y)
    decreases r.Left(), Size(x), 9
  {
    hide Judge, Noted, Clean;
    forall want, v ensures r.Source(fields)(want, x, v) <==> r.Result(out)(want, y, v) {
      Meaning(r, x, y, want, v);
    }
    forall seen, v, p ensures r.SourceNotes(fields)(seen, x, v, p) <==> r.ResultNotes(out)(seen, y, v, p) {
      Meaning(r, x, y, true, v);
      assert r.SeesSource(seen, x, v, p) <==> r.SeesResult(seen, y, v, p);
    }
  }

  lemma {:induction false} MemberMeaning(r: Reading, fields: Fields, out: Fields, k: string)
    requires r.Ready(fields, out) && k in Keys(fields) && TakesSchema(KindOf(k))
    ensures k in Keys(out) && r.Agree(fields, out, At(fields, k), At(out, k))
    decreases r.Left(), 1 + SizeFields(fields), 0
  {
    hide Clean;
    CleanAt(fields, k);
    SubschemaMeaning(r, fields, out, At(fields, k), At(out, k));
  }

  lemma {:induction false} ListCorresponds(r: Reading, fields: Fields, out: Fields, k: string)
    requires r.Ready(fields, out) && k in Keys(fields) && TakesList(KindOf(k)) && At(fields, k).Arr?
    ensures k in Keys(out) && At(out, k).Arr? && |At(out, k).items| == |At(fields, k).items|
    ensures forall i | 0 <= i < |At(fields, k).items| ::
              r.Agree(fields, out, At(fields, k).items[i], At(out, k).items[i])
    decreases r.Left(), 1 + SizeFields(fields), 0
  {
    hide Clean;
    CleanAt(fields, k);
    var a, c := At(fields, k), At(out, k);
    ItemDereferenced(r.s, r.keys, a.items, r.doc, r.stack, 0);
    forall i | 0 <= i < |a.items| ensures r.Agree(fields, out, a.items[i], c.items[i]) {
      ItemDereferenced(r.s, r.keys, a.items, r.doc, r.stack, i);
      ReferencesOfItem(a.items, a.items[i]);
      SizeItem(a.items, i);
      SizeItem(c.items, i);
      SubschemaMeaning(r, fields, out, a.items[i], c.items[i]);
    }
  }

  lemma {:induction false} PropertiesCorrespond(r: Reading, fields: Fields, out: Fields, k: string)
    requires r.Ready(fields, out) && k in Keys(fields) && KindOf(k) == Properties && At(fields, k).Obj?
    ensures k in Keys(out) && At(out, k).Obj? && Keys(At(out, k).fields) == Keys(At(fields, k).fields)
    ensures forall p | p in Keys(At(fields, k).fields) ::
              r.Agree(fields, out, At(At(fields, k).fields, p), At(At(out, k).fields, p))
    decreases r.Left(), 1 + SizeFields(fields), 0
  {
    hide Clean;
    CleanAt(fields, k);
    MembersDereferenced(r, At(fields, k), At(out, k));
    forall p | p in Keys(At(fields, k).fields)
      ensures r.Agree(fields, out, At(At(fields, k).fields, p), At(At(out, k).fields, p))
    {
      SubschemaMeaning(r, fields, out, At(At(fields, k).fields, p), At(At(out, k).fields, p));
    }
  }

  /** A container of members without a reference of its own is dereferenced member by member. */
  lemma MembersDereferenced(r: Reading, a: Json, c: Json)
    requires r.Valid() && r.Gives(a, c) && a.Obj? && !IsReference(a.fields)
    ensures c.Obj? && Keys(c.fields) == Keys(a.fields)
    ensures forall p | p in Keys(a.fields) :: r.Gives(At(a.fields, p), At(c.fields, p))
  {
    forall p ensures p in Keys(a.fields) <==> p in Keys(c.fields)
      ensures p in Keys(a.fields) ==> p in Keys(c.fields) && r.Gives(At(a.fields, p), At(c.fields, p))
    {
      FieldDereferenced(r.s, r.keys, a.fields, r.doc, r.stack, p);
      if p in Keys(a.fields) {
        ReferencesOfMember(a.fields, p);
      }
    }
  }

  /** A keyword that does not have its shape holds no reference. */
  lemma Shapeless(fields: Fields, k: string)
    requires Clean(Obj(fields)) && k in Keys(fields)
    ensures KindOf(k) == Properties && At(fields, k).Obj? ==> !IsReference(At(fields, k).fields)
    ensures !Shaped(KindOf(k), At(fields, k)) && KindOf(k) !in {Reference, Definitions} ==> References(At(fields, k)) == {}
  {
    hide SiblingsOf, Subschemas;
  }

  /** What the other keywords tell a keyword is the same after dereferencing. */
  lemma NamesCorrespond(r: Reading, fields: Fields, out: Fields)
    requires r.Ready(fields, out)
    ensures PropertyNames(fields) == PropertyNames(out)
  {
    hide Clean, Dereference, References, KindOf;
    KeyKinds();
    if "properties" in Keys(fields) {
      Shapeless(fields, "properties");
      var a, c := At(fields, "properties"), At(out, "properties");
      if a.Obj? {
        MembersDereferenced(r, a, c);
      } else {
        Untouched(r.s, r.keys, a, r.doc, r.stack);
      }
    }
  }

  lemma PrefixCorresponds(r: Reading, fields: Fields, out: Fields)
    requires r.Ready(fields, out)
    ensures PrefixLength(fields) == PrefixLength(out)
  {
    hide Clean, KindOf;
    KeyKinds();
    if "prefixItems" in Keys(fields) {
      Shapeless(fields, "prefixItems");
      var a := At(fields, "prefixItems");
      if a.Arr? {
        ItemDereferenced(r.s, r.keys, a.items, r.doc, r.stack, 0);
      } else {
        Untouched(r.s, r.keys, a, r.doc, r.stack);
      }
    }
  }

  lemma {:induction false} BranchMeaning(r: Reading, fields: Fields, out: Fields, k: string)
    requires r.Ready(fields, out) && k in {"then", "else"}
    ensures r.AgreeOption(fields, out, Get(fields, k), Get(out, k))
    decreases r.Left(), 1 + SizeFields(fields), 1
  {
    hide Clean, KindOf, Dereference, References, r.Agree;
    KeyKinds();
    if k in Keys(fields) {
      MemberMeaning(r, fields, out, k);
    }
  }

  /** The values of keyword `k` before and after dereferencing, subschema by subschema. */
  ghost predicate Matches(r: Reading, fields: Fields, out: Fields, k: string)
    requires k in Keys(fields) && k in Keys(out)
  {
    var (kind, a, c) := (KindOf(k), At(fields, k), At(out, k));
    if TakesList(kind) then
      a.Arr? == c.Arr? && (a.Arr? ==>
        |a.items| == |c.items| && forall i | 0 <= i < |a.items| :: r.Agree(fields, out, a.items[i], c.items[i]))
    else if kind == Properties then
      a.Obj? == c.Obj? && (a.Obj? ==>
        && Keys(a.fields) == Keys(c.fields)
        && forall p | p in Keys(a.fields) :: r.Agree(fields, out, At(a.fields, p), At(c.fields, p)))
    else if TakesSchema(kind) then
      && r.Agree(fields, out, a, c)
      && PropertyNames(fields) == PropertyNames(out) && PrefixLength(fields) == PrefixLength(out)
      && r.AgreeOption(fields, out, Get(fields, "then"), Get(out, "then"))
      && r.AgreeOption(fields, out, Get(fields, "else"), Get(out, "else"))
    else
      kind == Definitions || a == c
  }

  lemma {:induction false} KeywordMatches(r: Reading, fields: Fields, out: Fields, k: string)
    requires r.Ready(fields, out) && k in Keys(fields) && k != "$ref"
    ensures k in Keys(out) && Matches(r, fields, out, k)
    decreases r.Left(), 1 + SizeFields(fields), 3
  {
    hide r.Ready, r.Agree, r.AgreeOption, PropertyNames, PrefixLength, KindOf, Matches;
    StillThere(r, fields, out, k);
    KindMatches(r, fields, out, k);
  }

  lemma StillThere(r: Reading, fields: Fields, out: Fields, k: string)
    requires r.Ready(fields, out) && k in Keys(fields) && k != "$ref"
    ensures k in Keys(out)
  {
    hide Clean;
  }

  lemma {:induction false} KindMatches(r: Reading, fields: Fields, out: Fields, k: string)
    requires r.Ready(fields, out) && k in Keys(fields) && k in Keys(out) && k != "$ref"
    ensures Matches(r, fields, out, k)
    decreases r.Left(), 1 + SizeFields(fields), 2
  {
    hide r.Ready, r.Agree, r.AgreeOption, PropertyNames, PrefixLength, KindOf;
    var kind := KindOf(k);
    if TakesList(kind) && At(fields, k).Arr? {
      ListCorresponds(r, fields, out, k);
    } else if kind == Properties && At(fields, k).Obj? {
      PropertiesCorrespond(r, fields, out, k);
    } else if TakesSchema(kind) {
      MemberMeaning(r, fields, out, k);
      NamesCorrespond(r, fields, out);
      PrefixCorresponds(r, fields, out);
      BranchMeaning(r, fields, out, "then");
      BranchMeaning(r, fields, out, "else");
    } else if kind != Definitions {
      PlainStays(r, fields, out, k);
    }
  }

  lemma MatchesCorresponds(r: Reading, fields: Fields, out: Fields, k: string)
    requires k in Keys(fields) && k in Keys(out) && Matches(r, fields, out, k)
    ensures Corresponds(
              r.Source(fields), r.Result(out), KindOf(k), At(fields, k), At(out, k), SiblingsOf(fields), SiblingsOf(out))
    ensures Corresponds(
              r.Result(out), r.Source(fields), KindOf(k), At(out, k), At(fields, k), SiblingsOf(out), SiblingsOf(fields))
  {
    hide KindOf, Carries, NotesCarry, PropertyNames, PrefixLength, r.Source, r.Result, r.SourceNotes, r.ResultNotes;
  }

  lemma MatchesNotes(r: Reading, fields: Fields, out: Fields, k: string)
    requires k in Keys(fields) && k in Keys(out) && Matches(r, fields, out, k)
    ensures NotesCorrespond(r.Source(fields), r.Result(out), r.SourceNotes(fields), r.ResultNotes(out),
              KindOf(k), At(fields, k), At(out, k), SiblingsOf(fields), SiblingsOf(out))
    ensures NotesCorrespond(r.Result(out), r.Source(fields), r.ResultNotes(out), r.SourceNotes(fields),
              KindOf(k), At(out, k), At(fields, k), SiblingsOf(out), SiblingsOf(fields))
  {
    hide KindOf, Carries, NotesCarry, PropertyNames, PrefixLength, r.Source, r.Result, r.SourceNotes, r.ResultNotes;
  }

  /** A keyword that applies no subschemas stays as it is. */
  lemma PlainStays(r: Reading, fields: Fields, out: Fields, k: string)
    requires r.Ready(fields, out) && k in Keys(fields) && k != "$ref"
    requires !Shaped(KindOf(k), At(fields, k)) && KindOf(k) != Definitions
    ensures k in Keys(out) && At(out, k) == At(fields, k)
  {
    hide Clean, KindOf;
    ReferenceKey(k);
    Shapeless(fields, k);
    Untouched(r.s, r.keys, At(fields, k), r.doc, r.stack);
  }

  lemma {:induction false} KeywordMeaning(r: Reading, fields: Fields, out: Fields, k: string, want: bool, v: Json)
    requires r.Ready(fields, out) && k in Keys(fields) && k != "$ref" && k != "unevaluatedProperties"
    ensures k in Keys(out) && r.KeywordAgrees(fields, k, out, k, want, v)
    decreases r.Left(), 1 + SizeFields(fields), 4
  {
    hide Clean, Carries, Judge, Applies, Corresponds, Dereference, SiblingsOf, KindOf, Matches;
    ReferenceKey(k);
    KeywordMatches(r, fields, out, k);
    MatchesCorresponds(r, fields, out, k);
    var w, kind := WorldOf(r.s, r.assertion), KindOf(k);
    var a, c, s, t := At(fields, k), At(out, k), SiblingsOf(fields), SiblingsOf(out);
    if Applies(r.Source(fields), w, want, kind, k, a, s, v) {
      AppliesCarries(r.Source(fields), r.Result(out), w, want, kind, k, a, c, s, t, v);
    }
    if Applies(r.Result(out), w, want, kind, k, c, t, v) {
      AppliesCarries(r.Result(out), r.Source(fields), w, want, kind, k, c, a, t, s, v);
    }
  }

  lemma {:induction false} MarkingMeaning(r: Reading, fields: Fields, out: Fields, k: string, v: Json)
    requires r.Ready(fields, out) && k in Keys(fields) && k != "$ref"
    ensures k in Keys(out) && r.MarkingAgrees(fields, k, out, k, v)
    decreases r.Left(), 1 + SizeFields(fields), 4
  {
    hide Clean, Carries, Marks, NotesCorrespond, Dereference, SiblingsOf, KindOf, Judgement, Noting, Matches;
    ReferenceKey(k);
    KeywordMatches(r, fields, out, k);
    MatchesNotes(r, fields, out, k);
    var (w, kind, j1, j2) := (WorldOf(r.s, r.assertion), KindOf(k), r.Source(fields), r.Result(out));
    var (n1, n2, a, c) := (r.SourceNotes(fields), r.ResultNotes(out), At(fields, k), At(out, k));
    var (s, t) := (SiblingsOf(fields), SiblingsOf(out));
    forall seen, p
      ensures Marking(w, seen, r.n, r.doc, fields, k, v, p) <==> Marking(w, seen, r.n', r.doc', out, k, v, p)
    {
      if Marks(j1, n1, seen, kind, a, s, v, p) {
        MarksCarried(j1, j2, n1, n2, seen, kind, a, c, s, t, v, p);
      }
      if Marks(j2, n2, seen, kind, c, t, v, p) {
        MarksCarried(j2, j1, n2, n1, seen, kind, c, a, t, s, v, p);
      }
    }
  }

  /** `unevaluatedProperties` gives the same verdicts if the keywords beside it evaluate the same properties. */
  lemma {:induction false} ClosingMeaning(r: Reading, fields: Fields, out: Fields, want: bool, v: Json)
    requires r.Ready(fields, out) && "unevaluatedProperties" in Keys(fields)
    requires forall seen, p ::
      Beside(WorldOf(r.s, r.assertion), r.n, r.doc, fields, v)(seen, p) <==>
      Beside(WorldOf(r.s, r.assertion), r.n', r.doc', out, v)(seen, p)
    ensures "unevaluatedProperties" in Keys(out)
    ensures r.KeywordAgrees(fields, "unevaluatedProperties", out, "unevaluatedProperties", want, v)
    decreases r.Left(), 1 + SizeFields(fields), 4
  {
    hide Clean, Carries, Judge, Beside, Dereference, ClosesOff, KindOf, NotesCarry;
    var (k, w) := ("unevaluatedProperties", WorldOf(r.s, r.assertion));
    ReferenceKey(k);
    MemberMeaning(r, fields, out, k);
    var (a, c) := (At(fields, k), At(out, k));
    var (b1, b2) := (Beside(w, r.n, r.doc, fields, v), Beside(w, r.n', r.doc', out, v));
    if ClosesOff(r.Source(fields), b1, want, a, v) {
      ClosesOffCarries(r.Source(fields), r.Result(out), b1, b2, want, a, c, v);
    }
    if ClosesOff(r.Result(out), b2, want, c, v) {
      ClosesOffCarries(r.Result(out), r.Source(fields), b2, b1, want, c, a, v);
    }
  }

  /** The schema objects evaluate the same properties, and so do their keywords beside `unevaluatedProperties`. */
  ghost predicate SameNotes(r: Reading, fields: Fields, out: Fields, v: Json) {
    var w := WorldOf(r.s, r.assertion);
    && (forall seen, p :: r.SeesSource(seen, Obj(fields), v, p) <==> r.SeesResult(seen, Obj(out), v, p))
    && (forall seen, p :: Beside(w, r.n, r.doc, fields, v)(seen, p) <==> Beside(w, r.n', r.doc', out, v)(seen, p))
  }

  /** A keyword of the source stands in the result under its own name, the reference as an `allOf`. */
  function NameIn(k: string): string {
    if k == "$ref" then "allOf" else k
  }

  lemma NotesByMembers(r: Reading, fields: Fields, out: Fields, v: Json)
    requires forall k | k in Keys(fields) :: NameIn(k) in Keys(out) && r.MarkingAgrees(fields, k, out, NameIn(k), v)
    requires forall j | j in Keys(out) :: exists k | k in Keys(fields) :: NameIn(k) == j
    ensures SameNotes(r, fields, out, v)
  {
    hide Marking, Noted, Beside, r.MarkingAgrees;
    forall seen, p ensures r.SeesSource(seen, Obj(fields), v, p) <==> r.SeesResult(seen, Obj(out), v, p) {
      NotedByMembers(r, fields, out, seen, v, p);
    }
    var w := WorldOf(r.s, r.assertion);
    forall seen, p ensures Beside(w, r.n, r.doc, fields, v)(seen, p) <==> Beside(w, r.n', r.doc', out, v)(seen, p) {
      BesideByMembers(r, fields, out, seen, v, p);
    }
  }

  lemma NotedByMembers(r: Reading, fields: Fields, out: Fields, seen: bool, v: Json, p: string)
    requires forall k | k in Keys(fields) :: NameIn(k) in Keys(out) && r.MarkingAgrees(fields, k, out, NameIn(k), v)
    requires forall j | j in Keys(out) :: exists k | k in Keys(fields) :: NameIn(k) == j
    ensures r.SeesSource(seen, Obj(fields), v, p) <==> r.SeesResult(seen, Obj(out), v, p)
  {
    hide Marking, NameIn;
    var w := WorldOf(r.s, r.assertion);
    forall k | k in Keys(fields)
      ensures Marking(w, seen, r.n, r.doc, fields, k, v, p) <==> Marking(w, seen, r.n', r.doc', out, NameIn(k), v, p)
    {
      assert r.MarkingAgrees(fields, k, out, NameIn(k), v);
    }
    if j :| j in Keys(out) && Marking(w, seen, r.n', r.doc', out, j, v, p) == seen {
      var k :| k in Keys(fields) && NameIn(k) == j;
    }
    if k :| k in Keys(fields) && Marking(w, seen, r.n, r.doc, fields, k, v, p) == seen {
      assert NameIn(k) in Keys(out);
    }
  }

  lemma BesideByMembers(r: Reading, fields: Fields, out: Fields, seen: bool, v: Json, p: string)
    requires forall k | k in Keys(fields) :: NameIn(k) in Keys(out) && r.MarkingAgrees(fields, k, out, NameIn(k), v)
    requires forall j | j in Keys(out) :: exists k | k in Keys(fields) :: NameIn(k) == j
    ensures Beside(WorldOf(r.s, r.assertion), r.n, r.doc, fields, v)(seen, p) <==>
            Beside(WorldOf(r.s, r.assertion), r.n', r.doc', out, v)(seen, p)
  {
    hide Marking, KindOf, NameIn, r.MarkingAgrees;
    var w := WorldOf(r.s, r.assertion);
    forall k | k in Keys(fields)
      ensures Marking(w, seen, r.n, r.doc, fields, k, v, p) <==> Marking(w, seen, r.n', r.doc', out, NameIn(k), v, p)
      ensures KindOf(NameIn(k)) == Unevaluated <==> KindOf(k) == Unevaluated
    {
      NameKept(k);
      MarkingAt(r, fields, k, out, NameIn(k), seen, v, p);
    }
  }

  lemma MarkingAt(r: Reading, fields: Fields, k: string, out: Fields, j: string, seen: bool, v: Json, p: string)
    requires k in Keys(fields) && j in Keys(out) && r.MarkingAgrees(fields, k, out, j, v)
    ensures Marking(WorldOf(r.s, r.assertion), seen, r.n, r.doc, fields, k, v, p) <==>
            Marking(WorldOf(r.s, r.assertion), seen, r.n', r.doc', out, j, v, p)
  {
    hide Marking;
  }

  lemma NameKept(k: string)
    ensures KindOf(NameIn(k)) == Unevaluated <==> KindOf(k) == Unevaluated
  {
    hide KindOf;
    ReferenceKey(k);
    ReferenceKey(NameIn(k));
  }

  /** The same for verdicts. */
  lemma VerdictByMembers(r: Reading, fields: Fields, out: Fields, want: bool, v: Json)
    requires forall k | k in Keys(fields) :: NameIn(k) in Keys(out) && r.KeywordAgrees(fields, k, out, NameIn(k), want, v)
    requires forall j | j in Keys(out) :: exists k | k in Keys(fields) :: NameIn(k) == j
    ensures r.JudgesSource(want, Obj(fields), v) <==> r.JudgesResult(want, Obj(out), v)
  {
    hide Keyword, NameIn;
    var w := WorldOf(r.s, r.assertion);
    if j :| j in Keys(out) && Keyword(w, want, r.n', r.doc', out, j, v) != want {
      var k :| k in Keys(fields) && NameIn(k) == j;
      assert r.KeywordAgrees(fields, k, out, NameIn(k), want, v);
    }
    if k :| k in Keys(fields) && Keyword(w, want, r.n, r.doc, fields, k, v) != want {
      assert r.KeywordAgrees(fields, k, out, NameIn(k), want, v);
    }
    if !want {
      if j :| j in Keys(out) && Keyword(w, want, r.n', r.doc', out, j, v) {
        var k :| k in Keys(fields) && NameIn(k) == j;
        assert r.KeywordAgrees(fields, k, out, NameIn(k), want, v);
      }
      if k :| k in Keys(fields) && Keyword(w, want, r.n, r.doc, fields, k, v) {
        assert r.KeywordAgrees(fields, k, out, NameIn(k), want, v);
      }
    }
  }

  lemma {:induction false} ObjectMeaning(r: Reading, fields: Fields, out: Fields, want: bool, v: Json)
    requires r.Valid() && Clean(Obj(fields)) && r.Gives(Obj(fields), Obj(out)) && !IsReference(fields)
    ensures r.JudgesSource(want, Obj(fields), v) <==> r.JudgesResult(want, Obj(out), v)
    ensures forall seen, p :: r.SeesSource(seen, Obj(fields), v, p) <==> r.SeesResult(seen, Obj(out), v, p)
    decreases r.Left(), 1 + SizeFields(fields), 5
  {
    hide Keyword, Noted, Beside, r.MarkingAgrees, r.KeywordAgrees;
    MembersDereferenced(r, Obj(fields), Obj(out));
    assert "$ref" !in Keys(fields) by {
      assert KindOf("$ref") == Reference;
    }
    hide Clean, Dereference, Judge;
    assert forall k | k in Keys(fields) :: NameIn(k) == k;
    forall k | k in Keys(fields) ensures r.MarkingAgrees(fields, k, out, k, v) {
      MarkingMeaning(r, fields, out, k, v);
    }
    NotesByMembers(r, fields, out, v);
    forall k | k in Keys(fields) ensures r.KeywordAgrees(fields, k, out, k, want, v) {
      if k == "unevaluatedProperties" {
        ClosingMeaning(r, fields, out, want, v);
      } else {
        KeywordMeaning(r, fields, out, k, want, v);
      }
    }
    VerdictByMembers(r, fields, out, want, v);
  }

  lemma {:induction false} KeysKept(
    s: SchemaSet, keys: set<string>, fields: Fields, doc: string, stack: set<string>)
    requires Covers(s, keys) && TargetKeys(s, ReferencesOfFields(fields), doc) <= keys
    requires DereferenceFields(s, keys, fields, doc, stack).Ok?
    ensures Keys(DereferenceFields(s, keys, fields, doc, stack).value) == Keys(fields)
    ensures Distinct(fields) ==> Distinct(DereferenceFields(s, keys, fields, doc, stack).value)
    decreases |fields|
  {
    if fields != [] {
      KeysKept(s, keys, fields[1..], doc, stack);
      var out := DereferenceFields(s, keys, fields, doc, stack).value;
      assert out[1..] == DereferenceFields(s, keys, fields[1..], doc, stack).value;
      KeysCons(fields);
      KeysCons(out);
    }
  }

  // ---- A schema object with a reference ----

  /** The reading that goes on where the reference in `fields` leads. */
  ghost function AtTarget(r: Reading, target: Resolution): Reading
    requires r.n > 0
  {
    r.(doc := target.documentName, stack := r.stack + {target.Key()}, n := r.n - 1)
  }

  /** The reference in `fields` leads to `target`, which dereferences to `y`. */
  ghost predicate LeadsTo(r: Reading, fields: Fields, target: Resolution, y: Json) {
    && r.Valid() && IsReference(fields) && r.n > 0
    && ResolveReference(r.s, At(fields, "$ref").s, r.doc) == Ok(target)
    && AtTarget(r, target).Valid()
    && AtTarget(r, target).Gives(target.value, y)
  }

  lemma ReferenceLeads(r: Reading, fields: Fields, out: Json) returns (target: Resolution, y: Json)
    requires r.Valid() && r.Gives(Obj(fields), out) && IsReference(fields)
    ensures LeadsTo(r, fields, target, y) && Clean(target.value) && AtTarget(r, target).Left() < r.Left()
  {
    var reference := At(fields, "$ref").s;
    target := ResolveReference(r.s, reference, r.doc).value;
    assert reference in References(Obj(fields));
    assert target.Key() in TargetKeys(r.s, References(Obj(fields)), r.doc);
    Shrinks(r.keys, r.stack, target.Key());
    TargetCovered(r.s, r.keys, reference, r.doc);
    y := Dereference(r.s, r.keys, target.value, target.documentName, r.stack + {target.Key()}).value;
  }

  lemma ReferenceResult(r: Reading, fields: Fields, out: Json, target: Resolution, y: Json)
    requires LeadsTo(r, fields, target, y) && r.Gives(Obj(fields), out)
    ensures TargetKeys(r.s, ReferencesOfFields(Without(fields, "$ref")), r.doc) <= r.keys
    ensures Without(fields, "$ref") == [] ==> out == y
    ensures Without(fields, "$ref") != [] ==>
              var rest := DereferenceFields(r.s, r.keys, Without(fields, "$ref"), r.doc, r.stack);
              rest.Ok? && out == Obj(Spread([Field("allOf", Arr([y]))], rest.value))
  {
    hide CleanTargets, CleanSet;
  }

  lemma SiblingsRewritten(r: Reading, fields: Fields, out: Json, target: Resolution, y: Json)
    requires LeadsTo(r, fields, target, y) && r.Gives(Obj(fields), out)
    requires Without(fields, "$ref") != [] && Distinct(fields) && "allOf" !in Keys(fields)
    ensures out.Obj? && r.Rewrites(fields, out.fields)
    ensures Keys(out.fields) == Keys(fields) - {"$ref"} + {"allOf"}
    ensures Get(out.fields, "allOf") == Some(Arr([y]))
  {
    hide Dereference, DereferenceFields, Spread, CleanTargets, TargetKeys, References, ReferencesOfFields, Without, Distinct;
    hide Resolution.Key;
    forall k
      ensures out.Obj?
      ensures k in Keys(out.fields) <==> (k in Keys(fields) && k != "$ref") || k == "allOf"
      ensures k in Keys(fields) && k != "$ref" ==> r.Gives(At(fields, k), At(out.fields, k))
      ensures Get(out.fields, "allOf") == Some(Arr([y]))
    {
      SiblingRewritten(r, fields, out, target, y, k);
    }
  }

  lemma SiblingRewritten(r: Reading, fields: Fields, out: Json, target: Resolution, y: Json, k: string)
    requires LeadsTo(r, fields, target, y) && r.Gives(Obj(fields), out)
    requires Without(fields, "$ref") != [] && Distinct(fields) && "allOf" !in Keys(fields)
    ensures out.Obj?
    ensures k in Keys(out.fields) <==> (k in Keys(fields) && k != "$ref") || k == "allOf"
    ensures k in Keys(fields) && k != "$ref" ==> r.Gives(At(fields, k), At(out.fields, k))
    ensures Get(out.fields, "allOf") == Some(Arr([y]))
  {
    hide Dereference, DereferenceFields, Spread;
    ReferenceResult(r, fields, out, target, y);
    var siblings, left := Without(fields, "$ref"), [Field("allOf", Arr([y]))];
    var rest := DereferenceFields(r.s, r.keys, siblings, r.doc, r.stack).value;
    DistinctWithout(fields, "$ref");
    KeysKept(r.s, r.keys, siblings, r.doc, r.stack);
    GetSpread(left, rest, k);
    GetSpread(left, rest, "allOf");
    FieldDereferenced(r.s, r.keys, siblings, r.doc, r.stack, k);
    FieldDereferenced(r.s, r.keys, siblings, r.doc, r.stack, "allOf");
    if k in Keys(fields) {
      ReferencesOfMember(fields, k);
    }
  }

  lemma ReferenceKeyword(r: Reading, fields: Fields, target: Resolution, y: Json, want: bool, v: Json)
    requires LeadsTo(r, fields, target, y)
    ensures Keyword(WorldOf(r.s, r.assertion), want, r.n, r.doc, fields, "$ref", v) <==>
            AtTarget(r, target).JudgesSource(want, target.value, v)
    ensures forall seen, p ::
      Marking(WorldOf(r.s, r.assertion), seen, r.n, r.doc, fields, "$ref", v, p) <==>
      AtTarget(r, target).SeesSource(seen, target.value, v, p)
  {
    hide Applies, Judgement, Judge, Noted, Noting, Marks;
    assert KindOf("$ref") == Reference;
  }

  lemma SingleAllOf(w: World, want: bool, n: nat, doc: string, out: Fields, y: Json, v: Json)
    requires Get(out, "allOf") == Some(Arr([y]))
    ensures Keyword(w, want, n, doc, out, "allOf", v) <==> Judge(w, want, n, doc, y, v)
    ensures forall seen, p :: Marking(w, seen, n, doc, out, "allOf", v, p) <==> Noted(w, seen, n, doc, y, v, p)
  {
    hide Judge, Noted, SiblingsOf;
    assert KindOf("allOf") == AllOf;
    SizeItem([y], 0);
    assert Arr([y]).items[0] == y;
  }

  /** The source and the result of a schema object mean the same. */
  ghost predicate SameMeaning(r: Reading, fields: Fields, out: Json, want: bool, v: Json) {
    && (r.JudgesSource(want, Obj(fields), v) <==> r.JudgesResult(want, out, v))
    && (forall seen, p :: r.SeesSource(seen, Obj(fields), v, p) <==> r.SeesResult(seen, out, v, p))
  }

  /** What the reference says is what the dereferenced target says. */
  ghost predicate TargetMeaning(r: Reading, fields: Fields, y: Json, want: bool, v: Json)
    requires "$ref" in Keys(fields)
  {
    var w := WorldOf(r.s, r.assertion);
    && (Keyword(w, want, r.n, r.doc, fields, "$ref", v) <==> r.JudgesResult(want, y, v))
    && (forall seen, p :: Marking(w, seen, r.n, r.doc, fields, "$ref", v, p) <==> r.SeesResult(seen, y, v, p))
  }

  lemma {:induction false} ReferenceMeaning(r: Reading, fields: Fields, out: Json, want: bool, v: Json)
    requires r.Valid() && Clean(Obj(fields)) && r.Gives(Obj(fields), out) && IsReference(fields)
    ensures SameMeaning(r, fields, out, want, v)
    decreases r.Left(), 1 + SizeFields(fields), 7
  {
    hide Clean, Dereference, TargetMeaning, SameMeaning, r.Gives, r.Valid, CleanSet, CleanTargets, r.JudgesSource, r.JudgesResult;
    hide r.SeesSource, r.SeesResult, TargetKeys, ReferencesOfFields, DereferenceFields, Spread;
    var target, y := ReferenceLeads(r, fields, out);
    Meaning(AtTarget(r, target), target.value, y, want, v);
    TargetAgrees(r, fields, target, y, want, v);
    ReferenceResult(r, fields, out, target, y);
    if Without(fields, "$ref") == [] {
      assert Keys(Without(fields, "$ref")) == {};
      assert Keys(fields) == {"$ref"};
      OnlyReference(r, fields, y, want, v);
    } else {
      BesideReference(r, fields, out, target, y, want, v);
    }
  }

  lemma TargetAgrees(r: Reading, fields: Fields, target: Resolution, y: Json, want: bool, v: Json)
    requires LeadsTo(r, fields, target, y)
    requires AtTarget(r, target).JudgesSource(want, target.value, v) <==> AtTarget(r, target).JudgesResult(want, y, v)
    requires forall seen, p ::
      AtTarget(r, target).SeesSource(seen, target.value, v, p) <==> AtTarget(r, target).SeesResult(seen, y, v, p)
    ensures TargetMeaning(r, fields, y, want, v)
  {
    hide Keyword, Marking, Judge, Noted;
    ReferenceKeyword(r, fields, target, y, want, v);
    forall seen, p
      ensures Marking(WorldOf(r.s, r.assertion), seen, r.n, r.doc, fields, "$ref", v, p) <==> r.SeesResult(seen, y, v, p)
    {
      assert AtTarget(r, target).SeesResult(seen, y, v, p) == r.SeesResult(seen, y, v, p);
    }
  }

  lemma OnlyReference(r: Reading, fields: Fields, y: Json, want: bool, v: Json)
    requires Keys(fields) == {"$ref"} && "$ref" in Keys(fields) && TargetMeaning(r, fields, y, want, v)
    ensures SameMeaning(r, fields, y, want, v)
  {
    hide Keyword, Marking, Get;
  }

  /** A reference with sibling keywords becomes all of its target, and the siblings. */
  lemma {:induction false} BesideReference(
    r: Reading, fields: Fields, out: Json, target: Resolution, y: Json, want: bool, v: Json)
    requires r.Valid() && Clean(Obj(fields)) && IsReference(fields)
    requires LeadsTo(r, fields, target, y) && r.Gives(Obj(fields), out)
    requires Without(fields, "$ref") != [] && TargetMeaning(r, fields, y, want, v)
    ensures SameMeaning(r, fields, out, want, v)
    decreases r.Left(), 1 + SizeFields(fields), 6
  {
    hide Clean, Dereference, Spread, Without, LeadsTo, TargetMeaning;
    CleanReference(fields);
    SiblingsRewritten(r, fields, out, target, y);
    ConjoinedMeaning(r, fields, out.fields, y, want, v);
  }

  lemma {:induction false} ConjoinedMeaning(r: Reading, fields: Fields, out: Fields, y: Json, want: bool, v: Json)
    requires r.Ready(fields, out) && Keys(out) == Keys(fields) - {"$ref"} + {"allOf"}
    requires "$ref" in Keys(fields) && "allOf" !in Keys(fields) && Get(out, "allOf") == Some(Arr([y]))
    requires TargetMeaning(r, fields, y, want, v)
    ensures SameMeaning(r, fields, Obj(out), want, v)
    decreases r.Left(), 1 + SizeFields(fields), 5
  {
    hide Clean, Keyword, Marking, Judge, Noted, Beside, Get, r.Ready;
    SingleAllOf(WorldOf(r.s, r.assertion), want, r.n', r.doc', out, y, v);
    forall k | k in Keys(fields) ensures r.MarkingAgrees(fields, k, out, NameIn(k), v) {
      if k != "$ref" {
        MarkingMeaning(r, fields, out, k, v);
      }
    }
    MembersNamed(fields, out);
    NotesByMembers(r, fields, out, v);
    forall k | k in Keys(fields) ensures r.KeywordAgrees(fields, k, out, NameIn(k), want, v) {
      if k == "unevaluatedProperties" {
        ClosingMeaning(r, fields, out, want, v);
      } else if k != "$ref" {
        KeywordMeaning(r, fields, out, k, want, v);
      }
    }
    VerdictByMembers(r, fields, out, want, v);
  }

  lemma MembersNamed(fields: Fields, out: Fields)
    requires Keys(out) == Keys(fields) - {"$ref"} + {"allOf"} && "$ref" in Keys(fields)
    ensures forall k | k in Keys(fields) :: NameIn(k) in Keys(out)
    ensures forall j | j in Keys(out) :: exists k | k in Keys(fields) :: NameIn(k) == j
  {
    hide Keys;
    assert NameIn("$ref") == "allOf";
    forall j | j in Keys(out) ensures exists k | k in Keys(fields) :: NameIn(k) == j {
      assert j != "allOf" ==> NameIn(j) == j;
    }
  }

  lemma CleanReference(fields: Fields)
    requires Clean(Obj(fields)) && IsReference(fields)
    ensures Distinct(fields) && "allOf" !in Keys(fields)
  {
    hide Subschemas, SiblingsOf;
    assert KindOf("$ref") == Reference;
  }

  // ---- The theorem ----

  ghost predicate CleanSchema(s: SchemaSet, schema: Json, doc: string) {
    CleanSet(s) && Clean(schema) && CleanTargets(s, References(schema), doc)
  }

  lemma MeaningWithKeys(
    s: SchemaSet, assertion: (string, Json, Json) -> bool, keys: set<string>,
    schema: Json, doc: string, doc': string, v: Json)
    requires Covers(s, keys) && TargetKeys(s, References(schema), doc) <= keys
    requires CleanSchema(s, schema, doc) && Dereference(s, keys, schema, doc, {}).Ok?
    ensures var w, out := WorldOf(s, assertion), Dereference(s, keys, schema, doc, {}).value;
      && (Accepts(w, doc, schema, v) <==> Accepts(w, doc', out, v))
      && (Rejects(w, doc, schema, v) <==> Rejects(w, doc', out, v))
  {
    hide Judge, Clean, Dereference, CleanSet, CleanTargets;
    var w, out := WorldOf(s, assertion), Dereference(s, keys, schema, doc, {}).value;
    forall want, fuel: nat | Judge(w, want, fuel, doc, schema, v)
      ensures Judge(w, want, fuel, doc', out, v)
    {
      var n := fuel + |keys|;
      JudgeMonotone(w, want, fuel, n, doc, schema, v);
      Meaning(Reading(s, assertion, keys, doc, {}, n, doc', fuel), schema, out, want, v);
    }
    forall want, fuel: nat | Judge(w, want, fuel, doc', out, v)
      ensures Judge(w, want, |keys|, doc, schema, v)
    {
      Meaning(Reading(s, assertion, keys, doc, {}, |keys|, doc', fuel), schema, out, want, v);
    }
  }

  /** A dereferenced schema accepts and rejects exactly the values that the original does, whatever
      the remaining keywords mean, in whatever document it is read. */
  lemma DereferencePreservesMeaning(
    s: SchemaSet, assertion: (string, Json, Json) -> bool, schema: Json, doc: string, doc': string, v: Json)
    requires CleanSchema(s, schema, doc) && DereferenceSchema(s, schema, doc).Ok?
    ensures var w, out := WorldOf(s, assertion), DereferenceSchema(s, schema, doc).value;
      && (Accepts(w, doc, schema, v) <==> Accepts(w, doc', out, v))
      && (Rejects(w, doc, schema, v) <==> Rejects(w, doc', out, v))
  {
    hide Judge, Clean, Dereference;
    MeaningWithKeys(s, assertion, AllKeys(s, schema, doc), schema, doc, doc', v);
  }

  /** The schema the server serves for a tool accepts exactly what the contract it refers to accepts,
      and gives every value one of the two verdicts. */
  lemma ServedToolSchema(s: SchemaSet, assertion: (string, Json, Json) -> bool, reference: string, doc': string, v: Json)
    requires CleanSet(s) && PlainSet(s) && SchemaFromRef(s, reference).Ok?
    requires Clean(ResolveReference(s, reference, TOOL_CONTRACTS).value.value)
    ensures var w, schema := WorldOf(s, assertion), SchemaFromRef(s, reference).value;
      var contract := ResolveReference(s, reference, TOOL_CONTRACTS).value;
      && schema.Obj? && References(schema) == {}
      && (Accepts(w, doc', schema, v) <==> Accepts(w, contract.documentName, contract.value, v))
      && (Rejects(w, doc', schema, v) <==> Rejects(w, contract.documentName, contract.value, v))
  {
    hide Judge, Clean, Plain, Dereference;
    var contract := ResolveReference(s, reference, TOOL_CONTRACTS).value;
    TargetCovered(s, AllKeys(s, contract.value, contract.documentName), reference, TOOL_CONTRACTS);
    PlainTarget(s, reference, TOOL_CONTRACTS);
    DereferencePreservesMeaning(s, assertion, contract.value, contract.documentName, doc', v);
    DereferenceLeavesNoReference(s, contract.value, contract.documentName);
  }

  // ---- A reference with an `allOf` beside it ----

  /** With more keywords beside it `unevaluatedProperties` accepts no less. */
  lemma SiblingKeyword(w: World, n: nat, doc: string, fields: Fields, k: string, v: Json)
    requires k in Keys(fields) && k != "$ref" && Keyword(w, true, n, doc, Without(fields, "$ref"), k, v)
    ensures Keyword(w, true, n, doc, fields, k, v)
  {
    hide Judge, Applies, Keyword, Get, KindOf, SiblingsOf;
    ReferenceKey(k);
    var g := Without(fields, "$ref");
    SiblingsWithout(fields);
    if k == "unevaluatedProperties" {
      ClosingSibling(w, n, doc, fields, v);
    } else {
      SameKeyword(w, true, n, doc, g, fields, k, v);
    }
  }

  lemma SiblingsWithout(fields: Fields)
    ensures SiblingsOf(fields) == SiblingsOf(Without(fields, "$ref"))
  {
  }

  lemma ClosingSibling(w: World, n: nat, doc: string, fields: Fields, v: Json)
    requires "unevaluatedProperties" in Keys(fields)
    requires Keyword(w, true, n, doc, Without(fields, "$ref"), "unevaluatedProperties", v)
    ensures Keyword(w, true, n, doc, fields, "unevaluatedProperties", v)
  {
    hide Judge, KindOf, SiblingsOf, Marking, Beside;
    var (k, g) := ("unevaluatedProperties", Without(fields, "$ref"));
    ReferenceKey(k);
    assert At(g, k) == At(fields, k);
    forall p | Beside(w, n, doc, g, v)(true, p) ensures Beside(w, n, doc, fields, v)(true, p) {
      BesideSibling(w, n, doc, fields, v, p);
    }
  }

  lemma BesideSibling(w: World, n: nat, doc: string, fields: Fields, v: Json, p: string)
    requires Beside(w, n, doc, Without(fields, "$ref"), v)(true, p)
    ensures Beside(w, n, doc, fields, v)(true, p)
  {
    hide KindOf, Marking, Evaluator, SiblingsOf;
    var g := Without(fields, "$ref");
    var k :| k in Keys(g) && KindOf(k) != Unevaluated && Marking(w, true, n, doc, g, k, v, p);
    SiblingsWithout(fields);
    assert Get(g, k) == Get(fields, k);
    SameMarking(w, true, n, doc, g, fields, k, v, p);
  }

  lemma SourceHoldsTarget(w: World, n: nat, doc: string, fields: Fields, target: (string, Json), v: Json)
    requires IsReference(fields) && w.resolve(doc, At(fields, "$ref").s) == Some(target)
    requires Judge(w, true, n, doc, Obj(fields), v)
    ensures n > 0 && Judge(w, true, n - 1, target.0, target.1, v)
  {
    hide Applies, Judgement;
    assert KindOf("$ref") == Reference;
    assert Keyword(w, true, n, doc, fields, "$ref", v);
  }

  lemma SourceJoins(w: World, n: nat, doc: string, fields: Fields, target: (string, Json), v: Json)
    requires IsReference(fields) && w.resolve(doc, At(fields, "$ref").s) == Some(target) && n > 0
    requires Judge(w, true, n, doc, Obj(Without(fields, "$ref")), v)
    requires Judge(w, true, n - 1, target.0, target.1, v)
    ensures Judge(w, true, n, doc, Obj(fields), v)
  {
    assert Keyword(w, true, n, doc, fields, "$ref", v) by {
      hide Applies, Judgement;
      assert KindOf("$ref") == Reference;
    }
    hide Keyword, Without;
    forall k | k in Keys(fields) ensures Keyword(w, true, n, doc, fields, k, v) {
      if k != "$ref" {
        SiblingKeyword(w, n, doc, fields, k, v);
      }
    }
  }

  /** Without `unevaluatedProperties` the siblings mean alone what they mean beside the reference. */
  lemma SourceHoldsSiblings(w: World, n: nat, doc: string, fields: Fields, v: Json)
    requires IsReference(fields) && "unevaluatedProperties" !in Keys(fields)
    requires Judge(w, true, n, doc, Obj(fields), v)
    ensures Judge(w, true, n, doc, Obj(Without(fields, "$ref")), v)
  {
    hide Keyword, KindOf, Get, SiblingsOf;
    SiblingsWithout(fields);
    var g := Without(fields, "$ref");
    forall k | k in Keys(g) ensures Keyword(w, true, n, doc, g, k, v) {
      ReferenceKey(k);
      SameKeyword(w, true, n, doc, fields, g, k, v);
    }
  }

  lemma Resolves(s: SchemaSet, assertion: (string, Json, Json) -> bool, reference: string, doc: string)
    requires ResolveReference(s, reference, doc).Ok?
    ensures var r := ResolveReference(s, reference, doc).value;
      WorldOf(s, assertion).resolve(doc, reference) == Some((r.documentName, r.value))
  {
    hide ResolveReference;
  }

  /** An object with a reference accepts what both its target and its siblings accept, and only what its target
      accepts. */
  lemma SourceConjoins(s: SchemaSet, assertion: (string, Json, Json) -> bool, fields: Fields, doc: string, v: Json)
    requires IsReference(fields) && ResolveReference(s, At(fields, "$ref").s, doc).Ok?
    ensures var w, target := WorldOf(s, assertion), ResolveReference(s, At(fields, "$ref").s, doc).value;
      && (Accepts(w, doc, Obj(fields), v) ==> Accepts(w, target.documentName, target.value, v))
      && (Accepts(w, doc, Obj(Without(fields, "$ref")), v) && Accepts(w, target.documentName, target.value, v) ==>
            Accepts(w, doc, Obj(fields), v))
      && ("unevaluatedProperties" !in Keys(fields) && Accepts(w, doc, Obj(fields), v) ==>
            Accepts(w, doc, Obj(Without(fields, "$ref")), v))
  {
    hide Judge, Without, ResolveReference, Keys, Get, WorldOf;
    var w, r := WorldOf(s, assertion), ResolveReference(s, At(fields, "$ref").s, doc).value;
    var g, target := Without(fields, "$ref"), (r.documentName, r.value);
    Resolves(s, assertion, At(fields, "$ref").s, doc);
    if n: nat :| Judge(w, true, n, doc, Obj(fields), v) {
      SourceHoldsTarget(w, n, doc, fields, target, v);
      if "unevaluatedProperties" !in Keys(fields) {
        SourceHoldsSiblings(w, n, doc, fields, v);
      }
    }
    if n: nat, m: nat :| Judge(w, true, n, doc, Obj(g), v) && Judge(w, true, m, r.documentName, r.value, v) {
      JudgeMonotone(w, true, n, n + m + 1, doc, Obj(g), v);
      JudgeMonotone(w, true, m, n + m, r.documentName, r.value, v);
      SourceJoins(w, n + m + 1, doc, fields, target, v);
    }
  }

  /** With an `allOf` beside the reference, the target is lost: the result is what the siblings alone
      dereference to. */
  lemma TargetLost(s: SchemaSet, keys: set<string>, fields: Fields, doc: string, stack: set<string>, k: string)
    requires Covers(s, keys) && TargetKeys(s, References(Obj(fields)), doc) <= keys
    requires IsReference(fields) && Distinct(fields) && "allOf" in Keys(fields)
    requires Dereference(s, keys, Obj(fields), doc, stack).Ok?
    ensures TargetKeys(s, References(Obj(Without(fields, "$ref"))), doc) <= keys
    ensures var out, rest := Dereference(s, keys, Obj(fields), doc, stack).value,
                             Dereference(s, keys, Obj(Without(fields, "$ref")), doc, stack);
      && rest.Ok? && rest.value.Obj? && out.Obj?
      && Get(out.fields, k) == Get(rest.value.fields, k)
  {
    hide Spread;
    var siblings := Without(fields, "$ref");
    DistinctWithout(fields, "$ref");
    var resolved := ResolveReference(s, At(fields, "$ref").s, doc).value;
    Shrinks(keys, stack, resolved.Key());
    TargetCovered(s, keys, At(fields, "$ref").s, doc);
    var y := Dereference(s, keys, resolved.value, resolved.documentName, stack + {resolved.Key()}).value;
    var rest := DereferenceFields(s, keys, siblings, doc, stack).value;
    KeysKept(s, keys, siblings, doc, stack);
    GetSpread([Field("allOf", Arr([y]))], rest, k);
    FieldDereferenced(s, keys, siblings, doc, stack, "allOf");
    KeysSpread([Field("allOf", Arr([y]))], rest);
  }

  lemma SameMembers(w: World, n: nat, doc: string, f: Fields, g: Fields, v: Json)
    requires "$ref" !in Keys(f) && forall k :: Get(f, k) == Get(g, k)
    requires Judge(w, true, n, doc, Obj(f), v)
    ensures Judge(w, true, n, doc, Obj(g), v)
  {
    hide Keyword, KindOf, Evaluator;
    assert SiblingsOf(f) == SiblingsOf(g);
    assert forall k :: k in Keys(f) <==> Get(f, k).Some?;
    assert forall k :: k in Keys(g) <==> Get(g, k).Some?;
    assert Keys(f) == Keys(g);
    hide SiblingsOf, Get, Keys;
    forall k | k in Keys(g) ensures Keyword(w, true, n, doc, g, k, v) {
      ReferenceKey(k);
      SameKeyword(w, true, n, doc, f, g, k, v);
    }
  }

  /** Exactly when a reference with an `allOf` beside it keeps its meaning, once the target is lost: on the values for
      which the siblings alone imply the target, and lose nothing by no longer seeing what it evaluates. The
      second only matters to an `unevaluatedProperties` among them. */
  lemma SiblingAllOfExact(
    s: SchemaSet, assertion: (string, Json, Json) -> bool, fields: Fields, doc: string, doc': string, v: Json)
    requires IsReference(fields) && "allOf" in Keys(fields) && Distinct(fields)
    requires CleanSet(s) && Clean(Obj(Without(fields, "$ref"))) && CleanTargets(s, References(Obj(fields)), doc)
    requires DereferenceSchema(s, Obj(fields), doc).Ok?
    ensures ResolveReference(s, At(fields, "$ref").s, doc).Ok?
    ensures
      var w, out := WorldOf(s, assertion), DereferenceSchema(s, Obj(fields), doc).value;
      var target := ResolveReference(s, At(fields, "$ref").s, doc).value;
      (Accepts(w, doc, Obj(fields), v) <==> Accepts(w, doc', out, v)) <==>
      && (Accepts(w, doc, Obj(Without(fields, "$ref")), v) ==> Accepts(w, target.documentName, target.value, v))
      && ("unevaluatedProperties" in Keys(fields) && Accepts(w, doc, Obj(fields), v) ==>
            Accepts(w, doc, Obj(Without(fields, "$ref")), v))
  {
    var w, keys := WorldOf(s, assertion), AllKeys(s, Obj(fields), doc);
    var siblings, out := Obj(Without(fields, "$ref")), Dereference(s, keys, Obj(fields), doc, {}).value;
    hide Judge, Clean, Dereference, AllKeys;
    MentionedSucceeds(s, keys, Obj(fields), doc, {}, At(fields, "$ref").s);
    forall k {
      TargetLost(s, keys, fields, doc, {}, k);
    }
    TargetLost(s, keys, fields, doc, {}, "$ref");
    var rest := Dereference(s, keys, siblings, doc, {}).value;
    SourceConjoins(s, assertion, fields, doc, v);
    MeaningWithKeys(s, assertion, keys, siblings, doc, doc', v);
    assert "$ref" !in Keys(rest.fields) by {
      FieldsOfSiblings(s, keys, siblings.fields, doc);
    }
    if n: nat :| Judge(w, true, n, doc', out, v) {
      SameMembers(w, n, doc', out.fields, rest.fields, v);
    }
    if n: nat :| Judge(w, true, n, doc', rest, v) {
      SameMembers(w, n, doc', rest.fields, out.fields, v);
    }
  }

  lemma FieldsOfSiblings(s: SchemaSet, keys: set<string>, fields: Fields, doc: string)
    requires Covers(s, keys) && TargetKeys(s, References(Obj(fields)), doc) <= keys
    requires "$ref" !in Keys(fields) && Dereference(s, keys, Obj(fields), doc, {}).Ok?
    ensures Dereference(s, keys, Obj(fields), doc, {}).value.Obj?
    ensures "$ref" !in Keys(Dereference(s, keys, Obj(fields), doc, {}).value.fields)
  {
    FieldDereferenced(s, keys, fields, doc, {}, "$ref");
  }

  // ---- A schema that loses its meaning: a text type beside an `allOf` that accepts everything ----

  const TEXT_SCHEMA := Obj([Field("type", Str("string"))])
  const OPEN_ALL_OF := Obj([Field("allOf", Arr([Bool(true)]))])
  const TEXT_WITH_OPEN_ALL_OF := Obj([Field("$ref", Str("#"))] + OPEN_ALL_OF.fields)

  lemma TextRejectsNumbers(w: World, n: nat, doc: string)
    ensures !Judge(w, true, n, doc, TEXT_SCHEMA, Num(0))
  {
    hide Judgement;
    assert TEXT_SCHEMA.fields[0].key == "type";
    assert Get(TEXT_SCHEMA.fields, "type") == Some(Str("string"));
    assert KindOf("type") == Type;
    assert !Keyword(w, true, n, doc, TEXT_SCHEMA.fields, "type", Num(0));
  }

  lemma OpenAllOfAccepts(w: World, n: nat, doc: string, v: Json)
    ensures Judge(w, true, n, doc, OPEN_ALL_OF, v)
  {
    var fields := OPEN_ALL_OF.fields;
    assert Get(fields, "allOf") == Some(Arr([Bool(true)]));
    SingleAllOf(w, true, n, doc, fields, Bool(true), v);
    assert Keys(fields) == {"allOf"};
  }

  lemma OpenAllOfParts()
    ensures Get(TEXT_WITH_OPEN_ALL_OF.fields, "$ref") == Some(Str("#"))
    ensures Without(TEXT_WITH_OPEN_ALL_OF.fields, "$ref") == OPEN_ALL_OF.fields
    ensures References(TEXT_SCHEMA) == {} && ReferencesOfFields(OPEN_ALL_OF.fields) == {}
    ensures Spread([Field("allOf", Arr([TEXT_SCHEMA]))], OPEN_ALL_OF.fields) == OPEN_ALL_OF.fields
  {
    var fields := TEXT_WITH_OPEN_ALL_OF.fields;
    assert fields[0] == Field("$ref", Str("#"));
    assert fields[1..] == OPEN_ALL_OF.fields;
    assert Without(OPEN_ALL_OF.fields, "$ref") == OPEN_ALL_OF.fields;
    assert ReferencesOfItems([Bool(true)]) == {};
  }

  lemma OpenAllOfRemains(s: SchemaSet)
    requires s.documents == map["d" := TEXT_SCHEMA]
    ensures DereferenceSchema(s, TEXT_WITH_OPEN_ALL_OF, "d") == Ok(OPEN_ALL_OF)
  {
    hide Without, Spread, References, ReferencesOfFields, ResolveReference, Get;
    OpenAllOfParts();
    RootResolves(s, TEXT_SCHEMA);
    var keys := AllKeys(s, TEXT_WITH_OPEN_ALL_OF, "d");
    Untouched(s, keys, TEXT_SCHEMA, "d", {"d#"});
    UntouchedFields(s, keys, OPEN_ALL_OF.fields, "d", {});
    var key := Resolution("d", "", TEXT_SCHEMA).Key();
    assert key == "d#";
    assert {} + {key} == {"d#"};
  }

  lemma SiblingAllOfLosesTarget(decodeUri: string -> Option<string>, assertion: (string, Json, Json) -> bool)
    ensures
      var s := SchemaSet(map["d" := TEXT_SCHEMA], decodeUri);
      var w, out := WorldOf(s, assertion), DereferenceSchema(s, TEXT_WITH_OPEN_ALL_OF, "d");
      out.Ok? && !Accepts(w, "d", TEXT_WITH_OPEN_ALL_OF, Num(0)) && Accepts(w, "d", out.value, Num(0))
  {
    hide Judge, Dereference;
    var s := SchemaSet(map["d" := TEXT_SCHEMA], decodeUri);
    var w := WorldOf(s, assertion);
    RootResolves(s, TEXT_SCHEMA);
    OpenAllOfParts();
    OpenAllOfRemains(s);
    OpenAllOfAccepts(w, 0, "d", Num(0));
    SourceConjoins(s, assertion, TEXT_WITH_OPEN_ALL_OF.fields, "d", Num(0));
    forall n: nat ensures !Judge(w, true, n, "d", TEXT_SCHEMA, Num(0)) {
      TextRejectsNumbers(w, n, "d");
    }
  }
}
