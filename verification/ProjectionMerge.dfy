/** Merging the parts of an `allOf` into one object only weakens them. */
module ProjectionMerge {
  import opened Json
  import opened JsonSchema
  import opened VertexResponseSchema
  import opened ProjectionSoundness

  function Props(fields: Fields): Fields {
    ObjectFields(Get(fields, "properties"))
  }

  // ---- Where the members of a merged object come from ----

  /** Every keyword of `m` is a keyword of one of `parts`, every property schema a property schema of
      one of them, every required name required by one of them. */
  ghost predicate FromParts(parts: seq<Fields>, m: Fields) {
    && KeywordsFrom(parts, m)
    && ("properties" in Keys(m) ==> At(m, "properties").Obj?)
    && PropsFrom(parts, Props(m))
    && RequiredFrom(parts, ArrayItems(Get(m, "required")))
    && Distinct(m) && Distinct(Props(m))
  }

  ghost predicate KeywordsFrom(parts: seq<Fields>, m: Fields) {
    forall k | k in Keys(m) && k != "properties" && k != "required" ::
      exists q | q in parts :: k in Keys(q) && At(q, k) == At(m, k)
  }

  ghost predicate PropsFrom(parts: seq<Fields>, props: Fields) {
    forall p | p in Keys(props) :: exists q | q in parts :: p in Keys(Props(q)) && At(Props(q), p) == At(props, p)
  }

  ghost predicate RequiredFrom(parts: seq<Fields>, names: seq<Json>) {
    forall x | x in names :: exists q | q in parts :: x in ArrayItems(Get(q, "required"))
  }

  lemma MergedProperties(parts: seq<Fields>, m: Fields, q: Fields)
    requires FromParts(parts, m) && q in parts && Distinct(Props(q)) && "properties" in Keys(q)
    ensures FromParts(parts, MergeMember(m, Field("properties", At(q, "properties"))))
    ensures Keys(Props(MergeMember(m, Field("properties", At(q, "properties"))))) == Keys(Props(m)) + Keys(Props(q))
  {
    hide KeywordsFrom, RequiredFrom;
    var merged := Spread(Props(m), Props(q));
    KeywordsStay(parts, m, "properties", Obj(merged));
    var m' := MergeMember(m, Field("properties", At(q, "properties")));
    assert m' == Put(m, "properties", Obj(merged));
    assert Props(m') == merged;
    KeysSpread(Props(m), Props(q));
    DistinctSpread(Props(m), Props(q));
    DistinctPut(m, "properties", Obj(merged));
    forall p | p in Keys(merged)
      ensures exists part | part in parts :: p in Keys(Props(part)) && At(Props(part), p) == At(merged, p)
    {
      GetSpread(Props(m), Props(q), p);
    }
  }

  lemma MergedRequired(parts: seq<Fields>, m: Fields, q: Fields)
    requires FromParts(parts, m) && q in parts && "required" in Keys(q)
    ensures FromParts(parts, MergeMember(m, Field("required", At(q, "required"))))
    ensures Props(MergeMember(m, Field("required", At(q, "required")))) == Props(m)
  {
    hide Distinct, PropsFrom, RequiredFrom, KeywordsFrom;
    var a := At(q, "required");
    var names := ArrayItems(Get(m, "required")) + ArrayItems(Some(a));
    var written := if a.Arr? then Arr(Unique(names)) else a;
    assert MergeMember(m, Field("required", a)) == Put(m, "required", written);
    DistinctPut(m, "required", written);
    NamesFrom(parts, ArrayItems(Get(m, "required")), q, a);
    KeywordsStay(parts, m, "required", written);
    assert ArrayItems(Some(written)) == if a.Arr? then Unique(names) else [];
  }

  lemma KeywordsStay(parts: seq<Fields>, m: Fields, k: string, value: Json)
    requires KeywordsFrom(parts, m) && k in {"properties", "required"}
    ensures KeywordsFrom(parts, Put(m, k, value))
  {
  }

  lemma NamesFrom(parts: seq<Fields>, names: seq<Json>, q: Fields, a: Json)
    requires RequiredFrom(parts, names) && q in parts && Get(q, "required") == Some(a)
    ensures RequiredFrom(parts, Unique(names + ArrayItems(Some(a)))) && RequiredFrom(parts, [])
  {
    forall x | x in Unique(names + ArrayItems(Some(a))) ensures exists q | q in parts :: x in ArrayItems(Get(q, "required")) {
      if x in ArrayItems(Some(a)) {
        assert x in ArrayItems(Get(q, "required"));
      }
    }
  }

  lemma MergedOther(parts: seq<Fields>, m: Fields, q: Fields, k: string)
    requires FromParts(parts, m) && q in parts && k in Keys(q) && k != "properties" && k != "required"
    ensures FromParts(parts, MergeMember(m, Field(k, At(q, k))))
    ensures Props(MergeMember(m, Field(k, At(q, k)))) == Props(m)
  {
    DistinctPut(m, k, At(q, k));
  }

  lemma MergedMember(parts: seq<Fields>, m: Fields, q: Fields, f: Field)
    requires FromParts(parts, m) && q in parts && Distinct(q) && Distinct(Props(q)) && f in q
    ensures FromParts(parts, MergeMember(m, f))
    ensures Keys(Props(m)) <= Keys(Props(MergeMember(m, f)))
    ensures f.key == "properties" ==> Keys(Props(q)) <= Keys(Props(MergeMember(m, f)))
  {
    hide FromParts, MergeMember, Props, Distinct;
    DistinctAt(q, f);
    assert f == Field(f.key, At(q, f.key));
    if f.key == "properties" {
      MergedProperties(parts, m, q);
    } else if f.key == "required" {
      MergedRequired(parts, m, q);
    } else {
      MergedOther(parts, m, q, f.key);
    }
  }

  /** One part merged, member by member. */
  lemma {:induction false} MergedPart(parts: seq<Fields>, m: Fields, q: Fields, i: nat)
    requires FromParts(parts, m) && q in parts && Distinct(q) && Distinct(Props(q)) && i <= |q|
    ensures FromParts(parts, MergePart(m, q[..i]))
    ensures Keys(Props(m)) <= Keys(Props(MergePart(m, q[..i])))
    ensures forall j | 0 <= j < i && q[j].key == "properties" :: Keys(Props(q)) <= Keys(Props(MergePart(m, q[..i])))
  {
    hide FromParts, MergeMember, Props, Distinct;
    if i > 0 {
      MergedPart(parts, m, q, i - 1);
      assert q[..i][..i - 1] == q[..i - 1];
      MergedMember(parts, MergePart(m, q[..i - 1]), q, q[i - 1]);
    } else {
      assert q[..0] == [];
    }
  }

  lemma MergedWholePart(parts: seq<Fields>, m: Fields, q: Fields)
    requires FromParts(parts, m) && q in parts && Distinct(q) && Distinct(Props(q))
    ensures FromParts(parts, MergePart(m, q))
    ensures Keys(Props(m)) + Keys(Props(q)) <= Keys(Props(MergePart(m, q)))
  {
    hide FromParts, MergePart, Distinct;
    MergedPart(parts, m, q, |q|);
    assert q[..|q|] == q;
    if "properties" in Keys(q) {
      var j :| 0 <= j < |q| && q[j].key == "properties";
    }
  }

  lemma {:induction false} MergedParts(parts: seq<Fields>, i: nat)
    requires i <= |parts|
    requires forall q | q in parts :: Distinct(q) && Distinct(Props(q))
    ensures FromParts(parts, MergeParts(parts[..i]))
    ensures forall j | 0 <= j < i :: Keys(Props(parts[j])) <= Keys(Props(MergeParts(parts[..i])))
  {
    hide MergePart, Props, FromParts;
    if i > 0 {
      MergedParts(parts, i - 1);
      assert parts[..i][..i - 1] == parts[..i - 1];
      MergedWholePart(parts, MergeParts(parts[..i - 1]), parts[i - 1]);
    } else {
      NothingMerged(parts);
      assert parts[..0] == [];
    }
  }

  lemma NothingMerged(parts: seq<Fields>)
    ensures FromParts(parts, [])
  {
    assert Props([]) == [] by { NoProps(); }
  }

  lemma NoProps()
    ensures Props([]) == []
  {
  }

  // ---- What all the parts admit, the merged object admits ----

  lemma AppliesWithMoreNames(
    judge: Verdict, w: World, kind: Kind, k: string, a: Json, s: Siblings, t: Siblings, v: Json)
    requires kind != If && s.named <= t.named && s.prefix == t.prefix
    requires Applies(judge, w, true, kind, k, a, s, v)
    ensures Applies(judge, w, true, kind, k, a, t, v)
  {
  }

  /** A keyword taken over into an object that names at least as many properties. */
  lemma KeywordTaken(w: World, f: Fields, g: Fields, k: string, v: Json)
    requires Keys(f) <= FLAT_KEYS && Keys(g) <= FLAT_KEYS
    requires k in Keys(f) && k in Keys(g) && At(f, k) == At(g, k)
    requires PropertyNames(f) <= PropertyNames(g)
    requires Keyword(w, true, 0, "", f, k, v)
    ensures Keyword(w, true, 0, "", g, k, v)
  {
    hide Judge, Applies, Judgement, KindOf;
    FlatKind(k);
    FlatSiblings(f);
    FlatSiblings(g);
    var a, s, t := At(f, k), SiblingsOf(f), SiblingsOf(g);
    SameApplies(w, true, 0, "", 1 + SizeFields(f), 1 + SizeFields(g), KindOf(k), k, a, s, v);
    AppliesWithMoreNames(Judgement(w, 0, "", 1 + SizeFields(g)), w, KindOf(k), k, a, s, t, v);
  }

  lemma PropertiesTaken(w: World, parts: seq<Fields>, m: Fields, v: Json)
    requires forall q | q in parts :: Keys(q) <= FLAT_KEYS && Admits(w, Obj(q), v)
    requires FromParts(parts, m) && "properties" in Keys(m)
    ensures Keyword(w, true, 0, "", m, "properties", v)
  {
    hide Keyword, Judge;
    if v.Obj? {
      forall p | p in Keys(Props(m)) && p in Keys(v.fields) ensures Admits(w, At(Props(m), p), At(v.fields, p)) {
        var q :| q in parts && p in Keys(Props(q)) && At(Props(q), p) == At(Props(m), p);
        PropertyAdmits(w, q, p, v);
      }
    }
    PropertiesAdmit(w, m, v);
  }

  lemma PropertyAdmits(w: World, q: Fields, p: string, v: Json)
    requires Admits(w, Obj(q), v) && p in Keys(Props(q)) && v.Obj? && p in Keys(v.fields)
    ensures Admits(w, At(Props(q), p), At(v.fields, p))
  {
    hide Judge, KindOf;
    assert KindOf("properties") == Properties by { KeyKinds(); }
    assert Keyword(w, true, 0, "", q, "properties", v) by { MemberAdmits(w, q, "properties", v); }
    var a := At(q, "properties");
    assert a.Obj? && a.fields == Props(q);
    hide Applies, SiblingsOf, Get, Keys;
    PropertyApplies(Judgement(w, 0, "", 1 + SizeFields(q)), w, Props(q), SiblingsOf(q), p, v.fields);
  }

  lemma PropertyApplies(judge: Verdict, w: World, props: Fields, s: Siblings, p: string, v: Fields)
    requires Applies(judge, w, true, Properties, "properties", Obj(props), s, Obj(v)) && p in Keys(props) && p in Keys(v)
    ensures judge(true, At(props, p), At(v, p))
  {
    hide Keys, Get;
  }

  lemma MemberAdmits(w: World, q: Fields, k: string, v: Json)
    requires Admits(w, Obj(q), v) && k in Keys(q)
    ensures Keyword(w, true, 0, "", q, k, v)
  {
    hide Keyword;
  }

  lemma PropertiesAdmit(w: World, m: Fields, v: Json)
    requires "properties" in Keys(m) && At(m, "properties").Obj?
    requires v.Obj? ==> forall p | p in Keys(Props(m)) && p in Keys(v.fields) :: Admits(w, At(Props(m), p), At(v.fields, p))
    ensures Keyword(w, true, 0, "", m, "properties", v)
  {
    hide Judge;
    assert KindOf("properties") == Properties;
    assert Props(m) == At(m, "properties").fields;
    if v.Obj? {
      forall p | p in Keys(Props(m)) && p in Keys(v.fields)
        ensures Judgement(w, 0, "", 1 + SizeFields(m))(true, Get(Props(m), p).value, Get(v.fields, p).value)
      {
        assert Admits(w, At(Props(m), p), At(v.fields, p));
      }
    }
  }

  lemma RequiredTaken(w: World, parts: seq<Fields>, m: Fields, v: Json)
    requires forall q | q in parts :: Admits(w, Obj(q), v)
    requires FromParts(parts, m) && "required" in Keys(m)
    ensures Keyword(w, true, 0, "", m, "required", v)
  {
    hide Judgement;
    assert KindOf("required") == Required;
    if v.Obj? {
      forall x | x in ArrayItems(Get(m, "required")) && x.Str? ensures x.s in Keys(v.fields) {
        var q :| q in parts && x in ArrayItems(Get(q, "required"));
        assert Admits(w, Obj(q), v);
        assert Keyword(w, true, 0, "", q, "required", v);
      }
    }
  }

  lemma OtherTaken(w: World, parts: seq<Fields>, m: Fields, k: string, v: Json)
    requires forall q | q in parts :: Keys(q) <= FLAT_KEYS && Admits(w, Obj(q), v) && PropertyNames(q) <= PropertyNames(m)
    requires FromParts(parts, m) && Keys(m) <= FLAT_KEYS && k in Keys(m) && k != "properties" && k != "required"
    ensures Keyword(w, true, 0, "", m, k, v)
  {
    hide Keyword, Judge, KindOf, Props, PropertyNames;
    var q :| q in parts && k in Keys(q) && At(q, k) == At(m, k);
    assert Admits(w, Obj(q), v);
    MemberAdmits(w, q, k, v);
    KeywordTaken(w, q, m, k, v);
  }

  /** Whatever all the parts admit, the merged object admits. */
  lemma MergeAdmits(w: World, parts: seq<Fields>, v: Json)
    requires forall q | q in parts :: Good(q) && Admits(w, Obj(q), v)
    ensures Admits(w, Obj(MergeParts(parts)), v)
  {
    hide Keyword, KindOf, NoReference, Props, FromParts, MergeParts, PropertyNames, Distinct;
    var m := MergeParts(parts);
    MergeShape(parts);
    forall q | q in parts ensures Keys(q) <= FLAT_KEYS && Admits(w, Obj(q), v) {
      assert Good(q);
    }
    forall k | k in Keys(m) ensures Keyword(w, true, 0, "", m, k, v) {
      if k == "properties" {
        PropertiesTaken(w, parts, m, v);
      } else if k == "required" {
        RequiredTaken(w, parts, m, v);
      } else {
        OtherTaken(w, parts, m, k, v);
      }
    }
  }

  lemma MergeShape(parts: seq<Fields>)
    requires forall q | q in parts :: Good(q)
    ensures FromParts(parts, MergeParts(parts))
    ensures Keys(MergeParts(parts)) <= FLAT_KEYS
    ensures forall q | q in parts :: PropertyNames(q) <= PropertyNames(MergeParts(parts))
  {
    hide NoReference;
    assert parts[..|parts|] == parts;
    MergedParts(parts, |parts|);
    forall q | q in parts ensures PropertyNames(q) <= PropertyNames(MergeParts(parts)) {
      var j :| 0 <= j < |parts| && parts[j] == q;
    }
  }

  lemma MergeGood(parts: seq<Fields>)
    requires forall q | q in parts :: Good(q)
    ensures Good(MergeParts(parts))
  {
    hide NoReference, Distinct, KindOf;
    var m := MergeParts(parts);
    MergeShape(parts);
    FlatSiblings(m);
    forall k, x | k in Keys(m) && x in Subschemas(KindOf(k), At(m, k), SiblingsOf(m)) ensures NoReference(x) {
      FlatKind(k);
      MergedSubschema(parts, m, k, x);
    }
    FlatNoReference(m);
  }

  lemma FlatNoReference(m: Fields)
    requires Keys(m) <= FLAT_KEYS
    requires forall k, x | k in Keys(m) && x in Subschemas(KindOf(k), At(m, k), SiblingsOf(m)) :: NoReference(x)
    ensures NoReference(Obj(m))
  {
    hide KindOf, Subschemas, SiblingsOf;
    forall k | k in Keys(m) ensures KindOf(k) != Reference {
      FlatKind(k);
    }
  }

  lemma MergedProperty(parts: seq<Fields>, m: Fields, x: Json)
    requires forall q | q in parts :: Good(q)
    requires FromParts(parts, m) && "properties" in Keys(m)
    requires x in Subschemas(Properties, At(m, "properties"), SiblingsOf(m))
    ensures NoReference(x)
  {
    hide NoReference, Distinct, KindOf, SiblingsOf;
    var p :| p in Keys(Props(m)) && At(Props(m), p) == x;
    var q :| q in parts && p in Keys(Props(q)) && At(Props(q), p) == x;
    assert Good(q);
    KeyKinds();
    assert x in Subschemas(Properties, At(q, "properties"), SiblingsOf(q));
    NoReferenceInside(q, "properties", x);
  }

  /** Nothing that a keyword of a flat schema applies depends on the other keywords. */
  lemma FlatSubschemas(m: Fields, q: Fields, k: string, a: Json)
    requires Keys(m) <= FLAT_KEYS && Keys(q) <= FLAT_KEYS
    ensures Subschemas(KindOf(k), a, SiblingsOf(m)) == Subschemas(KindOf(k), a, SiblingsOf(q))
  {
    hide KindOf;
    FlatSiblings(m);
    FlatSiblings(q);
  }

  lemma MergedSubschema(parts: seq<Fields>, m: Fields, k: string, x: Json)
    requires forall q | q in parts :: Good(q)
    requires FromParts(parts, m) && k in Keys(m) && Keys(m) <= FLAT_KEYS
    requires x in Subschemas(KindOf(k), At(m, k), SiblingsOf(m))
    ensures NoReference(x)
  {
    hide NoReference, Distinct, KindOf, SiblingsOf, Subschemas, Props;
    if k == "properties" {
      KeyKinds();
      MergedProperty(parts, m, x);
    } else if k == "required" {
      RequiredSubschemas(At(m, k), SiblingsOf(m));
      assert false;
    } else {
      var q :| q in parts && k in Keys(q) && At(q, k) == At(m, k);
      assert Good(q);
      FlatSubschemas(m, q, k, At(m, k));
      NoReferenceInside(q, k, x);
    }
  }

  lemma RequiredSubschemas(a: Json, s: Siblings)
    ensures Subschemas(KindOf("required"), a, s) == {}
  {
    hide KindOf;
    KeyKinds();
  }
}
