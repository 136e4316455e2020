/** The snapshot of cost references: the check of its effective ranges, and the selection by date.

    Dates are day numbers, ordered as their texts are. The sort compares the first dates.
  */
module CostReferences {
  import opened Json
  import opened Sorting

  datatype Reference = Reference(id: string, kind: string, effectiveFrom: int, effectiveTo: int)

  datatype Status = NOT_FOUND | PARTIAL | OK

  // ---- The check ----

  predicate IdsDiffer(references: seq<Reference>) {
    forall i, j | 0 <= i < j < |references| :: references[i].id != references[j].id
  }

  predicate RangesValid(references: seq<Reference>) {
    forall r | r in references :: r.effectiveFrom <= r.effectiveTo
  }

  function OfKind(references: seq<Reference>, kind: string): (r: seq<Reference>)
    ensures forall x :: x in r <==> x in references && x.kind == kind
  {
    if references == [] then []
    else
      var rest, last := OfKind(references[..|references| - 1], kind), references[|references| - 1];
      assert references == references[..|references| - 1] + [last];
      if last.kind == kind then rest + [last] else rest
  }

  function ByFrom(): (Reference, Reference) -> bool {
    (a: Reference, b: Reference) => a.effectiveFrom <= b.effectiveFrom
  }

  function SortByFrom(list: seq<Reference>): (s: seq<Reference>)
    ensures multiset(s) == multiset(list)
  {
    Sort(ByFrom(), list)
  }

  /** No range of a neighbour has begun when one ends. */
  predicate AdjacentApart(ordered: seq<Reference>) {
    forall i | 0 < i < |ordered| :: ordered[i - 1].effectiveTo < ordered[i].effectiveFrom
  }

  predicate SnapshotValid(references: seq<Reference>) {
    && IdsDiffer(references) && RangesValid(references)
    && forall r | r in references :: AdjacentApart(SortByFrom(OfKind(references, r.kind)))
  }

  method CheckAdjacent(ordered: seq<Reference>) returns (ok: bool)
    ensures ok == AdjacentApart(ordered)
  {
    var i := 1;
    while i < |ordered|
      invariant i >= 1
      invariant forall j | 0 < j < i && j < |ordered| :: ordered[j - 1].effectiveTo < ordered[j].effectiveFrom
    {
      if ordered[i - 1].effectiveTo >= ordered[i].effectiveFrom {
        return false;
      }
      i := i + 1;
    }
    return true;
  }

  function Ids(references: seq<Reference>): set<string> {
    set r | r in references :: r.id
  }

  function Kinds(references: seq<Reference>): set<string> {
    set r | r in references :: r.kind
  }

  lemma OneMore(references: seq<Reference>, r: Reference)
    ensures Ids(references + [r]) == Ids(references) + {r.id}
    ensures Kinds(references + [r]) == Kinds(references) + {r.kind}
    ensures IdsDiffer(references + [r]) <==> IdsDiffer(references) && r.id !in Ids(references)
    ensures RangesValid(references + [r]) <==> RangesValid(references) && r.effectiveFrom <= r.effectiveTo
    ensures forall kind :: OfKind(references + [r], kind) == OfKind(references, kind) + (if r.kind == kind then [r] else [])
  {
    hide OfKind;
    var more := references + [r];
    assert forall x :: x in more <==> x in references || x == r;
    if r.id in Ids(references) {
      var q :| q in references && q.id == r.id;
      var i :| 0 <= i < |references| && references[i] == q;
      assert more[i].id == more[|references|].id;
    }
    if IdsDiffer(more) {
      forall i, j | 0 <= i < j < |references| ensures references[i].id != references[j].id {
        assert more[i] == references[i] && more[j] == references[j];
      }
    }
    if IdsDiffer(references) && r.id !in Ids(references) {
      forall i, j | 0 <= i < j < |more| ensures more[i].id != more[j].id {
        assert more[i] in references;
      }
    }
    forall kind ensures OfKind(more, kind) == OfKind(references, kind) + if r.kind == kind then [r] else [] {
      OfKindMore(references, r, kind);
    }
  }

  lemma OfKindMore(references: seq<Reference>, r: Reference, kind: string)
    ensures OfKind(references + [r], kind) == OfKind(references, kind) + if r.kind == kind then [r] else []
  {
    assert (references + [r])[..|references|] == references;
    assert OfKind(references, kind) + [] == OfKind(references, kind);
  }

  lemma {:induction false} PrefixInvalid(references: seq<Reference>, i: nat)
    requires i <= |references| && !(IdsDiffer(references[..i]) && RangesValid(references[..i]))
    ensures !(IdsDiffer(references) && RangesValid(references))
    decreases |references| - i
  {
    hide IdsDiffer, RangesValid;
    if i < |references| {
      assert references[..i + 1] == references[..i] + [references[i]];
      OneMore(references[..i], references[i]);
      PrefixInvalid(references, i + 1);
    } else {
      assert references[..i] == references;
    }
  }

  method GroupByKind(references: seq<Reference>) returns (valid: bool, byKind: map<string, seq<Reference>>)
    ensures valid <==> IdsDiffer(references) && RangesValid(references)
    ensures valid ==> byKind.Keys == Kinds(references)
    ensures valid ==> forall kind | kind in byKind :: byKind[kind] == OfKind(references, kind)
  {
    hide IdsDiffer, RangesValid, OfKind, Ids, Kinds;
    var ids: set<string> := {};
    byKind := map[];
    NothingYet();
    assert references[..0] == [];
    for i := 0 to |references|
      invariant ids == Ids(references[..i]) && byKind.Keys == Kinds(references[..i])
      invariant IdsDiffer(references[..i]) && RangesValid(references[..i])
      invariant forall kind ::
        (if kind in byKind then byKind[kind] else []) == OfKind(references[..i], kind)
    {
      var r := references[i];
      assert references[..i + 1] == references[..i] + [r];
      OneMore(references[..i], r);
      if r.id in ids || r.effectiveFrom > r.effectiveTo {
        PrefixInvalid(references, i + 1);
        return false, map[];
      }
      ids := ids + {r.id};
      byKind := byKind[r.kind := (if r.kind in byKind then byKind[r.kind] else []) + [r]];
      assert forall s: seq<Reference> :: s + [] == s;
    }
    assert references[..|references|] == references;
    valid := true;
  }

  lemma NothingYet()
    ensures Ids([]) == {} && Kinds([]) == {} && IdsDiffer([]) && RangesValid([])
    ensures forall kind :: OfKind([], kind) == []
  {
  }

  method ValidateSnapshot(references: seq<Reference>) returns (ok: bool)
    ensures ok == SnapshotValid(references)
  {
    hide OfKind, SortByFrom, AdjacentApart, IdsDiffer, RangesValid;
    var valid, byKind := GroupByKind(references);
    if !valid {
      return false;
    }
    var rest := byKind.Keys;
    while rest != {}
      invariant rest <= byKind.Keys
      invariant forall kind | kind in byKind.Keys - rest :: AdjacentApart(SortByFrom(OfKind(references, kind)))
      decreases |rest|
    {
      var kind :| kind in rest;
      rest := rest - {kind};
      var apart := CheckAdjacent(SortByFrom(byKind[kind]));
      if !apart {
        var r :| r in references && r.kind == kind;
        return false;
      }
    }
    return true;
  }

  // ---- What the check of neighbours means ----

  predicate Disjoint(a: Reference, b: Reference) {
    a.effectiveTo < b.effectiveFrom || b.effectiveTo < a.effectiveFrom
  }

  /** Neighbours apart, all apart. */
  lemma {:induction false} AllApart(s: seq<Reference>, i: nat, j: nat)
    requires AdjacentApart(s) && RangesValid(s) && i < j < |s|
    ensures s[i].effectiveTo < s[j].effectiveFrom
    decreases j
  {
    if i < j - 1 {
      AllApart(s, i, j - 1);
      assert s[j - 1] in s;
    }
  }

  lemma {:induction false} OfKindOnce(references: seq<Reference>, kind: string)
    requires IdsDiffer(references)
    ensures NoRepeats(OfKind(references, kind))
  {
    if references != [] {
      var rest, last := references[..|references| - 1], references[|references| - 1];
      OfKindOnce(rest, kind);
      assert last !in rest;
      assert last !in OfKind(rest, kind);
    }
  }

  predicate PairwiseDisjoint(references: seq<Reference>) {
    forall a, b | a in references && b in references && a.kind == b.kind && a != b :: Disjoint(a, b)
  }

  lemma ApartDisjoint(references: seq<Reference>, a: Reference, b: Reference)
    requires SnapshotValid(references) && a in references && b in references && a.kind == b.kind && a != b
    ensures Disjoint(a, b)
  {
    hide SortByFrom, OfKind, IdsDiffer, AdjacentApart, RangesValid;
    var s := SortByFrom(OfKind(references, a.kind));
    SameElements(s, OfKind(references, a.kind));
    var i :| 0 <= i < |s| && s[i] == a;
    var j :| 0 <= j < |s| && s[j] == b;
    SortedRanges(references, a.kind);
    AllApart(s, if i < j then i else j, if i < j then j else i);
  }

  lemma SortedRanges(references: seq<Reference>, kind: string)
    requires RangesValid(references)
    ensures RangesValid(SortByFrom(OfKind(references, kind)))
  {
    hide SortByFrom, OfKind;
    SameElements(SortByFrom(OfKind(references, kind)), OfKind(references, kind));
  }

  /** The snapshot passes exactly when its ids differ, its ranges are ranges, and any two ranges of one
      kind have no day in common. */
  lemma ValidExactly(references: seq<Reference>)
    ensures SnapshotValid(references) <==>
      && IdsDiffer(references) && RangesValid(references)
      && forall a, b | a in references && b in references && a.kind == b.kind && a != b ::
           a.effectiveTo < b.effectiveFrom || b.effectiveTo < a.effectiveFrom
  {
    hide SortByFrom, OfKind, IdsDiffer, RangesValid, AdjacentApart;
    if SnapshotValid(references) {
      forall a, b | a in references && b in references && a.kind == b.kind && a != b ensures Disjoint(a, b) {
        ApartDisjoint(references, a, b);
      }
    }
    if IdsDiffer(references) && RangesValid(references) && PairwiseDisjoint(references) {
      forall r | r in references ensures AdjacentApart(SortByFrom(OfKind(references, r.kind))) {
        DisjointApart(references, r.kind);
      }
    }
  }

  lemma DisjointApart(references: seq<Reference>, kind: string)
    requires IdsDiffer(references) && RangesValid(references) && PairwiseDisjoint(references)
    ensures AdjacentApart(SortByFrom(OfKind(references, kind)))
  {
    hide OfKind, IdsDiffer, Sort;
    var s := SortByFrom(OfKind(references, kind));
    SameElements(s, OfKind(references, kind));
    SortOrders(ByFrom(), OfKind(references, kind));
    OfKindOnce(references, kind);
    StillNoRepeats(s, OfKind(references, kind));
    forall i | 0 < i < |s| ensures s[i - 1].effectiveTo < s[i].effectiveFrom {
      assert ByFrom()(s[i - 1], s[i]) && s[i - 1] != s[i];
      assert s[i - 1] in s && s[i] in s;
      assert Disjoint(s[i - 1], s[i]);
    }
  }

  // ---- Selecting by date ----

  predicate Covers(r: Reference, asOf: int) {
    r.effectiveFrom <= asOf <= r.effectiveTo
  }

  function Selected(references: seq<Reference>, requested: set<string>, asOf: int): (s: seq<Reference>)
    ensures forall r :: r in s <==> r in references && r.kind in requested && Covers(r, asOf)
  {
    if references == [] then []
    else
      var rest, last := Selected(references[..|references| - 1], requested, asOf), references[|references| - 1];
      assert references == references[..|references| - 1] + [last];
      if last.kind in requested && Covers(last, asOf) then rest + [last] else rest
  }

  function StatusOf(selected: seq<Reference>, requested: set<string>): Status {
    if selected == [] then NOT_FOUND
    else if requested - Kinds(selected) != {} then PARTIAL
    else OK
  }

  /** In a valid snapshot a date selects at most one reference of each kind. */
  lemma SelectsUniquely(references: seq<Reference>, requested: set<string>, asOf: int)
    requires SnapshotValid(references)
    ensures var selected := Selected(references, requested, asOf);
      forall a, b | a in selected && b in selected && a.kind == b.kind :: a == b
  {
    hide SnapshotValid, Selected;
    ValidExactly(references);
  }

  /** A reference of the kind is in force on the date. */
  predicate InForce(references: seq<Reference>, kind: string, asOf: int) {
    exists i | 0 <= i < |references| ::
      references[i].kind == kind && references[i].effectiveFrom <= asOf && asOf <= references[i].effectiveTo
  }

  lemma SelectedKinds(references: seq<Reference>, requested: set<string>, asOf: int, kind: string)
    ensures kind in Kinds(Selected(references, requested, asOf)) <==> kind in requested && InForce(references, kind, asOf)
  {
    hide Selected;
    var selected := Selected(references, requested, asOf);
    if kind in Kinds(selected) {
      var r :| r in selected && r.kind == kind;
      var i :| 0 <= i < |references| && references[i] == r;
    }
    if kind in requested && InForce(references, kind, asOf) {
      var i :| 0 <= i < |references| && references[i].kind == kind
               && references[i].effectiveFrom <= asOf && asOf <= references[i].effectiveTo;
      assert references[i] in selected;
    }
  }

  /** For a request that asks for something, the answer is OK exactly when every kind asked for has a reference in force on
      the date, and NOT_FOUND exactly when none has; a date selects the references in force of those kinds. */
  lemma OkExactly(references: seq<Reference>, requested: set<string>, asOf: int)
    requires requested != {}
    ensures var status := StatusOf(Selected(references, requested, asOf), requested);
      && (status == OK <==> forall kind | kind in requested :: InForce(references, kind, asOf))
      && (status == NOT_FOUND <==> forall kind | kind in requested :: !InForce(references, kind, asOf))
    ensures forall r :: r in Selected(references, requested, asOf) <==>
      r in references && r.kind in requested && r.effectiveFrom <= asOf && asOf <= r.effectiveTo
  {
    hide Selected, InForce;
    var selected := Selected(references, requested, asOf);
    forall kind ensures kind in Kinds(selected) <==> kind in requested && InForce(references, kind, asOf) {
      SelectedKinds(references, requested, asOf, kind);
    }
    StatusByKinds(selected, requested);
  }

  lemma StatusByKinds(selected: seq<Reference>, requested: set<string>)
    requires requested != {}
    ensures StatusOf(selected, requested) == OK <==> requested <= Kinds(selected)
    ensures StatusOf(selected, requested) == NOT_FOUND <==> Kinds(selected) == {}
  {
    if selected != [] {
      assert selected[0].kind in Kinds(selected);
    }
    if requested <= Kinds(selected) {
      var kind :| kind in requested;
      assert kind in Kinds(selected);
      assert requested - Kinds(selected) == {};
    } else {
      var kind :| kind in requested && kind !in Kinds(selected);
      assert kind in requested - Kinds(selected);
    }
  }
}
