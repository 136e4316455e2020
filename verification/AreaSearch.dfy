/** The ranking of address rows: the best candidate of every administrative code, the best codes first.

    How a row scores is left to the caller; of the comparison of names only that it is a total preorder.
  */
module AreaSearch {
  import opened Json
  import opened Sorting

  datatype Candidate = Candidate(code: string, name: string, matchKind: string, score: int)

  /** `left.localeCompare(right) <= 0`. */
  type NameOrder = (string, string) -> bool

  /** `a` may stand before `b`. */
  predicate Before(upTo: NameOrder, a: Candidate, b: Candidate) {
    a.score > b.score || (a.score == b.score && upTo(a.name, b.name))
  }

  function Order(upTo: NameOrder): (Candidate, Candidate) -> bool {
    (a: Candidate, b: Candidate) => Before(upTo, a, b)
  }

  // ---- One candidate for each code ----

  /** The map's entry of the code is set, in its place, when there is none yet or a worse one. */
  function Keep(kept: seq<Candidate>, c: Candidate): seq<Candidate> {
    if kept == [] then [c]
    else if kept[0].code != c.code then [kept[0]] + Keep(kept[1..], c)
    else [if c.score > kept[0].score then c else kept[0]] + kept[1..]
  }

  function Deduplicated(rows: seq<Option<Candidate>>): seq<Candidate> {
    if rows == [] then []
    else
      var kept, last := Deduplicated(rows[..|rows| - 1]), rows[|rows| - 1];
      if last.None? then kept else Keep(kept, last.value)
  }

  /** Row `i` has the best candidate of its code, and the first of the best. */
  predicate IsBest(rows: seq<Option<Candidate>>, i: nat) {
    && i < |rows| && rows[i].Some?
    && (forall j | 0 <= j < i && rows[j].Some? && rows[j].value.code == rows[i].value.code ::
          rows[j].value.score < rows[i].value.score)
    && (forall j | i < j < |rows| && rows[j].Some? && rows[j].value.code == rows[i].value.code ::
          rows[j].value.score <= rows[i].value.score)
  }

  predicate CodesDiffer(kept: seq<Candidate>) {
    forall i, j | 0 <= i < j < |kept| :: kept[i].code != kept[j].code
  }

  function Lookup(kept: seq<Candidate>, code: string): Option<Candidate> {
    if kept == [] then None
    else if kept[0].code == code then Some(kept[0])
    else Lookup(kept[1..], code)
  }

  function Better(existing: Option<Candidate>, c: Candidate): Candidate {
    if existing.Some? && c.score <= existing.value.score then existing.value else c
  }

  /** The candidate that a walk over the rows retains for one code. */
  function BestOf(rows: seq<Option<Candidate>>, code: string): Option<Candidate> {
    if rows == [] then None
    else
      var before, last := BestOf(rows[..|rows| - 1], code), rows[|rows| - 1];
      if last.Some? && last.value.code == code then Some(Better(before, last.value)) else before
  }

  lemma {:induction false} KeepLookup(kept: seq<Candidate>, c: Candidate, code: string)
    ensures Lookup(Keep(kept, c), code) == if code == c.code then Some(Better(Lookup(kept, code), c)) else Lookup(kept, code)
  {
    if kept != [] && kept[0].code != c.code {
      KeepLookup(kept[1..], c, code);
    }
  }

  lemma {:induction false} DeduplicatedLookup(rows: seq<Option<Candidate>>, code: string)
    ensures Lookup(Deduplicated(rows), code) == BestOf(rows, code)
  {
    if rows != [] {
      var rest, last := rows[..|rows| - 1], rows[|rows| - 1];
      DeduplicatedLookup(rest, code);
      if last.Some? {
        KeepLookup(Deduplicated(rest), last.value, code);
      }
    }
  }

  lemma {:induction false} LookupFinds(kept: seq<Candidate>, code: string)
    ensures Lookup(kept, code).Some? ==> Lookup(kept, code).value in kept && Lookup(kept, code).value.code == code
    ensures Lookup(kept, code).None? ==> forall c | c in kept :: c.code != code
  {
    if kept != [] {
      LookupFinds(kept[1..], code);
      assert forall c | c in kept :: c == kept[0] || c in kept[1..];
    }
  }

  lemma {:induction false} LookupExact(kept: seq<Candidate>, c: Candidate)
    requires CodesDiffer(kept)
    ensures c in kept <==> Lookup(kept, c.code) == Some(c)
  {
    if kept != [] {
      LookupExact(kept[1..], c);
      LookupFinds(kept[1..], c.code);
      assert forall d | d in kept :: d == kept[0] || d in kept[1..];
    }
  }

  lemma {:induction false} KeepDiffers(kept: seq<Candidate>, c: Candidate)
    requires CodesDiffer(kept)
    ensures CodesDiffer(Keep(kept, c))
  {
    if kept != [] {
      var rest := Keep(kept[1..], c);
      KeepDiffers(kept[1..], c);
      if kept[0].code != c.code {
        forall j | 0 <= j < |rest| ensures rest[j].code != kept[0].code {
          KeepLookup(kept[1..], c, kept[0].code);
          LookupFinds(rest, kept[0].code);
          LookupFinds(kept[1..], kept[0].code);
          assert rest[j] in rest;
        }
      }
    }
  }

  lemma {:induction false} DeduplicatedDiffers(rows: seq<Option<Candidate>>)
    ensures CodesDiffer(Deduplicated(rows))
  {
    hide CodesDiffer;
    if rows != [] {
      DeduplicatedDiffers(rows[..|rows| - 1]);
      if rows[|rows| - 1].Some? {
        KeepDiffers(Deduplicated(rows[..|rows| - 1]), rows[|rows| - 1].value);
      }
    } else {
      NoneDiffer();
    }
  }

  lemma NoneDiffer()
    ensures CodesDiffer([])
  {
  }

  /** No row of the code, or the first best one. */
  lemma {:induction false} BestOfCode(rows: seq<Option<Candidate>>, code: string) returns (b: nat)
    ensures BestOf(rows, code).None? ==> forall i | 0 <= i < |rows| && rows[i].Some? :: rows[i].value.code != code
    ensures BestOf(rows, code).Some? ==>
      IsBest(rows, b) && rows[b] == BestOf(rows, code) && rows[b].value.code == code
  {
    b := 0;
    if rows != [] {
      var rest, n := rows[..|rows| - 1], |rows| - 1;
      b := BestOfCode(rest, code);
      if rows[n].Some? && rows[n].value.code == code && BestOf(rows, code) == rows[n]
         && (BestOf(rest, code).None? || rows[n].value.score > BestOf(rest, code).value.score) {
        b := n;
      }
    }
  }

  /** There is only one first best row of a code. */
  lemma BestUnique(rows: seq<Option<Candidate>>, i: nat, j: nat)
    requires IsBest(rows, i) && IsBest(rows, j) && rows[i].value.code == rows[j].value.code
    ensures i == j
  {
  }

  /** What is kept is, for every code that occurs, its first best candidate. */
  lemma DeduplicatedExact(rows: seq<Option<Candidate>>)
    ensures CodesDiffer(Deduplicated(rows))
    ensures forall c | c in Deduplicated(rows) :: exists i: nat :: IsBest(rows, i) && rows[i].value == c
    ensures forall i: nat | IsBest(rows, i) :: rows[i].value in Deduplicated(rows)
  {
    hide IsBest, Deduplicated, BestOf, Lookup, CodesDiffer;
    var kept := Deduplicated(rows);
    DeduplicatedDiffers(rows);
    forall i: nat | IsBest(rows, i) ensures i < |rows| && rows[i].Some? {
      BestIsRow(rows, i);
    }
    forall c | c in kept ensures exists i: nat :: IsBest(rows, i) && rows[i].value == c {
      LookupExact(kept, c);
      DeduplicatedLookup(rows, c.code);
      var b := BestOfCode(rows, c.code);
    }
    forall i: nat | IsBest(rows, i) ensures rows[i].value in kept {
      var c := rows[i].value;
      var b := BestOfCode(rows, c.code);
      BestUnique(rows, i, b);
      DeduplicatedLookup(rows, c.code);
      LookupExact(kept, c);
    }
  }

  lemma BestIsRow(rows: seq<Option<Candidate>>, i: nat)
    requires IsBest(rows, i)
    ensures i < |rows| && rows[i].Some?
  {
  }

  // ---- The search ----

  function Take(list: seq<Candidate>, n: nat): seq<Candidate> {
    if |list| <= n then list else list[..n]
  }

  method RankAndDeduplicate(upTo: NameOrder, rows: seq<Option<Candidate>>, limit: nat) returns (found: seq<Candidate>)
    ensures found == Take(Sort(Order(upTo), Deduplicated(rows)), limit)
  {
    var unique: seq<Candidate> := [];
    for i := 0 to |rows|
      invariant unique == Deduplicated(rows[..i])
    {
      assert rows[..i + 1][..i] == rows[..i];
      if rows[i].Some? {
        unique := Keep(unique, rows[i].value);
      }
    }
    assert rows[..|rows|] == rows;
    found := Take(Sort(Order(upTo), unique), limit);
  }

  function CodesOf(rows: seq<Option<Candidate>>): set<string> {
    set row | row in rows && row.Some? :: row.value.code
  }

  /** The search finds the top codes: as many as there are up to the limit, each once and with its first
      best row, in order, and no code left out has a candidate that had to stand before one found. */
  lemma TopCodes(upTo: NameOrder, rows: seq<Option<Candidate>>, limit: nat)
    requires TotalPreorder(upTo)
    ensures var found := Take(Sort(Order(upTo), Deduplicated(rows)), limit);
      && |found| == (if |CodesOf(rows)| < limit then |CodesOf(rows)| else limit)
      && CodesDiffer(found) && Sorted(Order(upTo), found)
      && (forall i, j | 0 <= i < j < |found| ::
            found[i].score > found[j].score || (found[i].score == found[j].score && upTo(found[i].name, found[j].name)))
      && (forall c | c in found :: exists i: nat :: IsBest(rows, i) && rows[i].value == c)
      && (forall i: nat, c | IsBest(rows, i) && rows[i].value !in found && c in found ::
            c.score > rows[i].value.score || (c.score == rows[i].value.score && upTo(c.name, rows[i].value.name)))
  {
    hide Deduplicated, Sort, IsBest, TotalPreorder, Before;
    var (kept, sorted) := (Deduplicated(rows), Sort(Order(upTo), Deduplicated(rows)));
    DeduplicatedExact(rows);
    OrderTotal(upTo);
    SortOrders(Order(upTo), kept);
    SameElements(sorted, kept);
    CountCodes(rows, kept);
    SortedDiffers(sorted, kept);
    var found := Take(sorted, limit);
    forall c | c in found ensures c in kept {
    }
    forall i: nat | IsBest(rows, i) ensures i < |rows| && rows[i].Some? {
      BestIsRow(rows, i);
    }
    forall i: nat, c | IsBest(rows, i) && rows[i].value !in found && c in found
      ensures c.score > rows[i].value.score || (c.score == rows[i].value.score && upTo(c.name, rows[i].value.name))
    {
      var k :| 0 <= k < |sorted| && sorted[k] == rows[i].value;
      var j :| 0 <= j < |found| && found[j] == c;
      assert k >= |found|;
      assert sorted[j] == c;
      assert Order(upTo)(sorted[j], sorted[k]);
      BeforeExactly(upTo, c, rows[i].value);
    }
    forall i, j | 0 <= i < j < |found|
      ensures found[i].score > found[j].score || (found[i].score == found[j].score && upTo(found[i].name, found[j].name))
    {
      assert Order(upTo)(sorted[i], sorted[j]);
      BeforeExactly(upTo, found[i], found[j]);
    }
  }

  lemma BeforeExactly(upTo: NameOrder, a: Candidate, b: Candidate)
    ensures Before(upTo, a, b) <==> a.score > b.score || (a.score == b.score && upTo(a.name, b.name))
  {
  }

  lemma OrderTotal(upTo: NameOrder)
    requires TotalPreorder(upTo)
    ensures TotalPreorder(Order(upTo))
  {
  }

  lemma SortedDiffers(sorted: seq<Candidate>, kept: seq<Candidate>)
    requires multiset(sorted) == multiset(kept) && CodesDiffer(kept)
    ensures CodesDiffer(sorted)
  {
    SameElements(sorted, kept);
    StillNoRepeats(sorted, kept);
    forall i, j | 0 <= i < j < |sorted| ensures sorted[i].code != sorted[j].code {
      assert sorted[i] in kept && sorted[j] in kept;
    }
  }

  lemma CountCodes(rows: seq<Option<Candidate>>, kept: seq<Candidate>)
    requires CodesDiffer(kept)
    requires forall c | c in kept :: exists i: nat :: IsBest(rows, i) && rows[i].value == c
    requires forall i: nat | IsBest(rows, i) :: rows[i].value in kept
    ensures |kept| == |CodesOf(rows)|
  {
    var list := seq(|kept|, i requires 0 <= i < |kept| => kept[i].code);
    var codes := Occurring(list);
    CountOccurring(list);
    forall code | code in CodesOf(rows) ensures code in codes {
      var row :| row in rows && row.Some? && row.value.code == code;
      var i :| 0 <= i < |rows| && rows[i] == row;
      var b := BestOfCode(rows, code);
      var k :| 0 <= k < |kept| && kept[k] == rows[b].value;
      assert list[k] == code;
    }
    forall code | code in codes ensures code in CodesOf(rows) {
      var k :| 0 <= k < |list| && list[k] == code;
      var c := kept[k];
      assert c in kept;
      var i: nat :| IsBest(rows, i) && rows[i].value == c;
      assert rows[i] in rows;
    }
    assert codes == CodesOf(rows);
  }
}
