/** The ranking request for retrieved contexts, and the check of the response. */
module Ranking {
  import opened Json
  import opened JsonText
  import opened ReferenceCollectors
  import opened Sorting

  datatype Context = Context(
    sourceUri: string, sourceDisplayName: string, text: string, chunk: Json, score: Option<int>)

  const ID_PREFIX := "context-"

  function IdOf(index: nat): string {
    ID_PREFIX + Decimal(index)
  }

  function RecordFor(context: Context, index: nat): Json {
    Obj([
      Field("id", Str(IdOf(index))),
      Field("title", Str(context.sourceDisplayName)),
      Field("content", Str(context.text))
    ])
  }

  function RankingRecords(contexts: seq<Context>): seq<Json> {
    seq(|contexts|, i requires 0 <= i < |contexts| => RecordFor(contexts[i], i))
  }

  // ---- The check of a response ----

  function ExpectedIds(n: nat): set<string> {
    set i | 0 <= i < n :: IdOf(i)
  }

  /** `Number(id.slice('context-'.length))` for an id that was expected. */
  function IndexOf(id: string): (i: nat) {
    if |id| > |ID_PREFIX| && forall c | c in id[|ID_PREFIX|..] :: IsDigit(c) then DecimalValue(id[|ID_PREFIX|..]) else 0
  }

  /** The context that a row names, with the row's score; nothing for a row that is refused. */
  function Ranked(row: Json, contexts: seq<Context>, observed: set<string>): Option<Context> {
    if !row.Obj? then None
    else
      var (id, score) := (Member(row.fields, "id"), Member(row.fields, "score"));
      if !id.Str? || id.s !in ExpectedIds(|contexts|) || id.s in observed then None
      else if IndexOf(id.s) >= |contexts| || !score.Num? then None
      else
        var source := contexts[IndexOf(id.s)];
        if Member(row.fields, "title") != Str(source.sourceDisplayName)
           || Member(row.fields, "content") != Str(source.text)
        then None
        else Some(source.(score := Some(score.n)))
  }

  function RowId(row: Json): string {
    match Member(Members(row), "id") case Str(s) => s case _ => ""
  }

  function ObservedIds(rows: seq<Json>): set<string> {
    set row | row in rows :: RowId(row)
  }

  /** `parseVertexRankingResponse`: nothing stands for its error. */
  method ParseRankingResponse(payload: Json, contexts: seq<Context>) returns (ranked: Option<seq<Context>>)
    ensures ranked.Some? <==> AllRanked(payload, contexts)
    ensures ranked.Some? ==>
      var rows := Elements(Member(Members(payload), "records"));
      && |ranked.value| == |rows|
      && forall k | 0 <= k < |rows| :: Ranked(rows[k], contexts, ObservedIds(rows[..k])) == Some(ranked.value[k])
  {
    hide Ranked, RowId;
    var records := Member(Members(payload), "records");
    if !records.Arr? || |records.items| != |contexts| {
      return None;
    }
    var rows, observed, result := records.items, {}, [];
    for k := 0 to |rows|
      invariant observed == ObservedIds(rows[..k]) && |result| == k
      invariant forall j | 0 <= j < k :: Ranked(rows[j], contexts, ObservedIds(rows[..j])) == Some(result[j])
    {
      var context := Ranked(rows[k], contexts, observed);
      if context.None? {
        return None;
      }
      assert rows[..k + 1] == rows[..k] + [rows[k]];
      observed := observed + {RowId(rows[k])};
      result := result + [context.value];
    }
    return Some(result);
  }

  predicate AllRanked(payload: Json, contexts: seq<Context>) {
    var records := Member(Members(payload), "records");
    && records.Arr? && |records.items| == |contexts|
    && forall k | 0 <= k < |records.items| :: Ranked(records.items[k], contexts, ObservedIds(records.items[..k])).Some?
  }

  // ---- Ids and indices ----

  lemma IndexRoundTrip(i: nat)
    ensures IndexOf(IdOf(i)) == i
  {
    DecimalDigits(i);
    assert IdOf(i)[|ID_PREFIX|..] == Decimal(i);
  }

  /** A row that is ranked names the record of its index. */
  lemma RankedRow(row: Json, contexts: seq<Context>, observed: set<string>)
    requires Ranked(row, contexts, observed).Some?
    ensures row.Obj? && IndexOf(RowId(row)) < |contexts| && RowId(row) == IdOf(IndexOf(RowId(row)))
    ensures RowId(row) !in observed
  {
    var i :| 0 <= i < |contexts| && IdOf(i) == RowId(row);
    IndexRoundTrip(i);
  }

  // ---- Permutations ----

  /** Every index once. */
  predicate IsPermutation(p: seq<nat>, n: nat) {
    && |p| == n
    && (forall k | 0 <= k < n :: p[k] < n)
    && forall j, k | 0 <= j < k < n :: p[j] != p[k]
  }

  function UpTo(n: nat): (r: set<nat>)
    ensures |r| == n && forall i: nat :: i in r <==> i < n
  {
    if n == 0 then {} else UpTo(n - 1) + {n - 1}
  }

  /** The pigeonhole principle: no index is missing. */
  lemma NoneMissing(p: seq<nat>, n: nat, i: nat)
    requires IsPermutation(p, n) && i < n
    ensures i in p
  {
    CountOccurring(p);
    if i !in p {
      assert Occurring(p) <= UpTo(n) - {i};
      SubsetSize(Occurring(p), UpTo(n) - {i});
      assert false;
    }
  }

  // ---- What is accepted ----

  /** The row repeats the record of index `i`, and has a score. */
  predicate Scores(row: Json, context: Context, i: nat) {
    && row.Obj?
    && Member(row.fields, "id") == Str(IdOf(i))
    && Member(row.fields, "title") == Str(context.sourceDisplayName)
    && Member(row.fields, "content") == Str(context.text)
    && Member(row.fields, "score").Num?
  }

  /** The rows are the request's records in the order `p`, each with a score. */
  predicate Reorders(rows: seq<Json>, contexts: seq<Context>, p: seq<nat>) {
    && |rows| == |contexts| && IsPermutation(p, |contexts|)
    && forall k | 0 <= k < |rows| :: Scores(rows[k], contexts[p[k]], p[k])
  }

  lemma AcceptedReorders(payload: Json, contexts: seq<Context>) returns (p: seq<nat>)
    requires AllRanked(payload, contexts)
    ensures Reorders(Elements(Member(Members(payload), "records")), contexts, p)
    ensures var rows := Elements(Member(Members(payload), "records"));
      forall k | 0 <= k < |rows| ::
        Ranked(rows[k], contexts, ObservedIds(rows[..k])) ==
          Some(contexts[p[k]].(score := Some(Member(Members(rows[k]), "score").n)))
  {
    hide IndexOf, ExpectedIds;
    var rows := Elements(Member(Members(payload), "records"));
    p := seq(|rows|, k requires 0 <= k < |rows| => IndexOf(RowId(rows[k])));
    forall k | 0 <= k < |rows| ensures p[k] < |contexts| && Scores(rows[k], contexts[p[k]], p[k]) {
      RankedRow(rows[k], contexts, ObservedIds(rows[..k]));
    }
    forall j, k | 0 <= j < k < |rows| ensures p[j] != p[k] {
      RankedRow(rows[j], contexts, ObservedIds(rows[..j]));
      RankedRow(rows[k], contexts, ObservedIds(rows[..k]));
      assert rows[..k][j] in rows[..k];
      assert RowId(rows[j]) in ObservedIds(rows[..k]);
    }
  }

  lemma ReorderingAccepted(payload: Json, contexts: seq<Context>, p: seq<nat>)
    requires Member(Members(payload), "records").Arr?
    requires Reorders(Elements(Member(Members(payload), "records")), contexts, p)
    ensures AllRanked(payload, contexts)
  {
    hide Ranked, Scores, RowId, IsPermutation;
    var rows := Elements(Member(Members(payload), "records"));
    forall k | 0 <= k < |rows| ensures Ranked(rows[k], contexts, ObservedIds(rows[..k])).Some? {
      PermutationAt(p, |contexts|, k);
      NotObserved(rows, contexts, p, k);
      ScoredRanked(rows[k], contexts, ObservedIds(rows[..k]), p[k]);
    }
  }

  lemma PermutationAt(p: seq<nat>, n: nat, k: nat)
    requires IsPermutation(p, n) && k < n
    ensures |p| == n && p[k] < n && forall j | 0 <= j < k :: p[j] != p[k]
  {
  }

  lemma ScoredRanked(row: Json, contexts: seq<Context>, observed: set<string>, i: nat)
    requires i < |contexts| && Scores(row, contexts[i], i) && IdOf(i) !in observed
    ensures Ranked(row, contexts, observed).Some?
  {
    hide IndexOf, IdOf;
    IndexRoundTrip(i);
    assert IdOf(i) in ExpectedIds(|contexts|);
  }

  lemma NotObserved(rows: seq<Json>, contexts: seq<Context>, p: seq<nat>, k: nat)
    requires Reorders(rows, contexts, p) && k < |rows|
    ensures IdOf(p[k]) !in ObservedIds(rows[..k])
  {
    hide IndexOf, IdOf, Member;
    if IdOf(p[k]) in ObservedIds(rows[..k]) {
      var row :| row in rows[..k] && RowId(row) == IdOf(p[k]);
      var j :| 0 <= j < k && rows[j] == row;
      assert Scores(rows[j], contexts[p[j]], p[j]);
      assert RowId(rows[j]) == IdOf(p[j]);
      IndexRoundTrip(p[k]);
      IndexRoundTrip(p[j]);
      assert false;
    }
  }

  /** A response is accepted exactly when its rows are the request's records in some order, each with a
      score; no context is missing then. */
  lemma AcceptedExactly(payload: Json, contexts: seq<Context>)
    ensures AllRanked(payload, contexts) <==>
      && Member(Members(payload), "records").Arr?
      && exists p :: Reorders(Elements(Member(Members(payload), "records")), contexts, p)
    ensures forall p, i: nat | Reorders(Elements(Member(Members(payload), "records")), contexts, p) && i < |contexts| :: i in p
  {
    hide Ranked, IsPermutation, Scores;
    var rows := Elements(Member(Members(payload), "records"));
    if AllRanked(payload, contexts) {
      var p := AcceptedReorders(payload, contexts);
    }
    if Member(Members(payload), "records").Arr? {
      if p :| Reorders(rows, contexts, p) {
        ReorderingAccepted(payload, contexts, p);
      }
    }
    forall p, i: nat | Reorders(rows, contexts, p) && i < |contexts| ensures i in p {
      NoneMissing(p, |contexts|, i);
    }
  }

  /** A record of the request as the service returns it, with a score. */
  function Scored(record: Json, score: int): Json {
    Obj(Members(record) + [Field("score", Num(score))])
  }

  lemma RecordScores(context: Context, i: nat, score: int)
    ensures Scores(Scored(RecordFor(context, i), score), context, i)
  {
    hide IdOf, Get, Keys;
    var fields := Members(RecordFor(context, i)) + [Field("score", Num(score))];
    var (a, b) := (Field("id", Str(IdOf(i))), Field("title", Str(context.sourceDisplayName)));
    var (c, d) := (Field("content", Str(context.text)), Field("score", Num(score)));
    assert fields == [a, b] + [c, d];
    TwoMembers(c, d);
    TwoMore(a, b, [c, d]);
  }

  /** The records of the built request, scored and returned in any order, are accepted. */
  lemma AnyReorderingAccepted(contexts: seq<Context>, p: seq<nat>, scores: seq<int>)
    requires IsPermutation(p, |contexts|) && |scores| == |contexts|
    ensures AllRanked(
      Obj([Field("records", Arr(seq(|p|, k requires 0 <= k < |p| =>
        (assert p[k] < |contexts|; Scored(RankingRecords(contexts)[p[k]], scores[k])))))]),
      contexts)
  {
    hide Scores, Scored, RecordFor;
    var rows := seq(|p|, k requires 0 <= k < |p| =>
      (assert p[k] < |contexts|; Scored(RankingRecords(contexts)[p[k]], scores[k])));
    var payload := Obj([Field("records", Arr(rows))]);
    assert Member(Members(payload), "records") == Arr(rows);
    forall k | 0 <= k < |rows| ensures Scores(rows[k], contexts[p[k]], p[k]) {
      RecordScores(contexts[p[k]], p[k], scores[k]);
    }
    ReorderingAccepted(payload, contexts, p);
  }
}
