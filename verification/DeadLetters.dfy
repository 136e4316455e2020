/** The operator's view of dead-lettered outbox rows: keyset pages, and the audited reprocess command. */
module DeadLetters {
  import opened Json
  import opened Outbox

  const REPROCESSABLE_FAILURE_CODES := {"AGENT_CLEANUP_RETRY_EXHAUSTED"}

  // ---- Reprocessing ----

  datatype Request = Request(
    requestId: string, expectedFailureCode: string, remediationCode: string, changeReference: string)

  datatype ReprocessResult = ReprocessResult(
    eventId: string, requestId: string, outboxId: nat, previousFailureCode: string, previousAttempts: nat,
    requestedAt: int)

  datatype OperationError =
    | DEAD_LETTER_REQUEST_ID_REUSED
    | DEAD_LETTER_NOT_FOUND
    | DEAD_LETTER_FAILURE_CODE_CHANGED
    | DEAD_LETTER_STATE_CHANGED
    | DEAD_LETTER_NOT_REPROCESSABLE

  type Outcome = Result<ReprocessResult, OperationError>

  function FindEvent(events: seq<ReprocessEvent>, requestId: string): (r: Option<ReprocessEvent>)
    ensures r.Some? ==> r.value in events && r.value.requestId == requestId
    ensures r.None? <==> forall e | e in events :: e.requestId != requestId
  {
    if events == [] then None
    else if events[0].requestId == requestId then Some(events[0])
    else FindEvent(events[1..], requestId)
  }

  function ResultOf(e: ReprocessEvent): ReprocessResult {
    ReprocessResult(e.eventId, e.requestId, e.outboxId, e.previousFailureCode, e.previousAttempts, e.requestedAt)
  }

  predicate Repeats(e: ReprocessEvent, id: nat, request: Request) {
    && e.outboxId == id
    && e.previousFailureCode == request.expectedFailureCode
    && e.remediationCode == request.remediationCode
    && e.changeReference == request.changeReference
  }

  function EventFor(id: nat, row: Row, request: Request, now: int, eventId: string): ReprocessEvent {
    ReprocessEvent(
      eventId, request.requestId, id, row.topic, row.aggregateId, request.expectedFailureCode, row.attempts,
      request.remediationCode, request.changeReference, now)
  }

  function RequeuedRow(row: Row, now: int): Row {
    row.(status := PENDING, attempts := 0, availableAt := now, failureCode := None, failedAt := None,
         claim := None, claimExpiresAt := None, publisherId := None)
  }

  function Requeued(t: Tables, id: nat, request: Request, now: int, eventId: string): Tables
    requires id in t.rows
  {
    t.(rows := t.rows[id := RequeuedRow(t.rows[id], now)],
       events := t.events + [EventFor(id, t.rows[id], request, now, eventId)])
  }

  /** Why a request that is not a replay is refused, if it is. */
  function Refusal(t: Tables, id: nat, request: Request): Option<OperationError> {
    if id !in t.rows then Some(DEAD_LETTER_NOT_FOUND)
    else if t.rows[id].failureCode != Some(request.expectedFailureCode) then Some(DEAD_LETTER_FAILURE_CODE_CHANGED)
    else if t.rows[id].status != DEAD_LETTER then Some(DEAD_LETTER_STATE_CHANGED)
    else if request.expectedFailureCode !in REPROCESSABLE_FAILURE_CODES then Some(DEAD_LETTER_NOT_REPROCESSABLE)
    else None
  }

  function Reprocessed(t: Tables, id: nat, request: Request, now: int, eventId: string): (Tables, Outcome) {
    match FindEvent(t.events, request.requestId)
    case Some(e) => (t, if Repeats(e, id, request) then Ok(ResultOf(e)) else Err(DEAD_LETTER_REQUEST_ID_REUSED))
    case None =>
      match Refusal(t, id, request)
      case Some(error) => (t, Err(error))
      case None =>
        (Requeued(t, id, request, now, eventId), Ok(ResultOf(EventFor(id, t.rows[id], request, now, eventId))))
  }

  // ---- The answer to a request, case by case ----

  /** The request id is new. */
  predicate New(t: Tables, request: Request) {
    forall i | 0 <= i < |t.events| :: t.events[i].requestId != request.requestId
  }

  /** Line `k` of the audit table is the first under the request's id. */
  predicate FirstUnder(t: Tables, request: Request, k: int) {
    && 0 <= k < |t.events| && t.events[k].requestId == request.requestId
    && forall i | 0 <= i < k :: t.events[i].requestId != request.requestId
  }

  /** A new request is refused for the first thing that is wrong, or is written down beside the row that starts again. */
  predicate AnsweredNew(t: Tables, u: Tables, outcome: Outcome, id: nat, request: Request, now: int, eventId: string) {
    if id !in t.rows then u == t && outcome == Err(DEAD_LETTER_NOT_FOUND)
    else
      var row := t.rows[id];
      if row.failureCode != Some(request.expectedFailureCode) then u == t && outcome == Err(DEAD_LETTER_FAILURE_CODE_CHANGED)
      else if row.status != DEAD_LETTER then u == t && outcome == Err(DEAD_LETTER_STATE_CHANGED)
      else if row.failureCode != Some("AGENT_CLEANUP_RETRY_EXHAUSTED") then
        u == t && outcome == Err(DEAD_LETTER_NOT_REPROCESSABLE)
      else
        && id in u.rows && u.rows == t.rows[id := u.rows[id]] && u.lastId == t.lastId
        && u.rows[id] == Row(
             row.topic, row.aggregateId, row.payload, row.payloadDigest, PENDING, 0, now,
             None, None, None, row.publishedAt, row.messageId, None, None)
        && u.events == t.events + [ReprocessEvent(
             eventId, request.requestId, id, row.topic, row.aggregateId, "AGENT_CLEANUP_RETRY_EXHAUSTED", row.attempts,
             request.remediationCode, request.changeReference, now)]
        && outcome == Ok(ReprocessResult(
             eventId, request.requestId, id, "AGENT_CLEANUP_RETRY_EXHAUSTED", row.attempts, now))
  }

  /** A known request changes nothing, and gets its answer again if nothing about it is different. */
  predicate AnsweredAgain(t: Tables, u: Tables, outcome: Outcome, id: nat, request: Request, k: int)
    requires 0 <= k < |t.events|
  {
    var e := t.events[k];
    && u == t
    && if (e.outboxId, e.previousFailureCode, e.remediationCode, e.changeReference) ==
          (id, request.expectedFailureCode, request.remediationCode, request.changeReference)
       then outcome == Ok(ReprocessResult(e.eventId, request.requestId, id, request.expectedFailureCode,
                                          e.previousAttempts, e.requestedAt))
       else outcome == Err(DEAD_LETTER_REQUEST_ID_REUSED)
  }

  lemma {:induction false} FoundFirst(events: seq<ReprocessEvent>, requestId: string, k: nat)
    requires k < |events| && events[k].requestId == requestId
    requires forall i | 0 <= i < k :: events[i].requestId != requestId
    ensures FindEvent(events, requestId) == Some(events[k])
  {
    if k > 0 {
      FoundFirst(events[1..], requestId, k - 1);
    }
  }

  lemma ReprocessAnswers(t: Tables, id: nat, request: Request, now: int, eventId: string)
    ensures var (u, outcome) := Reprocessed(t, id, request, now, eventId);
      && (New(t, request) ==> AnsweredNew(t, u, outcome, id, request, now, eventId))
      && (forall k | FirstUnder(t, request, k) :: AnsweredAgain(t, u, outcome, id, request, k))
  {
    hide FindEvent;
    forall k | FirstUnder(t, request, k)
      ensures FindEvent(t.events, request.requestId) == Some(t.events[k])
    {
      FoundFirst(t.events, request.requestId, k);
    }
    if New(t, request) {
      assert FindEvent(t.events, request.requestId).None?;
    }
  }

  // ---- What reprocessing promises ----

  /** The audit table never names a request twice. */
  predicate RequestsDistinct(events: seq<ReprocessEvent>) {
    forall i, j | 0 <= i < j < |events| :: events[i].requestId != events[j].requestId
  }

  lemma ReprocessKeepsRequestsDistinct(t: Tables, id: nat, request: Request, now: int, eventId: string)
    requires RequestsDistinct(t.events)
    ensures RequestsDistinct(Reprocessed(t, id, request, now, eventId).0.events)
  {
    if FindEvent(t.events, request.requestId).None? {
      forall i | 0 <= i < |t.events| ensures t.events[i].requestId != request.requestId {
        assert t.events[i] in t.events;
      }
    }
  }

  lemma {:induction false} FoundInLonger(events: seq<ReprocessEvent>, more: seq<ReprocessEvent>, requestId: string)
    requires FindEvent(events, requestId).Some?
    ensures FindEvent(events + more, requestId) == FindEvent(events, requestId)
  {
    if events[0].requestId != requestId {
      assert (events + more)[1..] == events[1..] + more;
      FoundInLonger(events[1..], more, requestId);
    }
  }

  lemma {:induction false} FoundLast(events: seq<ReprocessEvent>, e: ReprocessEvent)
    requires FindEvent(events, e.requestId).None?
    ensures FindEvent(events + [e], e.requestId) == Some(e)
  {
    if events != [] {
      assert events[0] in events;
      assert (events + [e])[1..] == events[1..] + [e];
      forall x | x in events[1..] ensures x.requestId != e.requestId {
        assert x in events;
      }
      FoundLast(events[1..], e);
    }
  }

  /** After a success, and whatever else has happened since, the same request is answered with the
      same result and changes nothing; any other request under its id is refused. */
  lemma ReprocessIdempotent(
    t: Tables, id: nat, request: Request, now: int, eventId: string,
    later: Tables, id': nat, request': Request, now': int, eventId': string)
    requires Reprocessed(t, id, request, now, eventId).1.Ok?
    requires Reprocessed(t, id, request, now, eventId).0.events <= later.events
    requires request'.requestId == request.requestId
    ensures Reprocessed(later, id', request', now', eventId') ==
      (later,
       if id' == id && request' == request then Reprocessed(t, id, request, now, eventId).1
       else Err(DEAD_LETTER_REQUEST_ID_REUSED))
  {
    var events := Reprocessed(t, id, request, now, eventId).0.events;
    Recorded(t, id, request, now, eventId);
    hide FindEvent;
    FoundInLonger(events, later.events[|events|..], request.requestId);
    assert events + later.events[|events|..] == later.events;
  }

  /** After a success the audit table names the request, with the answer that was given. */
  lemma Recorded(t: Tables, id: nat, request: Request, now: int, eventId: string)
    requires Reprocessed(t, id, request, now, eventId).1.Ok?
    ensures var (after, outcome) := Reprocessed(t, id, request, now, eventId);
      var found := FindEvent(after.events, request.requestId);
      && found.Some? && outcome == Ok(ResultOf(found.value))
      && Repeats(found.value, id, request)
      && (forall id': nat, request': Request | request'.requestId == request.requestId && Repeats(found.value, id', request') ::
            id' == id && request' == request)
  {
    if FindEvent(t.events, request.requestId).None? {
      FoundLast(t.events, EventFor(id, t.rows[id], request, now, eventId));
    }
  }

  // ---- Pages ----

  predicate IsDead(t: Tables, id: nat) {
    id in t.rows && t.rows[id].status == DEAD_LETTER
  }

  /** The dead-lettered rows from `id` on, in the order of their ids. */
  function DeadFrom(t: Tables, id: nat): (r: seq<nat>)
    ensures forall i :: i in r <==> id <= i <= t.lastId && IsDead(t, i)
    ensures forall i, j | 0 <= i < j < |r| :: r[i] < r[j]
    decreases t.lastId + 1 - id
  {
    if id > t.lastId then []
    else
      var rest := DeadFrom(t, id + 1);
      assert forall i | 0 <= i < |rest| :: rest[i] in rest;
      assert forall i :: i in [id] + rest <==> i == id || i in rest;
      if IsDead(t, id) then [id] + rest else rest
  }

  datatype DeadLetterRecord = DeadLetterRecord(
    outboxId: nat, topic: string, aggregateId: string, attempts: nat, failureCode: Option<string>,
    failedAt: Option<int>, payloadDigest: string, reprocessable: bool)

  datatype Page = Page(items: seq<DeadLetterRecord>, nextCursor: Option<nat>)

  function RecordOf(t: Tables, id: nat): DeadLetterRecord
    requires id in t.rows
  {
    var row := t.rows[id];
    DeadLetterRecord(
      id, row.topic, row.aggregateId, row.attempts, row.failureCode, row.failedAt, row.payloadDigest,
      row.failureCode.Some? && row.failureCode.value in REPROCESSABLE_FAILURE_CODES)
  }

  function Take(ids: seq<nat>, n: nat): seq<nat> {
    if |ids| <= n then ids else ids[..n]
  }

  /** One page. Ids start at 1, so that 0 stands for no cursor. */
  function PageAfter(t: Tables, limit: nat, after: nat): Page {
    var ids := Take(DeadFrom(t, after + 1), limit + 1);
    var visible := Take(ids, limit);
    Page(seq(|visible|, i requires 0 <= i < |visible| => (assert visible[i] in DeadFrom(t, after + 1); RecordOf(t, visible[i]))),
         if |ids| > limit && visible != [] then Some(visible[|visible| - 1]) else None)
  }

  class DeadLetterOperations {
    const database: Database

    constructor (database: Database)
      ensures this.database == database
    {
      this.database := database;
    }

    method RecordsOf(ids: seq<nat>) returns (items: seq<DeadLetterRecord>)
      requires forall id | id in ids :: id in database.tables.rows
      ensures |items| == |ids|
      ensures forall k | 0 <= k < |ids| :: items[k] == RecordOf(database.tables, ids[k])
    {
      hide RecordOf;
      items := [];
      for i := 0 to |ids|
        invariant |items| == i
        invariant forall k | 0 <= k < i :: items[k] == RecordOf(database.tables, ids[k])
      {
        items := items + [RecordOf(database.tables, ids[i])];
      }
    }

    method List(limit: nat, afterOutboxId: Option<nat>) returns (page: Page)
      ensures page == PageAfter(database.tables, limit, if afterOutboxId.Some? then afterOutboxId.value else 0)
      ensures forall k | 0 <= k < |page.items| ::
        && page.items[k].outboxId in database.tables.rows
        && var row := database.tables.rows[page.items[k].outboxId];
        && (page.items[k].topic, page.items[k].aggregateId, page.items[k].attempts) ==
             (row.topic, row.aggregateId, row.attempts)
        && (page.items[k].failureCode, page.items[k].failedAt, page.items[k].payloadDigest) ==
             (row.failureCode, row.failedAt, row.payloadDigest)
        && (page.items[k].reprocessable <==> row.failureCode == Some("AGENT_CLEANUP_RETRY_EXHAUSTED"))
    {
      hide DeadFrom;
      var t := database.tables;
      var cursor := if afterOutboxId.Some? then afterOutboxId.value else 0;
      var rows := Take(DeadFrom(t, cursor + 1), limit + 1);
      var visible := Take(rows, limit);
      forall id | id in visible ensures id in t.rows {
        assert id in DeadFrom(t, cursor + 1);
      }
      var items := RecordsOf(visible);
      page := Page(items, if |rows| > limit && items != [] then Some(items[|items| - 1].outboxId) else None);
      assert page.items == PageAfter(t, limit, cursor).items;
    }

    method Reprocess(id: nat, request: Request, now: int, eventId: string) returns (outcome: Outcome)
      modifies database
      ensures (database.tables, outcome) == Reprocessed(old(database.tables), id, request, now, eventId)
      ensures New(old(database.tables), request) ==>
        AnsweredNew(old(database.tables), database.tables, outcome, id, request, now, eventId)
      ensures forall k | FirstUnder(old(database.tables), request, k) ::
        AnsweredAgain(old(database.tables), database.tables, outcome, id, request, k)
    {
      hide New, FirstUnder, AnsweredNew, AnsweredAgain;
      ReprocessAnswers(database.tables, id, request, now, eventId);
      var t := database.tables;
      var replay := FindEvent(t.events, request.requestId);
      if replay.Some? {
        if !Repeats(replay.value, id, request) {
          return Err(DEAD_LETTER_REQUEST_ID_REUSED);
        }
        return Ok(ResultOf(replay.value));
      }
      if id !in t.rows {
        return Err(DEAD_LETTER_NOT_FOUND);
      }
      var row := t.rows[id];
      if row.failureCode != Some(request.expectedFailureCode) {
        return Err(DEAD_LETTER_FAILURE_CODE_CHANGED);
      }
      if row.status != DEAD_LETTER {
        return Err(DEAD_LETTER_STATE_CHANGED);
      }
      if row.failureCode.value !in REPROCESSABLE_FAILURE_CODES {
        return Err(DEAD_LETTER_NOT_REPROCESSABLE);
      }
      var event := EventFor(id, row, request, now, eventId);
      database.tables := t.(events := t.events + [event]);
      database.tables := database.tables.(rows := t.rows[id := RequeuedRow(row, now)]);
      return Ok(ResultOf(event));
    }
  }

  // ---- Walking through the pages while the table changes ----

  function PageIds(page: Page): seq<nat> {
    seq(|page.items|, i requires 0 <= i < |page.items| => page.items[i].outboxId)
  }

  /** The ids listed by following the cursors, the table being `tables[k]` when page `k` is read. */
  function Walk(tables: seq<Tables>, limit: nat, after: nat): seq<nat>
    decreases |tables|
  {
    if tables == [] then []
    else
      var page := PageAfter(tables[0], limit, after);
      if page.nextCursor.None? then PageIds(page)
      else PageIds(page) + Walk(tables[1..], limit, page.nextCursor.value)
  }

  /** The walk comes to a page without a cursor. */
  predicate Finishes(tables: seq<Tables>, limit: nat, after: nat)
    decreases |tables|
  {
    tables != [] &&
    var page := PageAfter(tables[0], limit, after);
    page.nextCursor.Some? ==> Finishes(tables[1..], limit, page.nextCursor.value)
  }

  predicate AscendingAbove(ids: seq<nat>, after: nat) {
    && (forall i | 0 <= i < |ids| :: after < ids[i])
    && (forall i, j | 0 <= i < j < |ids| :: ids[i] < ids[j])
  }

  /** A page shows the first `limit` rows, and has a cursor when there are more. */
  lemma PageShows(t: Tables, limit: nat, after: nat)
    requires limit > 0
    ensures var (all, ids) := (DeadFrom(t, after + 1), PageIds(PageAfter(t, limit, after)));
      && ids == Take(all, limit)
      && PageAfter(t, limit, after).nextCursor == (if |all| > limit then Some(ids[|ids| - 1]) else None)
  {
    hide DeadFrom, RecordOf;
    var all := DeadFrom(t, after + 1);
    assert Take(Take(all, limit + 1), limit) == Take(all, limit);
    assert PageIds(PageAfter(t, limit, after)) == Take(all, limit) by {
      RecordIds(t, limit, after);
    }
  }

  lemma RecordIds(t: Tables, limit: nat, after: nat)
    ensures PageIds(PageAfter(t, limit, after)) == Take(Take(DeadFrom(t, after + 1), limit + 1), limit)
  {
    hide DeadFrom;
  }

  /** What one page lists: the dead-lettered rows after the cursor, up to the next cursor or to the end. */
  lemma PageLists(t: Tables, limit: nat, after: nat)
    requires limit > 0
    ensures var (ids, next) := (PageIds(PageAfter(t, limit, after)), PageAfter(t, limit, after).nextCursor);
      && |ids| <= limit && AscendingAbove(ids, after)
      && (forall id | id in ids :: IsDead(t, id) && (next.Some? ==> id <= next.value))
      && (forall id | after < id <= t.lastId && IsDead(t, id) && (next.Some? ==> id <= next.value) :: id in ids)
      && (next.Some? ==> next.value in DeadFrom(t, after + 1))
  {
    hide PageAfter, IsDead, PageIds, DeadFrom;
    PageShows(t, limit, after);
    var all := DeadFrom(t, after + 1);
    TakenFirst(all, limit);
    hide Take;
    var (ids, next) := (Take(all, limit), PageAfter(t, limit, after).nextCursor);
    forall id | id in ids ensures id in all {
      var i :| 0 <= i < |ids| && ids[i] == id;
    }
    assert next.Some? ==> |ids| == limit && next.value == all[limit - 1] by { TakenAll(all, limit); }
  }

  lemma TakenAll(all: seq<nat>, n: nat)
    ensures |all| > n ==> |Take(all, n)| == n
  {
  }

  /** The first `n` of an ascending list are those up to the last of them. */
  lemma TakenFirst(all: seq<nat>, n: nat)
    requires n > 0 && forall i, j | 0 <= i < j < |all| :: all[i] < all[j]
    ensures |Take(all, n)| <= n
    ensures forall i | 0 <= i < |Take(all, n)| :: Take(all, n)[i] == all[i] && all[i] in all
    ensures forall id | id in all :: id in Take(all, n) <==> (|all| > n ==> id <= all[n - 1])
  {
    var ids := Take(all, n);
    forall id | id in all ensures id in ids <==> (|all| > n ==> id <= all[n - 1]) {
      var i :| 0 <= i < |all| && all[i] == id;
      if i < |ids| {
        assert ids[i] == id;
      }
    }
  }

  /** No id is listed twice, whatever happens to the table between the pages. */
  lemma {:induction false} WalkAscends(tables: seq<Tables>, limit: nat, after: nat)
    requires limit > 0
    ensures AscendingAbove(Walk(tables, limit, after), after)
    decreases |tables|
  {
    hide PageAfter;
    if tables != [] {
      PageLists(tables[0], limit, after);
      var page := PageAfter(tables[0], limit, after);
      if page.nextCursor.Some? {
        var next := page.nextCursor.value;
        WalkAscends(tables[1..], limit, next);
        AscendingJoined(PageIds(page), Walk(tables[1..], limit, next), after, next);
      }
    }
  }

  lemma AscendingJoined(ids: seq<nat>, rest: seq<nat>, after: nat, next: nat)
    requires AscendingAbove(ids, after) && AscendingAbove(rest, next) && after < next
    requires forall id | id in ids :: id <= next
    ensures AscendingAbove(ids + rest, after)
  {
    forall i | 0 <= i < |ids| ensures ids[i] <= next {
      assert ids[i] in ids;
    }
  }

  /** A row that is dead-lettered at every page of a finished walk is listed. */
  lemma {:induction false} WalkListsAll(tables: seq<Tables>, limit: nat, after: nat, id: nat)
    requires limit > 0 && after < id && Finishes(tables, limit, after)
    requires forall t | t in tables :: id <= t.lastId && IsDead(t, id)
    ensures id in Walk(tables, limit, after)
    decreases |tables|
  {
    hide PageAfter;
    assert tables[0] in tables;
    PageLists(tables[0], limit, after);
    var page := PageAfter(tables[0], limit, after);
    if page.nextCursor.Some? && id > page.nextCursor.value {
      forall t | t in tables[1..] ensures t in tables {
      }
      WalkListsAll(tables[1..], limit, page.nextCursor.value, id);
    }
  }

  /** Nothing is listed that was not dead-lettered when its page was read. */
  lemma {:induction false} WalkListsOnlyDead(tables: seq<Tables>, limit: nat, after: nat, id: nat) returns (k: nat)
    requires limit > 0 && id in Walk(tables, limit, after)
    ensures k < |tables| && IsDead(tables[k], id)
    decreases |tables|
  {
    hide PageAfter;
    PageLists(tables[0], limit, after);
    var page := PageAfter(tables[0], limit, after);
    if id in PageIds(page) {
      k := 0;
    } else {
      k := WalkListsOnlyDead(tables[1..], limit, page.nextCursor.value, id);
      k := k + 1;
    }
  }

  /** A walk over a table that stays as it is comes to its end. */
  lemma {:induction false} WalkEnds(t: Tables, n: nat, limit: nat, after: nat)
    requires limit > 0 && n > |DeadFrom(t, after + 1)|
    ensures Finishes(seq(n, _ => t), limit, after)
    decreases n
  {
    hide PageAfter, DeadFrom;
    var page := PageAfter(t, limit, after);
    assert seq(n, _ => t)[1..] == seq(n - 1, _ => t);
    if page.nextCursor.Some? {
      PageLists(t, limit, after);
      FewerLeft(t, after + 1, page.nextCursor.value);
      WalkEnds(t, n - 1, limit, page.nextCursor.value);
    }
  }

  lemma {:induction false} FewerLeft(t: Tables, from: nat, id: nat)
    requires id in DeadFrom(t, from)
    ensures |DeadFrom(t, id + 1)| < |DeadFrom(t, from)|
    decreases t.lastId + 1 - from
  {
    if from < id {
      FewerLeft(t, from + 1, id);
    }
  }
}
