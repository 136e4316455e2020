/** The outbox protocol: any number of cleanup workers and workflow dispatchers, crashing and slow,
    with an operator reprocessing dead letters and verification runs removing their own workflow rows, over
    one table. Each transaction is one step; every
    step reads a clock of its own, so clocks may disagree and go back.
  */
module CleanupProtocol {
  import opened Json
  import opened Outbox
  import opened DeadLetters
  import opened AgentCleanup

  // ---- Workers, and the history of each row ----

  datatype Role = Cleaner | Dispatcher

  /** A worker that has claimed a row, and one that knows what to write down about it. */
  datatype Work = Idle | Holding(role: Role, message: Message) | Decided(message: Message, decision: Decision)

  /** What has happened to one row, oldest first. */
  datatype Entry =
    | Granted(token: string, at: int)
    | Tried(token: string, payload: Fields, outcome: DeleteOutcome)
    | Written(token: string, decision: Decision)
    | Reset

  type History = seq<Entry>

  datatype System = System(
    tables: Tables, workers: map<nat, Work>, histories: map<nat, History>, issued: set<string>)

  const INITIAL := System(Tables(map[], [], 0), map[], map[], {})

  function WorkOf(s: System, worker: nat): Work {
    if worker in s.workers then s.workers[worker] else Idle
  }

  function Noted(s: System, id: nat, entry: Entry): map<nat, History>
    requires id in s.histories
  {
    s.histories[id := s.histories[id] + [entry]]
  }

  // ---- Steps ----

  datatype Action =
    | Enqueue(topic: string, aggregateId: string, payload: Fields, payloadDigest: string, now: int)
    | Claim(worker: nat, role: Role, id: nat, token: string, publisherId: string, now: int)
    | Delete(worker: nat, outcome: DeleteOutcome)
    | Deliver(worker: nat, messageId: Option<string>)
    | Settle(worker: nat, now: int)
    | Crash(worker: nat)
    | Reprocess(id: nat, request: Request, eventId: string, now: int)
    | Remove(ids: set<nat>)

  predicate MayClaim(role: Role, row: Row, now: int) {
    match role
    case Cleaner => Claimable(row, now, Some(CLEANUP_TOPIC))
    case Dispatcher => Claimable(row, now, Some(STAGE_TOPIC)) && (row.status == PENDING ==> row.availableAt <= now)
  }

  predicate Enabled(s: System, a: Action) {
    match a
    case Enqueue(_, _, _, _, _) => true
    case Claim(worker, role, id, token, _, now) =>
      && WorkOf(s, worker).Idle? && id in s.tables.rows && id in s.histories
      && MayClaim(role, s.tables.rows[id], now) && token !in s.issued
    case Delete(worker, _) =>
      WorkOf(s, worker).Holding? && WorkOf(s, worker).role.Cleaner? && WorkOf(s, worker).message.outboxId in s.histories
    case Deliver(worker, _) => WorkOf(s, worker).Holding? && WorkOf(s, worker).role.Dispatcher?
    case Settle(worker, _) =>
      && WorkOf(s, worker).Decided?
      && (WorkOf(s, worker).message.outboxId in s.tables.rows ==> WorkOf(s, worker).message.outboxId in s.histories)
    case Crash(_) => true
    case Reprocess(id, _, _, _) => id in s.tables.rows ==> id in s.histories
    case Remove(ids) => forall id | id in ids && id in s.tables.rows :: MayRemove(s.tables, id)
  }

  /** The verification runs remove the rows of their workflows and documents, which are no cleanup rows; the audit
      table refers to its rows and keeps them. */
  predicate MayRemove(t: Tables, id: nat)
    requires id in t.rows
  {
    t.rows[id].topic != CLEANUP_TOPIC && forall e | e in t.events :: e.outboxId != id
  }

  function Next(s: System, a: Action): System
    requires Enabled(s, a)
  {
    match a
    case Enqueue(topic, aggregateId, payload, payloadDigest, now) =>
      var t := Enqueued(s.tables, topic, aggregateId, payload, payloadDigest, now);
      if t == s.tables then s else s.(tables := t, histories := s.histories[t.lastId := []])
    case Claim(worker, role, id, token, publisherId, now) =>
      s.(tables := Claimed(s.tables, id, token, publisherId, now),
         workers := s.workers[worker := Holding(role, MessageOf(id, s.tables.rows[id], token))],
         histories := Noted(s, id, Granted(token, now)),
         issued := s.issued + {token})
    case Delete(worker, outcome) =>
      var message := WorkOf(s, worker).message;
      s.(workers := s.workers[worker := Decided(message, Decide(message, outcome))],
         histories :=
           if ValidPayload(message) then
             Noted(s, message.outboxId, Tried(message.claimToken, message.payload, outcome))
           else s.histories)
    case Deliver(worker, messageId) =>
      var decision := if messageId.Some? then Publish(messageId.value) else Retry(5);
      s.(workers := s.workers[worker := Decided(WorkOf(s, worker).message, decision)])
    case Settle(worker, now) =>
      var (message, decision) := (WorkOf(s, worker).message, WorkOf(s, worker).decision);
      var (t, changed) := Settled(s.tables, message.outboxId, message.claimToken, decision, now);
      s.(tables := t,
         workers := s.workers[worker := Idle],
         histories :=
           if changed then Noted(s, message.outboxId, Written(message.claimToken, decision)) else s.histories)
    case Crash(worker) => s.(workers := s.workers[worker := Idle])
    case Reprocess(id, request, eventId, now) =>
      var t := Reprocessed(s.tables, id, request, now, eventId).0;
      s.(tables := t, histories := if t == s.tables then s.histories else Noted(s, id, Reset))
    case Remove(ids) =>
      s.(tables := s.tables.(rows := s.tables.rows - ids), histories := s.histories - ids)
  }

  // ---- What a history says ----

  /** The claim that is open at the end of the history. */
  function Open(h: History): Option<Entry>
    ensures Open(h).Some? ==> Open(h).value.Granted?
  {
    if h == [] then None
    else
      match h[|h| - 1]
      case Granted(token, at) => Some(Granted(token, at))
      case Tried(_, _, _) => Open(h[..|h| - 1])
      case Written(_, _) => None
      case Reset => None
  }

  function Grants(h: History): nat {
    if h == [] then 0 else Grants(h[..|h| - 1]) + if h[|h| - 1].Granted? then 1 else 0
  }

  function DeadLetterings(h: History): nat {
    if h == [] then 0
    else DeadLetterings(h[..|h| - 1]) + if h[|h| - 1].Written? && h[|h| - 1].decision.GiveUp? then 1 else 0
  }

  /** The retries since the row was inserted or last reprocessed. */
  function Retries(h: History): nat {
    if h == [] || h[|h| - 1].Reset? then 0
    else Retries(h[..|h| - 1]) + if h[|h| - 1].Written? && h[|h| - 1].decision.Retry? then 1 else 0
  }

  /** Every outcome was written under the claim that was open at the time. */
  predicate Fenced(h: History) {
    forall i | 0 <= i < |h| && h[i].Written? :: Open(h[..i]).Some? && Open(h[..i]).value.token == h[i].token
  }

  /** The row was published under a claim whose holder had seen a delete of this payload return. */
  predicate DeletedBefore(h: History, payload: Fields) {
    exists i, j | 0 <= i < j < |h| ::
      && h[j].Written? && h[j].decision.Publish?
      && h[i] == Tried(h[j].token, payload, Returned)
  }

  function Audits(events: seq<ReprocessEvent>, id: nat): nat {
    if events == [] then 0
    else Audits(events[..|events| - 1], id) + if events[|events| - 1].outboxId == id then 1 else 0
  }

  function PreviousAttempts(events: seq<ReprocessEvent>, id: nat): nat {
    if events == [] then 0
    else
      PreviousAttempts(events[..|events| - 1], id)
      + if events[|events| - 1].outboxId == id then events[|events| - 1].previousAttempts else 0
  }

  // ---- The invariant ----

  /** The claim of the row is the open claim of its history, and expires 45 seconds after it was granted. */
  predicate ClaimIsOpen(row: Row, h: History) {
    && (row.status == PUBLISHING <==> Open(h).Some?)
    && row.claim == (match Open(h) case Some(g) => Some(Sha256(g.token)) case None => None)
    && row.claimExpiresAt == (match Open(h) case Some(g) => Some(g.at + OUTBOX_CLAIM_SECONDS) case None => None)
  }

  predicate Conserved(row: Row, h: History, events: seq<ReprocessEvent>, id: nat) {
    && Grants(h) == row.attempts + PreviousAttempts(events, id)
    && DeadLetterings(h) == Audits(events, id) + if row.status == DEAD_LETTER then 1 else 0
  }

  predicate RetriesBounded(row: Row, h: History) {
    Retries(h) <= 4 && Retries(h) <= row.attempts - if row.status == PUBLISHING then 1 else 0
  }

  predicate TokensIssued(h: History, issued: set<string>) {
    forall i | 0 <= i < |h| && h[i].Granted? :: h[i].token in issued
  }

  /** No token is granted twice. */
  predicate GrantedOnce(h: History) {
    forall i, j | 0 <= i < j < |h| && h[i].Granted? && h[j].Granted? :: h[i].token != h[j].token
  }

  /** Retries are given up for good only after the last attempt. */
  predicate ExhaustedAfterAll(row: Row) {
    row.status == DEAD_LETTER && row.failureCode == Some("AGENT_CLEANUP_RETRY_EXHAUSTED") ==>
      row.attempts >= MAX_CLEANUP_ATTEMPTS
  }

  predicate RowKept(row: Row, h: History, events: seq<ReprocessEvent>, id: nat, issued: set<string>) {
    && ClaimIsOpen(row, h)
    && Conserved(row, h, events, id)
    && Fenced(h)
    && TokensIssued(h, issued) && GrantedOnce(h)
    && ExhaustedAfterAll(row)
    && (row.status == DEAD_LETTER ==> row.failureCode.Some?)
    && (row.topic == CLEANUP_TOPIC ==> RetriesBounded(row, h))
    && (row.topic == CLEANUP_TOPIC && row.status == PUBLISHED ==> DeletedBefore(h, row.payload))
  }

  /** A worker knows its row as it was when it claimed it; while the claim is open, as it is. */
  predicate MessageKept(s: System, m: Message) {
    && m.outboxId <= s.tables.lastId && m.claimToken in s.issued
    && (m.topic == CLEANUP_TOPIC ==> m.outboxId in s.tables.rows)
    && (m.outboxId in s.tables.rows ==>
          && m.outboxId in s.histories
          && var row := s.tables.rows[m.outboxId];
          && m.topic == row.topic && m.payload == row.payload
          && (row.claim == Some(Sha256(m.claimToken)) ==> m.attempts == row.attempts))
  }

  predicate WorkKept(s: System, work: Work) {
    match work
    case Idle => true
    case Holding(role, m) => MessageKept(s, m) && (m.topic == CLEANUP_TOPIC <==> role == Cleaner)
    case Decided(m, decision) =>
      && MessageKept(s, m)
      && (decision == GiveUp("AGENT_CLEANUP_RETRY_EXHAUSTED") ==> m.attempts >= MAX_CLEANUP_ATTEMPTS)
      && (m.topic == CLEANUP_TOPIC ==>
            && (decision.Publish? ==> Tried(m.claimToken, m.payload, Returned) in s.histories[m.outboxId])
            && (decision.Retry? ==> m.attempts < MAX_CLEANUP_ATTEMPTS))
  }

  predicate EventsKept(t: Tables) {
    RequestsDistinct(t.events) && forall e | e in t.events :: e.outboxId in t.rows
  }

  predicate Kept(s: System) {
    && s.histories.Keys == s.tables.rows.Keys
    && IdsKept(s.tables) && EventsKept(s.tables)
    && (forall id | id in s.tables.rows :: RowKept(s.tables.rows[id], s.histories[id], s.tables.events, id, s.issued))
    && (forall worker | worker in s.workers :: WorkKept(s, s.workers[worker]))
  }

  // ---- One row, one entry more ----

  lemma OneMore(h: History, e: Entry)
    requires Fenced(h) && (e.Written? ==> Open(h).Some? && Open(h).value.token == e.token)
    ensures Fenced(h + [e])
    ensures (h + [e])[..|h|] == h
    ensures forall payload | DeletedBefore(h, payload) :: DeletedBefore(h + [e], payload)
  {
    var g := h + [e];
    assert g[..|h|] == h;
    forall i | 0 <= i < |g| && g[i].Written? ensures Open(g[..i]).Some? && Open(g[..i]).value.token == g[i].token {
      assert g[..i] == h[..i];
    }
    forall payload | DeletedBefore(h, payload) ensures DeletedBefore(g, payload) {
      var i, j :| 0 <= i < j < |h| && h[j].Written? && h[j].decision.Publish? && h[i] == Tried(h[j].token, payload, Returned);
      assert g[j] == h[j] && g[i] == h[i];
    }
  }

  /** The parts of the invariant of a row that are about its history alone. */
  predicate NotesKept(row: Row, h: History, issued: set<string>) {
    && Fenced(h) && TokensIssued(h, issued) && GrantedOnce(h)
    && (row.topic == CLEANUP_TOPIC && row.status == PUBLISHED ==> DeletedBefore(h, row.payload))
  }

  /** And those about its status and its attempts. */
  predicate StatusKept(row: Row, h: History) {
    && ExhaustedAfterAll(row)
    && (row.status == DEAD_LETTER ==> row.failureCode.Some?)
    && (row.topic == CLEANUP_TOPIC ==> RetriesBounded(row, h))
  }

  lemma RowParts(row: Row, h: History, events: seq<ReprocessEvent>, id: nat, issued: set<string>)
    ensures RowKept(row, h, events, id, issued) <==>
      ClaimIsOpen(row, h) && Conserved(row, h, events, id) && NotesKept(row, h, issued) && StatusKept(row, h)
  {
    hide ClaimIsOpen, Conserved, Fenced, TokensIssued, GrantedOnce, ExhaustedAfterAll, RetriesBounded, DeletedBefore;
  }

  /** What one entry more changes in the counts. */
  lemma OneCounted(h: History, e: Entry)
    ensures Open(h + [e]) == match e
      case Granted(_, _) => Some(e)
      case Tried(_, _, _) => Open(h)
      case _ => None
    ensures Grants(h + [e]) == Grants(h) + if e.Granted? then 1 else 0
    ensures DeadLetterings(h + [e]) == DeadLetterings(h) + if e.Written? && e.decision.GiveUp? then 1 else 0
    ensures Retries(h + [e]) == if e.Reset? then 0 else Retries(h) + if e.Written? && e.decision.Retry? then 1 else 0
  {
    assert (h + [e])[..|h|] == h;
  }

  lemma RowClaimed(
    row: Row, h: History, events: seq<ReprocessEvent>, id: nat, issued: set<string>,
    token: string, publisherId: string, now: int)
    requires RowKept(row, h, events, id, issued) && (row.status == PENDING || row.status == PUBLISHING)
    requires token !in issued
    ensures RowKept(ClaimedRow(row, token, publisherId, now), h + [Granted(token, now)], events, id, issued + {token})
  {
    hide RowKept, NotesKept, Open, Grants, DeadLetterings, Retries;
    var claimed := ClaimedRow(row, token, publisherId, now);
    RowParts(row, h, events, id, issued);
    RowParts(claimed, h + [Granted(token, now)], events, id, issued + {token});
    OneCounted(h, Granted(token, now));
    ClaimNoted(row, h, issued, token, now, claimed);
  }

  lemma ClaimNoted(row: Row, h: History, issued: set<string>, token: string, now: int, claimed: Row)
    requires NotesKept(row, h, issued) && token !in issued
    requires claimed.topic == row.topic && claimed.status == PUBLISHING
    ensures NotesKept(claimed, h + [Granted(token, now)], issued + {token})
  {
    OneMore(h, Granted(token, now));
  }

  lemma RowTried(
    row: Row, h: History, events: seq<ReprocessEvent>, id: nat, issued: set<string>,
    token: string, payload: Fields, outcome: DeleteOutcome)
    requires RowKept(row, h, events, id, issued)
    ensures RowKept(row, h + [Tried(token, payload, outcome)], events, id, issued)
  {
    hide RowKept, NotesKept, Open, Grants, DeadLetterings, Retries;
    var e := Tried(token, payload, outcome);
    RowParts(row, h, events, id, issued);
    RowParts(row, h + [e], events, id, issued);
    OneCounted(h, e);
    SameNoted(row, h, e, issued, row);
  }

  /** An entry that grants nothing. */
  lemma SameNoted(row: Row, h: History, e: Entry, issued: set<string>, row': Row)
    requires NotesKept(row, h, issued) && !e.Granted?
    requires e.Written? ==> Open(h).Some? && Open(h).value.token == e.token
    requires row'.topic == row.topic && row'.payload == row.payload
    requires row'.topic == CLEANUP_TOPIC && row'.status == PUBLISHED ==>
      row.status == PUBLISHED || DeletedBefore(h + [e], row.payload)
    ensures NotesKept(row', h + [e], issued)
  {
    hide DeletedBefore, Open;
    OneMore(h, e);
  }

  lemma RowWritten(
    row: Row, h: History, events: seq<ReprocessEvent>, id: nat, issued: set<string>,
    token: string, decision: Decision, now: int)
    requires RowKept(row, h, events, id, issued) && row.status == PUBLISHING && row.claim == Some(Sha256(token))
    requires row.topic == CLEANUP_TOPIC && decision.Publish? ==> Tried(token, row.payload, Returned) in h
    requires row.topic == CLEANUP_TOPIC && decision.Retry? ==> row.attempts < MAX_CLEANUP_ATTEMPTS
    requires decision == GiveUp("AGENT_CLEANUP_RETRY_EXHAUSTED") ==> row.attempts >= MAX_CLEANUP_ATTEMPTS
    ensures RowKept(SettledRow(row, decision, now), h + [Written(token, decision)], events, id, issued)
  {
    hide RowKept, NotesKept, Open, Grants, DeadLetterings, Retries, DeletedBefore;
    var (e, settled) := (Written(token, decision), SettledRow(row, decision, now));
    RowParts(row, h, events, id, issued);
    RowParts(settled, h + [e], events, id, issued);
    OneCounted(h, e);
    if row.topic == CLEANUP_TOPIC && decision.Publish? {
      PublishedAfter(h, token, decision, row.payload);
    }
    SameNoted(row, h, e, issued, settled);
  }

  lemma PublishedAfter(h: History, token: string, decision: Decision, payload: Fields)
    requires Tried(token, payload, Returned) in h && decision.Publish?
    ensures DeletedBefore(h + [Written(token, decision)], payload)
  {
    var g := h + [Written(token, decision)];
    var i :| 0 <= i < |h| && h[i] == Tried(token, payload, Returned);
    assert g[i] == Tried(g[|h|].token, payload, Returned);
  }

  lemma RowReset(
    row: Row, h: History, events: seq<ReprocessEvent>, id: nat, issued: set<string>, e: ReprocessEvent, now: int)
    requires RowKept(row, h, events, id, issued) && row.status == DEAD_LETTER
    requires e.outboxId == id && e.previousAttempts == row.attempts
    ensures RowKept(RequeuedRow(row, now), h + [Reset], events + [e], id, issued)
  {
    hide RowKept, NotesKept, Open, Grants, DeadLetterings, Retries, DeletedBefore;
    RowParts(row, h, events, id, issued);
    RowParts(RequeuedRow(row, now), h + [Reset], events + [e], id, issued);
    OneCounted(h, Reset);
    SameNoted(row, h, Reset, issued, RequeuedRow(row, now));
    assert (events + [e])[..|events|] == events;
  }

  /** What happens to other rows does not matter. */
  lemma RowUntouched(
    row: Row, h: History, events: seq<ReprocessEvent>, id: nat, issued: set<string>,
    more: seq<ReprocessEvent>, issued': set<string>)
    requires RowKept(row, h, events, id, issued) && issued <= issued'
    requires more == [] || (|more| == 1 && more[0].outboxId != id)
    ensures RowKept(row, h, events + more, id, issued')
  {
    if more == [] {
      assert events + more == events;
    } else {
      assert (events + more)[..|events|] == events;
    }
  }

  lemma {:induction false} NoAudits(events: seq<ReprocessEvent>, id: nat)
    requires forall e | e in events :: e.outboxId != id
    ensures Audits(events, id) == 0 && PreviousAttempts(events, id) == 0
  {
    if events != [] {
      NoAudits(events[..|events| - 1], id);
    }
  }

  // ---- Every step keeps the invariant ----

  /** The workers' knowledge survives a step that keeps the rows' topics and payloads, and the attempts
      under every claim that was already issued. */
  lemma WorkSurvives(s: System, s': System, work: Work)
    requires WorkKept(s, work) && s.issued <= s'.issued && s.tables.lastId <= s'.tables.lastId
    requires forall id | id in s.tables.rows && s.tables.rows[id].topic == CLEANUP_TOPIC :: id in s'.tables.rows
    requires forall id | id in s'.tables.rows :: id in s'.histories && (id in s.tables.rows || id > s.tables.lastId)
    requires forall id | id in s.histories && id in s'.histories :: s.histories[id] <= s'.histories[id]
    requires forall id | id in s.tables.rows && id in s'.tables.rows ::
      var (row, row') := (s.tables.rows[id], s'.tables.rows[id]);
      && row'.topic == row.topic && row'.payload == row.payload
      && ((row'.claim == row.claim && row'.attempts == row.attempts)
          || row'.claim.None? || row'.claim.value.token !in s.issued)
    ensures WorkKept(s', work)
  {
  }

  lemma RowInserted(row: Row, events: seq<ReprocessEvent>, id: nat, issued: set<string>)
    requires row.status == PENDING && row.attempts == 0 && row.claim.None? && row.claimExpiresAt.None?
    requires forall e | e in events :: e.outboxId != id
    ensures RowKept(row, [], events, id, issued)
  {
    NoAudits(events, id);
  }

  lemma EnqueueKeeps(s: System, a: Action)
    requires Kept(s) && a.Enqueue?
    ensures Kept(Next(s, a))
  {
    hide RowKept;
    var s' := Next(s, a);
    if s' != s {
      var inserted := s'.tables.lastId;
      RowInserted(s'.tables.rows[inserted], s.tables.events, inserted, s.issued);
      forall id | id in s'.tables.rows
        ensures RowKept(s'.tables.rows[id], s'.histories[id], s'.tables.events, id, s'.issued)
      {
        assert id != inserted ==> id in s.tables.rows;
      }
      forall worker | worker in s'.workers ensures WorkKept(s', s'.workers[worker]) {
        WorkSurvives(s, s', s.workers[worker]);
      }
    }
  }

  lemma ClaimKeeps(s: System, a: Action)
    requires Kept(s) && a.Claim? && Enabled(s, a)
    ensures Kept(Next(s, a))
  {
    hide RowKept;
    var s' := Next(s, a);
    forall id | id in s'.tables.rows
      ensures RowKept(s'.tables.rows[id], s'.histories[id], s'.tables.events, id, s'.issued)
    {
      var (row, h) := (s.tables.rows[id], s.histories[id]);
      if id == a.id {
        RowClaimed(row, h, s.tables.events, id, s.issued, a.token, a.publisherId, a.now);
      } else {
        RowUntouched(row, h, s.tables.events, id, s.issued, [], s'.issued);
        assert s.tables.events + [] == s.tables.events;
      }
    }
    forall worker | worker in s'.workers ensures WorkKept(s', s'.workers[worker]) {
      if worker != a.worker {
        WorkSurvives(s, s', s.workers[worker]);
      }
    }
  }

  lemma DeleteKeeps(s: System, a: Action)
    requires Kept(s) && a.Delete? && Enabled(s, a)
    ensures Kept(Next(s, a))
  {
    hide RowKept, WorkKept, Decide, ValidPayload;
    var s' := Next(s, a);
    var m := WorkOf(s, a.worker).message;
    assert WorkKept(s, s.workers[a.worker]);
    forall id | id in s'.tables.rows
      ensures RowKept(s'.tables.rows[id], s'.histories[id], s'.tables.events, id, s'.issued)
    {
      if id == m.outboxId && s'.histories != s.histories {
        RowTried(
          s.tables.rows[id], s.histories[id], s.tables.events, id, s.issued, m.claimToken, m.payload, a.outcome);
      }
    }
    forall worker | worker in s'.workers ensures WorkKept(s', s'.workers[worker]) {
      WorkSurvives(s, s', s.workers[worker]);
      if worker == a.worker {
        DecidedKept(s', m, a.outcome);
      }
    }
  }

  /** What the worker decides after its delete, the history saying that it was tried. */
  lemma DecidedKept(s: System, m: Message, outcome: DeleteOutcome)
    requires WorkKept(s, Holding(Cleaner, m))
    requires m.outboxId in s.histories
    requires ValidPayload(m) ==> Tried(m.claimToken, m.payload, outcome) in s.histories[m.outboxId]
    ensures WorkKept(s, Decided(m, Decide(m, outcome)))
  {
    hide ValidPayload, PowerOfTwo, MessageKept;
  }

  lemma SettleKeeps(s: System, a: Action)
    requires Kept(s) && a.Settle? && Enabled(s, a)
    ensures Kept(Next(s, a))
  {
    hide RowKept;
    var s' := Next(s, a);
    var (m, decision) := (WorkOf(s, a.worker).message, WorkOf(s, a.worker).decision);
    assert WorkKept(s, s.workers[a.worker]);
    SettlesOwn(s, m, decision);
    hide WorkKept, MessageKept;
    forall id | id in s'.tables.rows
      ensures RowKept(s'.tables.rows[id], s'.histories[id], s'.tables.events, id, s'.issued)
    {
      if id == m.outboxId && HoldsClaim(s.tables, id, m.claimToken) {
        RowWritten(
          s.tables.rows[id], s.histories[id], s.tables.events, id, s.issued, m.claimToken, decision, a.now);
      }
    }
    forall worker | worker in s'.workers ensures WorkKept(s', s'.workers[worker]) {
      if worker != a.worker {
        WorkSurvives(s, s', s.workers[worker]);
      }
    }
  }

  /** What a worker that still holds its claim knows of the row. */
  lemma SettlesOwn(s: System, m: Message, decision: Decision)
    requires WorkKept(s, Decided(m, decision))
    ensures HoldsClaim(s.tables, m.outboxId, m.claimToken) ==>
      var row := s.tables.rows[m.outboxId];
      && m.outboxId in s.histories
      && (row.topic == CLEANUP_TOPIC && decision.Publish? ==>
            Tried(m.claimToken, row.payload, Returned) in s.histories[m.outboxId])
      && (row.topic == CLEANUP_TOPIC && decision.Retry? ==> row.attempts < MAX_CLEANUP_ATTEMPTS)
      && (decision == GiveUp("AGENT_CLEANUP_RETRY_EXHAUSTED") ==> row.attempts >= MAX_CLEANUP_ATTEMPTS)
  {
  }

  lemma ReprocessKeeps(s: System, a: Action)
    requires Kept(s) && a.Reprocess? && Enabled(s, a)
    ensures Kept(Next(s, a))
  {
    hide RowKept;
    var s' := Next(s, a);
    ReprocessKeepsRequestsDistinct(s.tables, a.id, a.request, a.now, a.eventId);
    if s'.tables != s.tables {
      var e := EventFor(a.id, s.tables.rows[a.id], a.request, a.now, a.eventId);
      forall id | id in s'.tables.rows
        ensures RowKept(s'.tables.rows[id], s'.histories[id], s'.tables.events, id, s'.issued)
      {
        var (row, h) := (s.tables.rows[id], s.histories[id]);
        if id == a.id {
          RowReset(row, h, s.tables.events, id, s.issued, e, a.now);
        } else {
          RowUntouched(row, h, s.tables.events, id, s.issued, [e], s.issued);
        }
      }
      forall worker | worker in s'.workers ensures WorkKept(s', s'.workers[worker]) {
        WorkSurvives(s, s', s.workers[worker]);
      }
    }
  }

  lemma StepKeeps(s: System, a: Action)
    requires Kept(s) && Enabled(s, a)
    ensures Kept(Next(s, a))
  {
    hide RowKept;
    match a
    case Enqueue(_, _, _, _, _) => EnqueueKeeps(s, a);
    case Claim(_, _, _, _, _, _) => ClaimKeeps(s, a);
    case Delete(_, _) => DeleteKeeps(s, a);
    case Deliver(worker, _) => WorkersStepKeeps(s, a, worker);
    case Settle(_, _) => SettleKeeps(s, a);
    case Crash(worker) => WorkersStepKeeps(s, a, worker);
    case Reprocess(_, _, _, _) => ReprocessKeeps(s, a);
    case Remove(_) => RemoveKeeps(s, a);
  }

  lemma RemoveKeeps(s: System, a: Action)
    requires Kept(s) && a.Remove? && Enabled(s, a)
    ensures Kept(Next(s, a))
  {
    hide RowKept;
    var s' := Next(s, a);
    forall worker | worker in s'.workers ensures WorkKept(s', s'.workers[worker]) {
      WorkSurvives(s, s', s.workers[worker]);
    }
  }

  lemma WorkersStepKeeps(s: System, a: Action, worker: nat)
    requires Kept(s) && Enabled(s, a) && (a == Crash(worker) || (a.Deliver? && a.worker == worker))
    ensures Kept(Next(s, a))
  {
    hide RowKept;
    var s' := Next(s, a);
    forall w | w in s'.workers ensures WorkKept(s', s'.workers[w]) {
      if w != worker {
        WorkSurvives(s, s', s.workers[w]);
      }
    }
  }

  // ---- Runs ----

  predicate Possible(s: System, run: seq<Action>)
    decreases |run|
  {
    run != [] ==> Enabled(s, run[0]) && Possible(Next(s, run[0]), run[1..])
  }

  function After(s: System, run: seq<Action>): System
    requires Possible(s, run)
    decreases |run|
  {
    if run == [] then s else After(Next(s, run[0]), run[1..])
  }

  lemma {:induction false} RunKeeps(s: System, run: seq<Action>)
    requires Kept(s) && Possible(s, run)
    ensures Kept(After(s, run))
    decreases |run|
  {
    hide Kept, Next, Enabled;
    if run != [] {
      StepKeeps(s, run[0]);
      RunKeeps(Next(s, run[0]), run[1..]);
    }
  }

  // ---- What every run keeps ----

  lemma Reached(run: seq<Action>)
    requires Possible(INITIAL, run)
    ensures Kept(After(INITIAL, run))
  {
    RunKeeps(INITIAL, run);
  }

  /** Where the open claim was granted: nothing but deletes tried has happened to the row since. */
  lemma {:induction false} OpenSince(h: History) returns (p: nat)
    requires Open(h).Some?
    ensures p < |h| && h[p] == Open(h).value && forall q | p < q < |h| :: h[q].Tried?
  {
    var last := |h| - 1;
    if h[last].Granted? {
      p := last;
    } else {
      p := OpenSince(h[..last]);
    }
  }

  /** Fencing. In every run each token writes at most one outcome, and none once the row has been
      granted to another claim: each outcome follows its own grant with nothing but deletes tried between. */
  lemma Fencing(run: seq<Action>, id: nat, i: nat) returns (p: nat)
    requires Possible(INITIAL, run) && id in After(INITIAL, run).histories
    requires i < |After(INITIAL, run).histories[id]| && After(INITIAL, run).histories[id][i].Written?
    ensures var h := After(INITIAL, run).histories[id];
      && p < i && h[p].Granted? && h[p].token == h[i].token
      && (forall q | p < q < i :: h[q].Tried?)
      && (forall q | 0 <= q < |h| && q != p && h[q].Granted? :: h[q].token != h[i].token)
      && (forall j | 0 <= j < |h| && j != i && h[j].Written? :: h[j].token != h[i].token)
  {
    Reached(run);
    var s := After(INITIAL, run);
    hide After, Possible;
    assert RowKept(s.tables.rows[id], s.histories[id], s.tables.events, id, s.issued);
    p := FencedOnce(s.histories[id], i);
  }

  lemma FencedOnce(h: History, i: nat) returns (p: nat)
    requires Fenced(h) && GrantedOnce(h) && i < |h| && h[i].Written?
    ensures p < i && h[p].Granted? && h[p].token == h[i].token
    ensures forall q | p < q < i :: h[q].Tried?
    ensures forall q | 0 <= q < |h| && q != p && h[q].Granted? :: h[q].token != h[i].token
    ensures forall j | 0 <= j < |h| && j != i && h[j].Written? :: h[j].token != h[i].token
  {
    p := OpenSince(h[..i]);
    forall j | 0 <= j < |h| && j != i && h[j].Written? ensures h[j].token != h[i].token {
      var q := OpenSince(h[..j]);
      if j > i {
        assert q > i;
      } else {
        assert p > j;
      }
    }
  }

  /** Conservation. In every run the claims granted on a row are its attempts and those its audit
      lines remember; its dead-letterings are its audit lines, and one more if it is dead-lettered now. */
  lemma Conservation(run: seq<Action>, id: nat)
    requires Possible(INITIAL, run) && id in After(INITIAL, run).tables.rows
    ensures var s := After(INITIAL, run);
      && id in s.histories
      && Grants(s.histories[id]) == s.tables.rows[id].attempts + PreviousAttempts(s.tables.events, id)
      && DeadLetterings(s.histories[id]) ==
           Audits(s.tables.events, id) + if s.tables.rows[id].status == DEAD_LETTER then 1 else 0
  {
    Reached(run);
  }

  /** No false cleanup. In every run a cleanup row that is published was published by a worker whose
      delete of this very payload had returned under the same claim. */
  lemma NoFalseCleanup(run: seq<Action>, id: nat) returns (i: nat, j: nat)
    requires Possible(INITIAL, run) && id in After(INITIAL, run).tables.rows
    requires After(INITIAL, run).tables.rows[id].topic == CLEANUP_TOPIC
    requires After(INITIAL, run).tables.rows[id].status == PUBLISHED
    ensures id in After(INITIAL, run).histories
    ensures var h := After(INITIAL, run).histories[id];
      && i < j < |h| && h[j].Written? && h[j].decision.Publish?
      && h[i] == Tried(h[j].token, After(INITIAL, run).tables.rows[id].payload, Returned)
  {
    Reached(run);
    var s := After(INITIAL, run);
    assert DeletedBefore(s.histories[id], s.tables.rows[id].payload);
    var a: int, b: int :| 0 <= a < b < |s.histories[id]|
      && s.histories[id][b].Written? && s.histories[id][b].decision.Publish?
      && s.histories[id][a] == Tried(s.histories[id][b].token, s.tables.rows[id].payload, Returned);
    i, j := a, b;
  }

  /** No lost row. In every run a cleanup row can be claimed by an idle worker with a new token exactly
      when it is pending, or 45 seconds have passed since the claim that holds it was granted. */
  lemma NoLostRow(run: seq<Action>, id: nat, worker: nat, token: string, publisherId: string, now: int)
    requires Possible(INITIAL, run) && id in After(INITIAL, run).tables.rows
    requires WorkOf(After(INITIAL, run), worker).Idle? && token !in After(INITIAL, run).issued
    requires After(INITIAL, run).tables.rows[id].topic == CLEANUP_TOPIC
    ensures var (s, row) := (After(INITIAL, run), After(INITIAL, run).tables.rows[id]);
      && id in s.histories
      && (Enabled(s, Claim(worker, Cleaner, id, token, publisherId, now)) <==>
            match row.status
            case PENDING => true
            case PUBLISHING => Open(s.histories[id]).Some? && Open(s.histories[id]).value.at + 45 <= now
            case _ => false)
      && (row.status == PUBLISHING ==> Open(s.histories[id]).Some?)
  {
    Reached(run);
    var s := After(INITIAL, run);
    assert ClaimIsOpen(s.tables.rows[id], s.histories[id]);
  }

  /** In every run at most four retries follow each insertion or reprocessing of a cleanup row, and its
      retries are exhausted only after five attempts. */
  lemma BoundedRetries(run: seq<Action>, id: nat)
    requires Possible(INITIAL, run) && id in After(INITIAL, run).tables.rows
    requires After(INITIAL, run).tables.rows[id].topic == CLEANUP_TOPIC
    ensures id in After(INITIAL, run).histories
    ensures Retries(After(INITIAL, run).histories[id]) <= 4
    ensures ExhaustedAfterAll(After(INITIAL, run).tables.rows[id])
  {
    Reached(run);
    var s := After(INITIAL, run);
    assert RetriesBounded(s.tables.rows[id], s.histories[id]);
  }

  // ---- What no step and no run undoes ----

  /** A settle under a claim that is no longer open, or of a row that is gone, changes neither table nor history. */
  lemma StaleSettleIsNothing(s: System, worker: nat, now: int)
    requires Kept(s) && Enabled(s, Settle(worker, now))
    requires var m := WorkOf(s, worker).message;
      m.outboxId in s.tables.rows ==>
        Open(s.histories[m.outboxId]).None? || Open(s.histories[m.outboxId]).value.token != m.claimToken
    ensures Next(s, Settle(worker, now)) == s.(workers := s.workers[worker := Idle])
  {
    var m := WorkOf(s, worker).message;
    assert WorkKept(s, s.workers[worker]);
    if m.outboxId in s.tables.rows {
      assert ClaimIsOpen(s.tables.rows[m.outboxId], s.histories[m.outboxId]);
    }
  }

  /** A published row never changes again; a dead-lettered row changes only by a reprocessing that is
      audited, and only after its retries were exhausted; what a row is about never changes. A row is removed
      only if it is no cleanup row and was never audited. */
  lemma TerminalStates(s: System, a: Action, id: nat)
    requires Kept(s) && Enabled(s, a) && id in s.tables.rows
    ensures id !in Next(s, a).tables.rows <==> a.Remove? && id in a.ids
    ensures id !in Next(s, a).tables.rows ==>
      s.tables.rows[id].topic != CLEANUP_TOPIC && Audits(s.tables.events, id) == 0
    ensures id in Next(s, a).tables.rows ==>
      var (row, row', events, events') :=
        (s.tables.rows[id], Next(s, a).tables.rows[id], s.tables.events, Next(s, a).tables.events);
      && (row.status == PUBLISHED ==> row' == row)
      && (row.status == DEAD_LETTER && row' != row ==>
            && a.Reprocess? && a.id == id
            && row.failureCode == Some("AGENT_CLEANUP_RETRY_EXHAUSTED")
            && row' == RequeuedRow(row, a.now)
            && events' == events + [EventFor(id, row, a.request, a.now, a.eventId)])
      && (row'.topic, row'.aggregateId, row'.payload, row'.payloadDigest) ==
           (row.topic, row.aggregateId, row.payload, row.payloadDigest)
  {
    hide RowKept, WorkKept;
    if a.Enqueue? {
      assert s.tables.lastId + 1 !in s.tables.rows;
    }
    if a.Remove? && id in a.ids {
      NoAudits(s.tables.events, id);
    }
  }

  /** A removed row does not come back: ids are not used again. */
  lemma {:induction false} GoneForEver(s: System, run: seq<Action>, id: nat)
    requires Kept(s) && Possible(s, run) && id !in s.tables.rows && id <= s.tables.lastId
    ensures id !in After(s, run).tables.rows
    decreases |run|
  {
    if run != [] {
      StaysGone(s, run[0], id);
      hide Kept, Next, Enabled;
      StepKeeps(s, run[0]);
      GoneForEver(Next(s, run[0]), run[1..], id);
    }
  }

  lemma StaysGone(s: System, a: Action, id: nat)
    requires Kept(s) && Enabled(s, a) && id !in s.tables.rows && id <= s.tables.lastId
    ensures id !in Next(s, a).tables.rows && id <= Next(s, a).tables.lastId
  {
    hide RowKept, WorkKept;
  }

  /** A published row is the same at the end of every run, if it was not removed; a cleanup row is not. */
  lemma {:induction false} PublishedForEver(s: System, run: seq<Action>, id: nat)
    requires Kept(s) && Possible(s, run) && id in s.tables.rows && s.tables.rows[id].status == PUBLISHED
    ensures id in After(s, run).tables.rows ==> After(s, run).tables.rows[id] == s.tables.rows[id]
    ensures s.tables.rows[id].topic == CLEANUP_TOPIC ==> id in After(s, run).tables.rows
    decreases |run|
  {
    hide Next, Enabled, RowKept, WorkKept, EventsKept;
    if run != [] {
      StepKeeps(s, run[0]);
      TerminalStates(s, run[0], id);
      LastIdGrows(s, run[0]);
      if id in Next(s, run[0]).tables.rows {
        PublishedForEver(Next(s, run[0]), run[1..], id);
      } else {
        GoneForEver(Next(s, run[0]), run[1..], id);
      }
    }
  }

  lemma LastIdGrows(s: System, a: Action)
    requires Enabled(s, a)
    ensures s.tables.lastId <= Next(s, a).tables.lastId
  {
  }

  /** The audit table only grows, so that a request answered once is answered alike ever after. */
  lemma {:induction false} AnsweredAlike(s: System, a: Action, run: seq<Action>, now: int, eventId: string)
    requires Kept(s) && a.Reprocess? && Enabled(s, a) && Possible(Next(s, a), run)
    requires Reprocessed(s.tables, a.id, a.request, a.now, a.eventId).1.Ok?
    ensures var later := After(Next(s, a), run).tables;
      Reprocessed(later, a.id, a.request, now, eventId) ==
        (later, Reprocessed(s.tables, a.id, a.request, a.now, a.eventId).1)
  {
    hide Kept;
    StepKeeps(s, a);
    EventsGrow(Next(s, a), run);
    ReprocessIdempotent(s.tables, a.id, a.request, a.now, a.eventId,
      After(Next(s, a), run).tables, a.id, a.request, now, eventId);
  }

  lemma {:induction false} EventsGrow(s: System, run: seq<Action>)
    requires Possible(s, run)
    ensures s.tables.events <= After(s, run).tables.events
    decreases |run|
  {
    hide Enabled;
    if run != [] {
      EventsGrow(Next(s, run[0]), run[1..]);
    }
  }

  // ---- The consumer's cleanup is three steps of the protocol ----

  lemma CleanupIsThreeSteps(s: System, worker: nat, id: nat, consumerId: string, m: Moment)
    requires Kept(s) && WorkOf(s, worker).Idle? && m.token !in s.issued
    requires id in Candidates(s.tables, m.locked, m.claimedAt, Some(CLEANUP_TOPIC))
    ensures
      var steps := [Claim(worker, Cleaner, id, m.token, consumerId, m.claimedAt),
                    Delete(worker, m.outcome), Settle(worker, m.settledAt)];
      Possible(s, steps) && After(s, steps).tables == CleanedUp(s.tables, id, consumerId, m)
  {
    hide RowKept, WorkKept, Kept;
    assert id in s.histories by { HistoryKept(s, id); }
    var steps := [Claim(worker, Cleaner, id, m.token, consumerId, m.claimedAt),
                  Delete(worker, m.outcome), Settle(worker, m.settledAt)];
    var s1 := Next(s, steps[0]);
    var s2 := Next(s1, steps[1]);
    var s3 := Next(s2, steps[2]);
    assert steps[1..][0] == steps[1] && steps[1..][1..][0] == steps[2] && steps[1..][1..][1..] == [];
    assert Possible(s3, []) && After(s3, []) == s3;
    assert Possible(s2, steps[1..][1..]) && After(s2, steps[1..][1..]) == s3;
    assert Possible(s1, steps[1..]) && After(s1, steps[1..]) == s3;
  }

  lemma HistoryKept(s: System, id: nat)
    requires Kept(s) && id in s.tables.rows
    ensures id in s.histories
  {
  }
}
