/** The consumer that deletes the sessions named by cleanup rows, and the loop that drains them. */
module AgentCleanup {
  import opened Json
  import opened Outbox

  const MAX_CLEANUP_ATTEMPTS: nat := 5

  /** How the deleter comes back: normally, refusing the payload for good, or failing for now. */
  datatype DeleteOutcome = Returned | ValueError | AgentRuntimeError

  datatype CleanupOutcome = EMPTY | DELETED | RETRY_SCHEDULED | DEAD_LETTERED

  /** The claim was gone when its outcome was to be written. */
  datatype LostClaim = COMPLETION_LOST | RETRY_LOST | DEAD_LETTER_LOST

  predicate ValidPayload(message: Message) {
    && message.topic == CLEANUP_TOPIC
    && Keys(message.payload) == {"runtime_resource", "user_id", "session_id"}
    && forall f | f in message.payload :: f.value.Str? && f.value.s != ""
  }

  function PowerOfTwo(n: nat): nat {
    if n == 0 then 1 else 2 * PowerOfTwo(n - 1)
  }

  function Min(a: int, b: int): int {
    if a < b then a else b
  }

  function Decide(message: Message, outcome: DeleteOutcome): Decision {
    if !ValidPayload(message) then GiveUp("AGENT_CLEANUP_PAYLOAD_INVALID")
    else
      match outcome
      case Returned => Publish("direct-cleanup:" + message.aggregateId)
      case ValueError => GiveUp("AGENT_CLEANUP_SCOPE_INVALID")
      case AgentRuntimeError =>
        if message.attempts >= MAX_CLEANUP_ATTEMPTS then GiveUp("AGENT_CLEANUP_RETRY_EXHAUSTED")
        else Retry(Min(300, PowerOfTwo(message.attempts)))
  }

  function OutcomeOf(decision: Decision): CleanupOutcome {
    match decision
    case Publish(_) => DELETED
    case Retry(_) => RETRY_SCHEDULED
    case GiveUp(_) => DEAD_LETTERED
  }

  /** What one cleanup does not decide itself: the clock, the token, the rows locked by others, and
      what the deletion comes to. */
  datatype Moment = Moment(claimedAt: int, settledAt: int, token: string, locked: set<nat>, outcome: DeleteOutcome)

  /** The table after a cleanup of row `id` with which nothing interferes. */
  function CleanedUp(t: Tables, id: nat, consumerId: string, m: Moment): Tables
    requires id in t.rows
  {
    Settled(Claimed(t, id, m.token, consumerId, m.claimedAt), id, m.token,
            Decide(MessageOf(id, t.rows[id], m.token), m.outcome), m.settledAt).0
  }

  // ---- What a cleanup comes to, case by case ----

  /** Only such a row names a session to delete. */
  ghost predicate NamesSession(topic: string, payload: Fields) {
    && topic == "AGENT_SESSION_CLEANUP"
    && (forall k :: k in Keys(payload) <==> k == "runtime_resource" || k == "user_id" || k == "session_id")
    && forall i | 0 <= i < |payload| :: payload[i].value.Str? && |payload[i].value.s| > 0
  }

  /** A claimed row when the delete for the message has come back and what became of it is written down. */
  ghost function Concluded(row: Row, message: Message, outcome: DeleteOutcome, now: int): Row {
    var closed := row.(claim := None, claimExpiresAt := None);
    var failed := closed.(status := DEAD_LETTER, failedAt := Some(now));
    if !NamesSession(message.topic, message.payload) then failed.(failureCode := Some("AGENT_CLEANUP_PAYLOAD_INVALID"))
    else if outcome == ValueError then failed.(failureCode := Some("AGENT_CLEANUP_SCOPE_INVALID"))
    else if outcome == AgentRuntimeError && message.attempts > 4 then
      failed.(failureCode := Some("AGENT_CLEANUP_RETRY_EXHAUSTED"))
    else if outcome == AgentRuntimeError then
      closed.(status := PENDING, availableAt := now + [1, 2, 4, 8, 16][message.attempts], publisherId := None)
    else
      closed.(status := PUBLISHED, publishedAt := Some(now), messageId := Some("direct-cleanup:" + message.aggregateId))
  }

  /** Of all waiting cleanup rows the first was handled, and nothing else changed. */
  ghost predicate Handled(t: Tables, u: Tables, id: nat, consumerId: string, m: Moment) {
    && FirstInLine(t, id, Some("AGENT_SESSION_CLEANUP"), m.locked, m.claimedAt) && id in t.rows
    && var row := t.rows[id];
    && var n := row.attempts + 1;
    && var message := Message(id, row.topic, row.aggregateId, row.payload, row.payloadDigest, m.token, n);
    && u == t.(rows := t.rows[id :=
         Concluded(row.(attempts := n, publisherId := Some(consumerId)), message, m.outcome, m.settledAt)])
  }

  function AnswerFor(status: Status): CleanupOutcome {
    match status
    case PUBLISHED => DELETED
    case DEAD_LETTER => DEAD_LETTERED
    case _ => RETRY_SCHEDULED
  }

  /** One cleanup of a drain: the row, and the tables before and after it. */
  datatype Handling = Handling(id: nat, before: Tables, after: Tables)

  /** The cleanups follow one another from the first tables to the last. */
  ghost predicate InTurn(t: Tables, trace: seq<Handling>, u: Tables, consumerId: string, moments: seq<Moment>) {
    && |trace| <= |moments|
    && (trace == [] ==> u == t)
    && (trace != [] ==> trace[0].before == t && trace[|trace| - 1].after == u)
    && (forall i | 0 < i < |trace| :: trace[i].before == trace[i - 1].after)
    && forall i | 0 <= i < |trace| :: Handled(trace[i].before, trace[i].after, trace[i].id, consumerId, moments[i])
  }

  function With(t: Tables, status: Status): set<nat> {
    set id | id in t.rows && t.rows[id].status == status
  }

  /** How many cleanups left their row in the status. */
  function Ending(trace: seq<Handling>, status: Status): nat {
    if trace == [] then 0 else Ending(trace[..|trace| - 1], status) + if Ends(trace[|trace| - 1], status) then 1 else 0
  }

  predicate Ends(h: Handling, status: Status) {
    h.id in h.after.rows && h.after.rows[h.id].status == status
  }

  lemma OneMore(trace: seq<Handling>, h: Handling, status: Status)
    requires h.id in h.after.rows
    ensures Ending(trace + [h], status) == Ending(trace, status) + if h.after.rows[h.id].status == status then 1 else 0
  {
    assert (trace + [h])[..|trace|] == trace;
  }

  lemma NothingDone(t: Tables, consumerId: string, moments: seq<Moment>)
    ensures InTurn(t, [], t, consumerId, moments)
    ensures forall status :: Ending([], status) == 0
  {
  }

  lemma OneRowMoves(t: Tables, u: Tables, id: nat, row: Row, status: Status)
    requires id in t.rows && t.rows[id].status != status && u == t.(rows := t.rows[id := row])
    ensures |With(u, status)| == |With(t, status)| + if row.status == status then 1 else 0
  {
    assert With(u, status) == With(t, status) + if row.status == status then {id} else {};
  }

  lemma OneHandled(
    first: Tables, trace: seq<Handling>, t: Tables, u: Tables, id: nat, consumerId: string, moments: seq<Moment>)
    requires |trace| < |moments| && InTurn(first, trace, t, consumerId, moments)
    requires Handled(t, u, id, consumerId, moments[|trace|])
    ensures InTurn(first, trace + [Handling(id, t, u)], u, consumerId, moments)
    ensures id in u.rows && u.rows[id].status != PUBLISHING
    ensures forall status | status == PUBLISHED || status == DEAD_LETTER ::
      |With(u, status)| == |With(t, status)| + if u.rows[id].status == status then 1 else 0
    ensures forall status :: Ending(trace + [Handling(id, t, u)], status) ==
                               Ending(trace, status) + if u.rows[id].status == status then 1 else 0
  {
    hide Handled, With, Ending;
    HandledOne(t, u, id, consumerId, moments[|trace|]);
    forall status ensures Ending(trace + [Handling(id, t, u)], status) ==
                            Ending(trace, status) + if u.rows[id].status == status then 1 else 0 {
      OneMore(trace, Handling(id, t, u), status);
    }
    forall status | status == PUBLISHED || status == DEAD_LETTER
      ensures |With(u, status)| == |With(t, status)| + if u.rows[id].status == status then 1 else 0 {
      OneRowMoves(t, u, id, u.rows[id], status);
    }
  }

  /** Only a waiting row is handled. */
  lemma HandledOne(t: Tables, u: Tables, id: nat, consumerId: string, m: Moment)
    requires Handled(t, u, id, consumerId, m)
    ensures id in t.rows && t.rows[id].status in {PENDING, PUBLISHING}
    ensures id in u.rows && u == t.(rows := t.rows[id := u.rows[id]]) && u.rows[id].status != PUBLISHING
  {
  }

  lemma PayloadNamed(message: Message)
    ensures ValidPayload(message) <==> NamesSession(message.topic, message.payload)
  {
    assert forall f | f in message.payload :: exists i :: 0 <= i < |message.payload| && message.payload[i] == f;
  }

  lemma DecideConcludes(message: Message, outcome: DeleteOutcome, now: int)
    ensures forall row: Row :: SettledRow(row, Decide(message, outcome), now) == Concluded(row, message, outcome, now)
    ensures forall row: Row :: AnswerFor(Concluded(row, message, outcome, now).status) == OutcomeOf(Decide(message, outcome))
  {
    hide ValidPayload, NamesSession;
    PayloadNamed(message);
    FirstPowers();
  }

  lemma FirstPowers()
    ensures forall n: nat | n < 5 :: PowerOfTwo(n) == [1, 2, 4, 8, 16][n]
  {
    assert PowerOfTwo(2) == 4 && PowerOfTwo(3) == 8 && PowerOfTwo(4) == 16;
  }

  class AgentSessionCleanupConsumer {
    const repository: PostgresOutboxRepository
    const consumerId: string

    constructor (repository: PostgresOutboxRepository, consumerId: string)
      ensures this.repository == repository && this.consumerId == consumerId
    {
      this.repository := repository;
      this.consumerId := consumerId;
    }

    method DeadLetter(message: Message, code: string, now: int) returns (r: Result<CleanupOutcome, LostClaim>)
      modifies repository.database
      ensures (repository.database.tables, r.Ok?) ==
        Settled(old(repository.database.tables), message.outboxId, message.claimToken, GiveUp(code), now)
      ensures r == if r.Ok? then Ok(DEAD_LETTERED) else Err(DEAD_LETTER_LOST)
    {
      var changed := repository.MarkDeadLetter(message.outboxId, message.claimToken, code, now);
      r := if changed then Ok(DEAD_LETTERED) else Err(DEAD_LETTER_LOST);
    }

    /** Writes down what became of a claimed message. */
    method Settle(message: Message, outcome: DeleteOutcome, now: int) returns (r: Result<CleanupOutcome, LostClaim>)
      modifies repository.database
      ensures (repository.database.tables, r.Ok?) ==
        Settled(old(repository.database.tables), message.outboxId, message.claimToken, Decide(message, outcome), now)
      ensures r.Ok? ==> r.value == OutcomeOf(Decide(message, outcome))
      ensures
        var (t, id) := (old(repository.database.tables), message.outboxId);
        if id in t.rows && t.rows[id].status == PUBLISHING && t.rows[id].claim == Some(Sha256(message.claimToken)) then
          && r.Ok?
          && repository.database.tables == t.(rows := t.rows[id := Concluded(t.rows[id], message, outcome, now)])
          && r.value == AnswerFor(repository.database.tables.rows[id].status)
        else r.Err? && repository.database.tables == t
    {
      DecideConcludes(message, outcome, now);
      if !ValidPayload(message) {
        r := DeadLetter(message, "AGENT_CLEANUP_PAYLOAD_INVALID", now);
        return;
      }
      var changed;
      match outcome
      case ValueError =>
        r := DeadLetter(message, "AGENT_CLEANUP_SCOPE_INVALID", now);
      case AgentRuntimeError =>
        if message.attempts >= MAX_CLEANUP_ATTEMPTS {
          r := DeadLetter(message, "AGENT_CLEANUP_RETRY_EXHAUSTED", now);
          return;
        }
        var delay := Min(300, PowerOfTwo(message.attempts));
        changed := repository.ReleaseForRetry(message.outboxId, message.claimToken, delay, now);
        r := if changed then Ok(RETRY_SCHEDULED) else Err(RETRY_LOST);
      case Returned =>
        changed := repository.MarkPublished(
          message.outboxId, message.claimToken, "direct-cleanup:" + message.aggregateId, now);
        r := if changed then Ok(DELETED) else Err(COMPLETION_LOST);
    }

    /** One cleanup with which nothing interferes never loses its claim. */
    method CleanupOne(m: Moment) returns (r: Result<CleanupOutcome, LostClaim>, ghost id: nat)
      modifies repository.database
      ensures r.Ok?
      ensures var (t, candidates) := (old(repository.database.tables),
                                      Candidates(old(repository.database.tables), m.locked, m.claimedAt, Some(CLEANUP_TOPIC)));
        if candidates == {} then
          && r.value == EMPTY && repository.database.tables == t
          && forall j | j in t.rows :: !InLine(t, j, Some("AGENT_SESSION_CLEANUP"), m.locked, m.claimedAt)
        else
          && id in candidates && IsFirst(t, candidates, id)
          && repository.database.tables == CleanedUp(t, id, consumerId, m)
          && r.value == OutcomeOf(Decide(MessageOf(id, t.rows[id], m.token), m.outcome))
          && Handled(t, repository.database.tables, id, consumerId, m)
          && r.value == AnswerFor(repository.database.tables.rows[id].status)
    {
      id := 0;
      var message := repository.ClaimNext(consumerId, Some(CLEANUP_TOPIC), m.locked, m.claimedAt, m.token);
      if message.None? {
        return Ok(EMPTY), 0;
      }
      id := message.value.outboxId;
      r := Settle(message.value, m.outcome, m.settledAt);
    }

    /** The cleanup request: at most `limit` rows, until none is left. The trace is what it did, row by row. */
    method Drain(limit: nat, moments: seq<Moment>)
      returns (deleted: nat, retryScheduled: nat, deadLettered: nat, drained: bool, ghost trace: seq<Handling>)
      requires |moments| == limit && IdsKept(repository.database.tables)
      modifies repository.database
      ensures IdsKept(repository.database.tables)
      ensures var handled := deleted + retryScheduled + deadLettered;
        && handled + Outstanding(repository.database.tables) <= Outstanding(old(repository.database.tables))
        && |trace| == handled
        && (if drained then
              && handled < limit
              && forall id | id in repository.database.tables.rows ::
                   !InLine(repository.database.tables, id, Some("AGENT_SESSION_CLEANUP"),
                           moments[handled].locked, moments[handled].claimedAt)
            else handled == limit)
      ensures InTurn(old(repository.database.tables), trace, repository.database.tables, consumerId, moments)
      ensures |With(repository.database.tables, PUBLISHED)| == |With(old(repository.database.tables), PUBLISHED)| + deleted
      ensures |With(repository.database.tables, DEAD_LETTER)| ==
        |With(old(repository.database.tables), DEAD_LETTER)| + deadLettered
      ensures deleted == Ending(trace, PUBLISHED) && deadLettered == Ending(trace, DEAD_LETTER)
      ensures retryScheduled == Ending(trace, PENDING)
    {
      hide InTurn, Ending, With, Handled, WeightUpTo, CleanedUp, Decide, InLine, Candidates, IsFirst, IdsKept;
      deleted, retryScheduled, deadLettered, drained := 0, 0, 0, false;
      trace := [];
      NothingDone(repository.database.tables, consumerId, moments);
      for i := 0 to limit
        invariant IdsKept(repository.database.tables)
        invariant deleted + retryScheduled + deadLettered == i == |trace|
        invariant i + Outstanding(repository.database.tables) <= Outstanding(old(repository.database.tables))
        invariant InTurn(old(repository.database.tables), trace, repository.database.tables, consumerId, moments)
        invariant |With(repository.database.tables, PUBLISHED)| == |With(old(repository.database.tables), PUBLISHED)| + deleted
        invariant |With(repository.database.tables, DEAD_LETTER)| ==
          |With(old(repository.database.tables), DEAD_LETTER)| + deadLettered
        invariant deleted == Ending(trace, PUBLISHED) && deadLettered == Ending(trace, DEAD_LETTER)
        invariant retryScheduled == Ending(trace, PENDING)
      {
        ghost var t := repository.database.tables;
        var r, id := CleanupOne(moments[i]);
        if r.value == EMPTY {
          drained := true;
          return;
        }
        CleanupProgress(t, id, consumerId, moments[i]);
        OneHandled(old(repository.database.tables), trace, t, repository.database.tables, id, consumerId, moments);
        trace := trace + [Handling(id, t, repository.database.tables)];
        match r.value
        case DELETED => deleted := deleted + 1;
        case RETRY_SCHEDULED => retryScheduled := retryScheduled + 1;
        case DEAD_LETTERED => deadLettered := deadLettered + 1;
      }
    }

    /** A request that may handle more rows than are outstanding drains the topic. */
    method DrainAll(limit: nat, moments: seq<Moment>) returns (drained: bool)
      requires |moments| == limit && IdsKept(repository.database.tables)
      requires limit > Outstanding(repository.database.tables)
      modifies repository.database
      ensures drained
    {
      var deleted, retryScheduled, deadLettered;
      ghost var trace;
      deleted, retryScheduled, deadLettered, drained, trace := Drain(limit, moments);
    }
  }

  // ---- What is left to do ----

  predicate IdsKept(t: Tables) {
    forall id | id in t.rows :: id <= t.lastId
  }

  /** How often a row can still be handled: four retries at most, then a final outcome. */
  function Weight(row: Row): nat {
    if row.topic == CLEANUP_TOPIC && (row.status == PENDING || row.status == PUBLISHING) then
      if row.attempts < MAX_CLEANUP_ATTEMPTS then MAX_CLEANUP_ATTEMPTS - row.attempts else 1
    else 0
  }

  function WeightUpTo(t: Tables, n: nat): nat {
    (if n in t.rows then Weight(t.rows[n]) else 0) + (if n == 0 then 0 else WeightUpTo(t, n - 1))
  }

  function Outstanding(t: Tables): nat {
    WeightUpTo(t, t.lastId)
  }

  lemma {:induction false} OneRowChanges(t: Tables, u: Tables, id: nat, n: nat)
    requires id in t.rows && id in u.rows && id <= n
    requires u.rows == t.rows[id := u.rows[id]]
    ensures WeightUpTo(u, n) - Weight(u.rows[id]) == WeightUpTo(t, n) - Weight(t.rows[id])
  {
    if n > id {
      OneRowChanges(t, u, id, n - 1);
    } else if n > 0 {
      OtherRowsStay(t, u, id, n - 1);
    }
  }

  lemma {:induction false} OtherRowsStay(t: Tables, u: Tables, id: nat, n: nat)
    requires id in t.rows && id in u.rows && n < id
    requires u.rows == t.rows[id := u.rows[id]]
    ensures WeightUpTo(u, n) == WeightUpTo(t, n)
  {
    if n > 0 {
      OtherRowsStay(t, u, id, n - 1);
    }
  }

  /** Every cleanup that finds a row leaves strictly less to do, whatever the deleter does. */
  lemma CleanupProgress(t: Tables, id: nat, consumerId: string, m: Moment)
    requires IdsKept(t) && id in Candidates(t, m.locked, m.claimedAt, Some(CLEANUP_TOPIC))
    ensures IdsKept(CleanedUp(t, id, consumerId, m))
    ensures Outstanding(CleanedUp(t, id, consumerId, m)) < Outstanding(t)
  {
    var u := CleanedUp(t, id, consumerId, m);
    OneRowChanges(t, u, id, t.lastId);
  }
}
