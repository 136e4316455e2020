/** The outbox table and the statements the workers run on it. Every statement is one transaction.

    Clocks and token generators are parameters; a token digest is written as a constructor of the
    token, which makes it injective.
  */
module Outbox {
  import opened Json

  const OUTBOX_CLAIM_SECONDS: int := 45
  const CLEANUP_TOPIC := "AGENT_SESSION_CLEANUP"
  const STAGE_TOPIC := "WORKFLOW_STAGE_READY"

  datatype Status = PENDING | PUBLISHING | PUBLISHED | DEAD_LETTER

  datatype TokenDigest = Sha256(token: string)

  datatype Row = Row(
    topic: string, aggregateId: string, payload: Fields, payloadDigest: string,
    status: Status, attempts: nat, availableAt: int,
    claim: Option<TokenDigest>, claimExpiresAt: Option<int>, publisherId: Option<string>,
    publishedAt: Option<int>, messageId: Option<string>,
    failureCode: Option<string>, failedAt: Option<int>)

  /** One line of the audit table of the reprocess command. */
  datatype ReprocessEvent = ReprocessEvent(
    eventId: string, requestId: string, outboxId: nat, topic: string, aggregateId: string,
    previousFailureCode: string, previousAttempts: nat,
    remediationCode: string, changeReference: string, requestedAt: int)

  datatype Tables = Tables(rows: map<nat, Row>, events: seq<ReprocessEvent>, lastId: nat)

  datatype Message = Message(
    outboxId: nat, topic: string, aggregateId: string, payload: Fields, payloadDigest: string,
    claimToken: string, attempts: nat)

  // ---- Inserting ----

  function NewRow(topic: string, aggregateId: string, payload: Fields, payloadDigest: string, now: int): Row {
    Row(topic, aggregateId, payload, payloadDigest, PENDING, 0, now, None, None, None, None, None, None, None)
  }

  predicate Conflicts(t: Tables, topic: string, aggregateId: string, payloadDigest: string) {
    exists id | id in t.rows ::
      t.rows[id].topic == topic && t.rows[id].aggregateId == aggregateId && t.rows[id].payloadDigest == payloadDigest
  }

  /** `INSERT ... ON CONFLICT DO NOTHING`. */
  function Enqueued(t: Tables, topic: string, aggregateId: string, payload: Fields, payloadDigest: string, now: int): Tables {
    if Conflicts(t, topic, aggregateId, payloadDigest) then t
    else
      var id := t.lastId + 1;
      t.(rows := t.rows[id := NewRow(topic, aggregateId, payload, payloadDigest, now)], lastId := id)
  }

  // ---- Claiming ----

  predicate Claimable(row: Row, now: int, topic: Option<string>) {
    && (row.status == PENDING || (row.status == PUBLISHING && row.claimExpiresAt.Some? && row.claimExpiresAt.value <= now))
    && (topic.Some? ==> row.topic == topic.value)
  }

  /** `ORDER BY available_at, outbox_id`. */
  predicate Before(t: Tables, i: nat, j: nat)
    requires i in t.rows && j in t.rows
  {
    var (a, b) := (t.rows[i].availableAt, t.rows[j].availableAt);
    a < b || (a == b && i <= j)
  }

  /** The rows the query looks at, `SKIP LOCKED` leaving out those locked by other transactions. */
  function Candidates(t: Tables, locked: set<nat>, now: int, topic: Option<string>): set<nat> {
    set id | id in t.rows && id !in locked && Claimable(t.rows[id], now, topic)
  }

  predicate IsFirst(t: Tables, ids: set<nat>, id: nat) {
    id in ids && id in t.rows && forall j | j in ids && j in t.rows :: Before(t, id, j)
  }

  /** The row is waiting, or its claim has expired, no other transaction holds it, and no other such row of the topic
      was available before it, nor at the same time under a smaller id. */
  predicate FirstInLine(t: Tables, id: nat, topic: Option<string>, locked: set<nat>, now: int) {
    && InLine(t, id, topic, locked, now)
    && forall j | j in t.rows && InLine(t, j, topic, locked, now) ::
         || t.rows[j].availableAt > t.rows[id].availableAt
         || (t.rows[j].availableAt == t.rows[id].availableAt && j >= id)
  }

  predicate InLine(t: Tables, id: nat, topic: Option<string>, locked: set<nat>, now: int) {
    && id in t.rows && id !in locked
    && (topic == None || topic == Some(t.rows[id].topic))
    && match t.rows[id].status
       case PENDING => true
       case PUBLISHING => t.rows[id].claimExpiresAt.Some? && now >= t.rows[id].claimExpiresAt.value
       case _ => false
  }

  lemma {:induction false} FirstExists(t: Tables, ids: set<nat>) returns (id: nat)
    requires ids != {} && ids <= t.rows.Keys
    ensures IsFirst(t, ids, id)
    decreases |ids|
  {
    var i :| i in ids;
    if ids == {i} {
      id := i;
    } else {
      var rest := ids - {i};
      assert ids == {i} + rest;
      var j := FirstExists(t, rest);
      id := if Before(t, i, j) then i else j;
    }
  }

  function ClaimedRow(row: Row, token: string, publisherId: string, now: int): Row {
    row.(status := PUBLISHING, attempts := row.attempts + 1, claim := Some(Sha256(token)),
         claimExpiresAt := Some(now + OUTBOX_CLAIM_SECONDS), publisherId := Some(publisherId))
  }

  function Claimed(t: Tables, id: nat, token: string, publisherId: string, now: int): Tables
    requires id in t.rows
  {
    t.(rows := t.rows[id := ClaimedRow(t.rows[id], token, publisherId, now)])
  }

  function MessageOf(id: nat, row: Row, token: string): Message {
    Message(id, row.topic, row.aggregateId, row.payload, row.payloadDigest, token, row.attempts + 1)
  }

  // ---- Settling a claim ----

  datatype Decision = Publish(messageId: string) | Retry(delaySeconds: int) | GiveUp(failureCode: string)

  predicate HoldsClaim(t: Tables, id: nat, token: string) {
    id in t.rows && t.rows[id].status == PUBLISHING && t.rows[id].claim == Some(Sha256(token))
  }

  function SettledRow(row: Row, decision: Decision, now: int): Row {
    match decision
    case Publish(messageId) =>
      row.(status := PUBLISHED, publishedAt := Some(now), messageId := Some(messageId),
           claim := None, claimExpiresAt := None)
    case Retry(delay) =>
      row.(status := PENDING, availableAt := now + delay,
           claim := None, claimExpiresAt := None, publisherId := None)
    case GiveUp(code) =>
      row.(status := DEAD_LETTER, failureCode := Some(code), failedAt := Some(now),
           claim := None, claimExpiresAt := None)
  }

  /** The new table, and whether the statement changed a row. */
  function Settled(t: Tables, id: nat, token: string, decision: Decision, now: int): (Tables, bool) {
    if HoldsClaim(t, id, token) then (t.(rows := t.rows[id := SettledRow(t.rows[id], decision, now)]), true)
    else (t, false)
  }

  // ---- The database and its repository ----

  class Database {
    var tables: Tables

    constructor ()
      ensures tables == Tables(map[], [], 0)
    {
      tables := Tables(map[], [], 0);
    }
  }

  class CleanupSink {
    const database: Database

    constructor (database: Database)
      ensures this.database == database
    {
      this.database := database;
    }

    /** `payloadDigest` is the digest of the canonical text of the payload. */
    method EnqueueSessionDelete(payload: Fields, sessionId: string, payloadDigest: string, now: int)
      modifies database
      ensures database.tables == Enqueued(old(database.tables), CLEANUP_TOPIC, sessionId, payload, payloadDigest, now)
      ensures
        var t := old(database.tables);
        if exists row | row in t.rows.Values ::
             row.topic == "AGENT_SESSION_CLEANUP" && row.aggregateId == sessionId && row.payloadDigest == payloadDigest
        then database.tables == t
        else
          && t.lastId + 1 in database.tables.rows
          && database.tables == Tables(t.rows[t.lastId + 1 := database.tables.rows[t.lastId + 1]], t.events, t.lastId + 1)
          && var row := database.tables.rows[t.lastId + 1];
          && (row.topic, row.aggregateId, row.payload, row.payloadDigest) ==
               ("AGENT_SESSION_CLEANUP", sessionId, payload, payloadDigest)
          && row.status == PENDING && row.attempts == 0 && row.availableAt == now
          && row.claim == None && row.claimExpiresAt == None && row.publisherId == None
          && row.publishedAt == None && row.messageId == None && row.failureCode == None && row.failedAt == None
    {
      var t := database.tables;
      if !Conflicts(t, CLEANUP_TOPIC, sessionId, payloadDigest) {
        var id := t.lastId + 1;
        var row := NewRow(CLEANUP_TOPIC, sessionId, payload, payloadDigest, now);
        database.tables := t.(rows := t.rows[id := row], lastId := id);
      }
    }
  }

  class PostgresOutboxRepository {
    const database: Database

    constructor (database: Database)
      ensures this.database == database
    {
      this.database := database;
    }

    /** Claims the first claimable row, if there is one that no other transaction has locked. */
    method ClaimNext(publisherId: string, topic: Option<string>, locked: set<nat>, now: int, token: string)
      returns (message: Option<Message>)
      modifies database
      ensures message.None? ==>
        && database.tables == old(database.tables)
        && Candidates(old(database.tables), locked, now, topic) == {}
        && forall id | id in old(database.tables).rows :: !InLine(old(database.tables), id, topic, locked, now)
      ensures message.Some? ==>
        var (t, id) := (old(database.tables), message.value.outboxId);
        && IsFirst(t, Candidates(t, locked, now, topic), id)
        && message.value == MessageOf(id, t.rows[id], token)
        && database.tables == Claimed(t, id, token, publisherId, now)
        && FirstInLine(t, id, topic, locked, now)
        && (message.value.topic, message.value.aggregateId, message.value.payload, message.value.payloadDigest) ==
             (t.rows[id].topic, t.rows[id].aggregateId, t.rows[id].payload, t.rows[id].payloadDigest)
        && message.value.claimToken == token && message.value.attempts == t.rows[id].attempts + 1
        && database.tables == t.(rows := t.rows[id := t.rows[id].(
             status := PUBLISHING, attempts := t.rows[id].attempts + 1, claim := Some(Sha256(token)),
             claimExpiresAt := Some(now + 45), publisherId := Some(publisherId))])
    {
      var t := database.tables;
      var candidates := Candidates(t, locked, now, topic);
      if candidates == {} {
        assert forall id | id in t.rows && InLine(t, id, topic, locked, now) :: id in candidates;
        return None;
      }
      ghost var first := FirstExists(t, candidates);
      var id :| id in candidates && IsFirst(t, candidates, id);
      database.tables := t.(rows := t.rows[id := ClaimedRow(t.rows[id], token, publisherId, now)]);
      return Some(MessageOf(id, t.rows[id], token));
    }

    method MarkPublished(id: nat, token: string, messageId: string, now: int) returns (changed: bool)
      modifies database
      ensures (database.tables, changed) == Settled(old(database.tables), id, token, Publish(messageId), now)
      ensures
        var t := old(database.tables);
        changed <==> id in t.rows && t.rows[id].status == PUBLISHING && t.rows[id].claim == Some(Sha256(token))
      ensures
        var t := old(database.tables);
        database.tables ==
          if changed then t.(rows := t.rows[id := t.rows[id].(
            status := PUBLISHED, publishedAt := Some(now), messageId := Some(messageId),
            claim := None, claimExpiresAt := None)])
          else t
    {
      changed := Update(id, token, Publish(messageId), now);
    }

    method ReleaseForRetry(id: nat, token: string, delaySeconds: int, now: int) returns (changed: bool)
      modifies database
      ensures (database.tables, changed) == Settled(old(database.tables), id, token, Retry(delaySeconds), now)
      ensures
        var t := old(database.tables);
        changed <==> id in t.rows && t.rows[id].status == PUBLISHING && t.rows[id].claim == Some(Sha256(token))
      ensures
        var t := old(database.tables);
        database.tables ==
          if changed then t.(rows := t.rows[id := t.rows[id].(
            status := PENDING, availableAt := now + delaySeconds,
            claim := None, claimExpiresAt := None, publisherId := None)])
          else t
    {
      changed := Update(id, token, Retry(delaySeconds), now);
    }

    method MarkDeadLetter(id: nat, token: string, failureCode: string, now: int) returns (changed: bool)
      modifies database
      ensures (database.tables, changed) == Settled(old(database.tables), id, token, GiveUp(failureCode), now)
      ensures
        var t := old(database.tables);
        changed <==> id in t.rows && t.rows[id].status == PUBLISHING && t.rows[id].claim == Some(Sha256(token))
      ensures
        var t := old(database.tables);
        database.tables ==
          if changed then t.(rows := t.rows[id := t.rows[id].(
            status := DEAD_LETTER, failureCode := Some(failureCode), failedAt := Some(now),
            claim := None, claimExpiresAt := None)])
          else t
    {
      changed := Update(id, token, GiveUp(failureCode), now);
    }

    /** `UPDATE ... WHERE outbox_id AND status='PUBLISHING' AND claim_token_digest`. */
    method Update(id: nat, token: string, decision: Decision, now: int) returns (changed: bool)
      modifies database
      ensures (database.tables, changed) == Settled(old(database.tables), id, token, decision, now)
    {
      var t := database.tables;
      changed := id in t.rows && t.rows[id].status == PUBLISHING && t.rows[id].claim == Some(Sha256(token));
      if changed {
        database.tables := t.(rows := t.rows[id := SettledRow(t.rows[id], decision, now)]);
      }
    }
  }
}
