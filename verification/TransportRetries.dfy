/** The calls of the Agent Runtime: at most three attempts, all of them bounded by the deadline of the agent task,
    and the sessions whose deletion is uncertain handed to the cleanup outbox.

    Times are seconds. What a clock reads, what the network does and whether the database takes a row are inputs,
    so that what becomes of a session is a statement about them.
  */
module TransportRetries {
  import opened Json
  import opened Outbox
  import opened RuntimeStreams

  datatype Task = Task(userId: string, agentName: string, deadline: real)

  /** One attempt as its surroundings decide it. `entered`, `budgeted`, `checked` and `finished` are what the clock
      reads at the start, for the stream's timeout, after the stream and after the result's contract;
      `sinkWorks` says whether the cleanup transaction would succeed, `enqueuedAt` when. */
  datatype Exchange = Exchange(
    entered: real, budgeted: real, reply: Reply, checked: real, finished: real, sinkWorks: bool, enqueuedAt: int)

  function Timeout(task: Task, x: Exchange): real {
    task.deadline - x.budgeted - STREAM_CLEANUP_RESERVE_SECONDS
  }

  /** An exception ends the stream, or leaves no time to begin it. */
  predicate StreamRaises(task: Task, x: Exchange) {
    Timeout(task, x) <= 0.0 || !ReadsThrough(x.reply, task.deadline, Timeout(task, x))
  }

  /** Timeouts and network errors of the client library, and the statuses 408, 429 and 5xx, can be retried. */
  predicate RetryableReply(reply: Reply, deadline: real, timeout: real) {
    && reply.after <= timeout
    && match reply
       case Unanswered(_, why) => why.Network?
       case Status(_, status, body, _) =>
         && (status == 408 || status == 429 || 500 <= status <= 599)
         && ErrorOf(body) != Some(Str(TIMED_OUT))
       case Streaming(lines, _, broken) => AllReadable(lines, deadline, timeout) && broken == Some(Network)
  }

  predicate CanRetry(task: Task, x: Exchange) {
    && x.entered < task.deadline && Timeout(task, x) > 0.0
    && RetryableReply(x.reply, task.deadline, Timeout(task, x))
  }

  function RetryAfter(reply: Reply): Option<real> {
    if reply.Status? && reply.header.Some? && 0.0 <= reply.header.value <= 2.0 then reply.header else None
  }

  function SessionId(invocationId: string): string {
    "caffemate-" + invocationId
  }

  function CleanupPayload(resource: string, userId: string, sessionId: string): Fields {
    [Field("runtime_resource", Str(resource)), Field("user_id", Str(userId)), Field("session_id", Str(sessionId))]
  }

  /** The clock reads `budget` and `now` before a retry. */
  datatype Pause = Pause(budget: real, now: real)

  /** All that the surroundings decide about a call of three attempts at most. `valid` says whether each task
      meets its contract, `afterwards` what the clock reads after a failed attempt. */
  datatype Run = Run(
    ids: seq<string>, exchanges: seq<Exchange>, valid: seq<bool>, afterwards: seq<real>, pauses: seq<Pause>,
    digestPrefix: string -> nat)
  {
    predicate Complete() {
      |ids| == 3 && |exchanges| == 3 && |valid| == 3 && |afterwards| == 2 && |pauses| == 2
    }

    /** How long the call waits before attempt k, counted from zero. */
    function Delay(k: nat): real
      requires Complete() && 1 <= k <= 2
    {
      var after := RetryAfter(exchanges[k - 1].reply);
      if after.Some? then after.value
      else (if k == 1 then 0.25 else 0.75) + (digestPrefix(ids[k - 1]) % 101) as real / 1000.0
    }

    predicate TimeToRetry(task: Task, k: nat)
      requires Complete() && 1 <= k <= 2
    {
      && task.deadline - afterwards[k - 1] >= 2.0
      && task.deadline - pauses[k - 1].budget >= 2.0
      && pauses[k - 1].now + Delay(k) <= task.deadline - 2.0
    }

    /** Attempt k takes place: all earlier ones failed in a way that can be retried, with the time for it. */
    predicate Reached(task: Task, k: nat)
      requires Complete() && k < 3
    {
      && valid[k]
      && (k > 0 ==> Reached(task, k - 1) && CanRetry(task, exchanges[k - 1]) && TimeToRetry(task, k))
    }
  }

  class RuntimeClient {
    const resource: string
    const sink: CleanupSink
    /** The characters that `strip` removes, the contract of results, and the digest of a payload. */
    const space: char -> bool
    const resultValid: string -> bool
    const digest: Fields -> string

    constructor (resource: string, sink: CleanupSink,
                 space: char -> bool, resultValid: string -> bool, digest: Fields -> string)
      ensures this.resource == resource && this.sink == sink
      ensures this.space == space && this.resultValid == resultValid && this.digest == digest
    {
      this.resource, this.sink := resource, sink;
      this.space, this.resultValid, this.digest := space, resultValid, digest;
    }

    /** The session of the attempt is handed over: there was time to begin, and either the stream raised, or
        the deadline is not passed after it and the first refused event reports that the deletion failed. */
    predicate HandsOver(task: Task, x: Exchange) {
      && x.entered < task.deadline
      && (StreamRaises(task, x)
          || (x.checked < task.deadline && ReportHeard(Events(x.reply.lines), task.agentName, space)))
    }

    /** The attempt returns the text. */
    predicate Completes(task: Task, x: Exchange, text: string) {
      && x.entered < task.deadline && !StreamRaises(task, x)
      && x.checked < task.deadline && FinalOf(Events(x.reply.lines), task.agentName, space, text)
      && resultValid(text) && x.finished < task.deadline
    }

    function Handed(t: Tables, userId: string, sessionId: string, x: Exchange): Tables {
      var payload := CleanupPayload(resource, userId, sessionId);
      if x.sinkWorks then Enqueued(t, CLEANUP_TOPIC, sessionId, payload, digest(payload), x.enqueuedAt) else t
    }

    /** Exceptions of the sink are swallowed. */
    method EnqueueUncertainCleanup(userId: string, sessionId: string, x: Exchange)
      modifies sink.database
      ensures sink.database.tables == Handed(old(sink.database.tables), userId, sessionId, x)
    {
      if x.sinkWorks {
        var payload := CleanupPayload(resource, userId, sessionId);
        sink.EnqueueSessionDelete(payload, sessionId, digest(payload), x.enqueuedAt);
      }
    }

    /** How an attempt that returns nothing ends: too late, with what the stream raised, with what the selection came to,
        or with a result that breaks its contract. */
    ghost predicate Fails(task: Task, x: Exchange, failure: Failure) {
      if x.entered >= task.deadline || x.budgeted + 2.0 >= task.deadline then failure == Terminal("RUNTIME_TIMED_OUT")
      else if StreamRaises(task, x) then RaisedBy(x.reply, task.deadline, Timeout(task, x), failure)
      else if x.checked >= task.deadline then failure == Terminal("RUNTIME_TIMED_OUT")
      else
        var events := Events(x.reply.lines);
        if ReportHeard(events, task.agentName, space) then failure == CleanupUncertain
        else if FirstBlocked(events, task.agentName, space) then failure == Terminal("SAFETY_BLOCKED")
        else if exists text :: FinalOf(events, task.agentName, space, text) then
          && (forall text | FinalOf(events, task.agentName, space, text) :: !resultValid(text) || x.finished >= task.deadline)
          && exists text :: FinalOf(events, task.agentName, space, text) && failure == Terminal(
               if resultValid(text) then "RUNTIME_TIMED_OUT" else "RUNTIME_RESULT_SCHEMA_INVALID")
        else failure == Terminal("RUNTIME_PROTOCOL_INVALID")
    }

    method InvokeOnce(task: Task, invocationId: string, x: Exchange) returns (r: Result<string, Failure>)
      modifies sink.database
      ensures sink.database.tables ==
        if HandsOver(task, x) then Handed(old(sink.database.tables), task.userId, SessionId(invocationId), x)
        else old(sink.database.tables)
      ensures forall text :: r == Ok(text) <==> Completes(task, x, text)
      ensures r.Err? && r.error.Retryable? <==> CanRetry(task, x)
      ensures r.Err? && r.error.Retryable? ==> r.error.retryAfter == RetryAfter(x.reply)
      ensures r.Err? ==> Fails(task, x, r.error)
      ensures r.Err? && r.error.Retryable? ==> r.error.code == "RUNTIME_STREAM_TRANSPORT_FAILED"
    {
      if task.deadline - x.entered <= 0.0 {
        return Err(Terminal(TIMED_OUT));
      }
      var sessionId := SessionId(invocationId);
      var timeout := task.deadline - x.budgeted - STREAM_CLEANUP_RESERVE_SECONDS;
      var streamed: Result<seq<Fields>, Failure> := Err(Terminal(TIMED_OUT));
      if timeout > 0.0 {
        streamed := StreamQuery(x.reply, task.deadline, timeout);
      }
      if streamed.Err? {
        EnqueueUncertainCleanup(task.userId, sessionId, x);
        return Err(streamed.error);
      }
      if task.deadline - x.checked <= 0.0 {
        return Err(Terminal(TIMED_OUT));
      }
      var selected := SelectFinalText(streamed.value, task.agentName, space);
      if selected == Err(CleanupUncertain) {
        EnqueueUncertainCleanup(task.userId, sessionId, x);
      }
      if selected.Err? {
        return selected;
      }
      if !resultValid(selected.value) {
        return Err(Terminal("RUNTIME_RESULT_SCHEMA_INVALID"));
      }
      if task.deadline - x.finished <= 0.0 {
        return Err(Terminal(TIMED_OUT));
      }
      return selected;
    }

    /** The delay that is slept, before attempt k counted from zero. */
    method WaitBeforeRetry(task: Task, k: nat, lastId: string, retryAfter: Option<real>, pause: Pause,
                           digestPrefix: string -> nat)
      returns (r: Result<real, Failure>)
      requires 1 <= k <= 2
      ensures r.Ok? ==> pause.now + r.value <= task.deadline - 2.0 && pause.budget <= task.deadline - 2.0
      ensures r.Ok? && retryAfter.Some? ==> r.value == retryAfter.value
      ensures r.Ok? && retryAfter.None? ==>
        var base := [0.25, 0.75][k - 1];
        base <= r.value <= base + 0.1 && r.value == base + (digestPrefix(lastId) % 101) as real / 1000.0
      ensures r.Err? ==> r.error == Terminal(TIMED_OUT)
      ensures r.Err? && pause.budget <= task.deadline - 2.0 ==>
        pause.now + (if retryAfter.Some? then retryAfter.value else
          [0.25, 0.75][k - 1] + (digestPrefix(lastId) % 101) as real / 1000.0) > task.deadline - 2.0
    {
      if task.deadline - pause.budget < 2.0 {
        return Err(Terminal(TIMED_OUT));
      }
      var base := [0.25, 0.75][k - 1];
      var jitter := (digestPrefix(lastId) % 101) as real / 1000.0;
      var delay := if retryAfter.Some? then retryAfter.value else base + jitter;
      if delay > task.deadline - pause.now - 2.0 {
        return Err(Terminal(TIMED_OUT));
      }
      return Ok(delay);
    }

    /** The tables after the first n attempts: each one that took place handed its session over or did not. */
    function TablesAfter(task: Task, run: Run, t: Tables, n: nat): Tables
      requires run.Complete() && n <= 3
    {
      if n == 0 then t
      else
        var before, k := TablesAfter(task, run, t, n - 1), n - 1;
        if run.Reached(task, k) && HandsOver(task, run.exchanges[k]) then
          Handed(before, task.userId, SessionId(run.ids[k]), run.exchanges[k])
        else before
    }

    /** How a call that returns nothing ends, attempt `k` being its last: as that attempt, if it cannot be retried, or for
        want of attempts or time, or with a task that breaks its contract. */
    ghost predicate Ends(task: Task, run: Run, k: nat, failure: Failure)
      requires run.Complete() && k < 3
    {
      && run.Reached(task, k)
      && if !CanRetry(task, run.exchanges[k]) then Fails(task, run.exchanges[k], failure)
         else if k == 2 || run.afterwards[k] + 2.0 > task.deadline then failure == Terminal("RUNTIME_STREAM_TRANSPORT_FAILED")
         else if !run.TimeToRetry(task, k + 1) then failure == Terminal("RUNTIME_TIMED_OUT")
         else !run.valid[k + 1] && failure == Terminal("CONTRACT_INVALID")
    }

    method InvokeWithTransportRetries(task: Task, run: Run) returns (r: Result<string, Failure>)
      requires run.Complete()
      modifies sink.database
      ensures sink.database.tables == TablesAfter(task, run, old(sink.database.tables), 3)
      ensures forall text :: r == Ok(text) <==>
        exists k: nat | k < 3 :: run.Reached(task, k) && Completes(task, run.exchanges[k], text)
      ensures r.Err? ==> !r.error.Retryable?
      ensures r.Err? ==>
        if run.valid[0] then exists k: nat | k < 3 :: Ends(task, run, k, r.error) else r.error == Terminal("CONTRACT_INVALID")
    {
      hide Fails, Handed, HandsOver, Completes, RetryableReply;
      var retryAfter: Option<real> := None;
      for k := 0 to 3
        invariant k < 3
        invariant sink.database.tables == TablesAfter(task, run, old(sink.database.tables), k)
        invariant forall j: nat, text | j < k :: !(run.Reached(task, j) && Completes(task, run.exchanges[j], text))
        invariant k > 0 ==> run.Reached(task, k - 1) && CanRetry(task, run.exchanges[k - 1])
        invariant k > 0 ==> retryAfter == RetryAfter(run.exchanges[k - 1].reply)
        invariant 0 < k < 3 ==> task.deadline - run.afterwards[k - 1] >= 2.0
      {
        if k > 0 {
          var waited := WaitBeforeRetry(task, k, run.ids[k - 1], retryAfter, run.pauses[k - 1], run.digestPrefix);
          if waited.Err? {
            assert Ends(task, run, k - 1, waited.error);
            NotReachedAfter(task, run, k, old(sink.database.tables));
            return Err(waited.error);
          }
        }
        if !run.valid[k] {
          if k > 0 {
            assert run.TimeToRetry(task, k);
            assert Ends(task, run, k - 1, Terminal("CONTRACT_INVALID"));
          }
          NotReachedAfter(task, run, k, old(sink.database.tables));
          return Err(Terminal("CONTRACT_INVALID"));
        }
        r := InvokeOnce(task, run.ids[k], run.exchanges[k]);
        assert run.Reached(task, k);
        if r.Ok? || !r.error.Retryable? {
          assert r.Err? ==> Ends(task, run, k, r.error);
          NotReachedAfter(task, run, k + 1, old(sink.database.tables));
          return;
        }
        if k == 2 || task.deadline - run.afterwards[k] < 2.0 {
          assert Ends(task, run, k, Terminal(r.error.code));
          NotReachedAfter(task, run, k + 1, old(sink.database.tables));
          return Err(Terminal(r.error.code));
        }
        retryAfter := r.error.retryAfter;
      }
      r := Err(Terminal("RUNTIME_TRANSPORT_FAILED"));
    }

    /** Behind an attempt that does not take place nothing happens. */
    lemma NotReachedAfter(task: Task, run: Run, k: nat, t: Tables)
      requires run.Complete() && k <= 3
      requires k < 3 ==> !run.Reached(task, k)
      decreases 3 - k
      ensures forall j: nat | k <= j < 3 :: !run.Reached(task, j)
      ensures TablesAfter(task, run, t, 3) == TablesAfter(task, run, t, k)
    {
      hide HandsOver, Handed, Run.TimeToRetry, CanRetry;
      if k < 3 {
        assert k < 2 ==> !run.Reached(task, k + 1);
        NotReachedAfter(task, run, k + 1, t);
        assert TablesAfter(task, run, t, k + 1) == TablesAfter(task, run, t, k);
      }
    }
  }

  // ---- Which sessions are in the outbox afterwards ----

  /** A cleanup row of the session is in the outbox. */
  predicate Queued(t: Tables, sessionId: string) {
    exists id | id in t.rows :: t.rows[id].topic == CLEANUP_TOPIC && t.rows[id].aggregateId == sessionId
  }

  /** Row ids are drawn from the table's sequence. */
  predicate Numbered(t: Tables) {
    forall id | id in t.rows :: id <= t.lastId
  }

  lemma HandedQueues(c: RuntimeClient, t: Tables, userId: string, sessionId: string, x: Exchange, other: string)
    requires Numbered(t)
    ensures Numbered(c.Handed(t, userId, sessionId, x))
    ensures other != sessionId || !x.sinkWorks ==>
      (Queued(c.Handed(t, userId, sessionId, x), other) <==> Queued(t, other))
    ensures x.sinkWorks ==> Queued(c.Handed(t, userId, sessionId, x), sessionId)
  {
    var payload := CleanupPayload(c.resource, userId, sessionId);
    var u := c.Handed(t, userId, sessionId, x);
    if x.sinkWorks && !Conflicts(t, CLEANUP_TOPIC, sessionId, c.digest(payload)) {
      var id := t.lastId + 1;
      assert u.rows[id].topic == CLEANUP_TOPIC && u.rows[id].aggregateId == sessionId;
      assert forall i | i in t.rows :: i != id && u.rows[i] == t.rows[i];
    }
  }

  /** Different invocations have different sessions. */
  lemma SessionsDiffer(a: string, b: string)
    ensures SessionId(a) == SessionId(b) <==> a == b
  {
    assert a == SessionId(a)[|"caffemate-"|..] && b == SessionId(b)[|"caffemate-"|..];
  }

  /** After the call the session of an attempt is in the outbox exactly if the attempt took place, its stream raised
      or reported the failed deletion where the client reads it, and the outbox took the row. */
  lemma {:induction false} QueuedExactly(c: RuntimeClient, task: Task, run: Run, t: Tables, n: nat, k: nat)
    requires run.Complete() && n <= 3 && k < 3
    requires run.ids[0] != run.ids[1] && run.ids[0] != run.ids[2] && run.ids[1] != run.ids[2]
    requires Numbered(t) && !Queued(t, SessionId(run.ids[k]))
    ensures Numbered(c.TablesAfter(task, run, t, n))
    ensures Queued(c.TablesAfter(task, run, t, n), SessionId(run.ids[k])) <==>
      k < n && run.Reached(task, k) && c.HandsOver(task, run.exchanges[k]) && run.exchanges[k].sinkWorks
  {
    hide c.HandsOver, c.Handed, Run.Reached, Queued, Numbered, SessionId;
    if n > 0 {
      QueuedExactly(c, task, run, t, n - 1, k);
      var x := run.exchanges[n - 1];
      SessionsDiffer(run.ids[n - 1], run.ids[k]);
      HandedQueues(c, c.TablesAfter(task, run, t, n - 1), task.userId, SessionId(run.ids[n - 1]), x, SessionId(run.ids[k]));
    }
  }
}
