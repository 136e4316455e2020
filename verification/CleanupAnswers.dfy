/** What a delete came to decides what is written down about its row: in every run of the outbox protocol each
    outcome of a cleanup row answers the one delete that was tried under its claim.
  */
module CleanupAnswers {
  import opened Json
  import opened Outbox
  import opened DeadLetters
  import opened AgentCleanup
  import opened CleanupProtocol

  // ---- What a history says ----

  /** The claims since the row was inserted or last reprocessed. */
  function GrantsSinceReset(h: History): nat {
    if h == [] || h[|h| - 1].Reset? then 0
    else GrantsSinceReset(h[..|h| - 1]) + if h[|h| - 1].Granted? then 1 else 0
  }

  /** What has to be written down after the `n`-th claim. */
  function Answer(outcome: DeleteOutcome, n: nat, aggregateId: string): Decision {
    match outcome
    case Returned => Publish("direct-cleanup:" + aggregateId)
    case ValueError => GiveUp("AGENT_CLEANUP_SCOPE_INVALID")
    case AgentRuntimeError => if n > 4 then GiveUp("AGENT_CLEANUP_RETRY_EXHAUSTED") else Retry([1, 2, 4, 8, 16][n])
  }

  predicate Answers(row: Row, h: History, i: int, j: int) {
    && 0 <= i < j < |h| && h[i].Tried? && h[j].Written?
    && h[i].token == h[j].token && h[i].payload == row.payload
    && h[j].decision == Answer(h[i].outcome, GrantsSinceReset(h[..j]), row.aggregateId)
  }

  ghost predicate Answered(row: Row, h: History, j: int) {
    && 0 <= j < |h| && h[j].Written?
    && if NamesSession(row.topic, row.payload) then exists i :: Answers(row, h, i, j)
       else h[j].decision == GiveUp("AGENT_CLEANUP_PAYLOAD_INVALID")
  }

  /** No claim tries more than one delete. */
  predicate TriedOnce(h: History) {
    forall i, j | 0 <= i < j < |h| && h[i].Tried? && h[j].Tried? :: h[i].token != h[j].token
  }

  predicate NeverTried(h: History, token: string) {
    forall i | 0 <= i < |h| && h[i].Tried? :: h[i].token != token
  }

  // ---- The invariant ----

  ghost predicate RowAnswered(row: Row, h: History, issued: set<string>) {
    && GrantsSinceReset(h) == row.attempts
    && (forall j | 0 <= j < |h| && h[j].Written? :: Answered(row, h, j))
    && TriedOnce(h)
    && forall i | 0 <= i < |h| && h[i].Tried? :: h[i].token in issued
  }

  ghost predicate DecisionAnswers(m: Message, decision: Decision, h: History) {
    if NamesSession(m.topic, m.payload) then
      exists outcome ::
        Tried(m.claimToken, m.payload, outcome) in h && decision == Answer(outcome, m.attempts, m.aggregateId)
    else decision == GiveUp("AGENT_CLEANUP_PAYLOAD_INVALID")
  }

  ghost predicate WorkAnswered(s: System, work: Work) {
    work.Idle? || work.message.topic != CLEANUP_TOPIC ||
    var m := work.message;
    && m.outboxId in s.tables.rows && m.outboxId in s.histories
    && m.aggregateId == s.tables.rows[m.outboxId].aggregateId
    && match work
       case Holding(_, _) => NeverTried(s.histories[m.outboxId], m.claimToken)
       case Decided(_, decision) => DecisionAnswers(m, decision, s.histories[m.outboxId])
       case Idle => true
  }

  /** No two workers hold claims made with the same token. */
  predicate TokensApart(s: System) {
    forall w, u | w in s.workers && u in s.workers && w != u && !s.workers[w].Idle? && !s.workers[u].Idle? ::
      s.workers[w].message.claimToken != s.workers[u].message.claimToken
  }

  ghost predicate AllAnswered(s: System) {
    && (forall id | id in s.tables.rows && s.tables.rows[id].topic == CLEANUP_TOPIC ::
          id in s.histories && RowAnswered(s.tables.rows[id], s.histories[id], s.issued))
    && (forall worker | worker in s.workers :: WorkAnswered(s, s.workers[worker]))
    && TokensApart(s)
  }

  // ---- One row, one entry more ----

  predicate SameSubject(row: Row, row': Row) {
    (row'.topic, row'.aggregateId, row'.payload) == (row.topic, row.aggregateId, row.payload)
  }

  lemma RowStands(row: Row, row': Row, h: History, issued: set<string>, issued': set<string>)
    requires RowAnswered(row, h, issued) && SameSubject(row, row') && row'.attempts == row.attempts && issued <= issued'
    ensures RowAnswered(row', h, issued')
  {
    forall j | 0 <= j < |h| && h[j].Written? ensures Answered(row', h, j) {
      assert Answered(row, h, j);
      if i :| Answers(row, h, i, j) {
        assert Answers(row', h, i, j);
      }
    }
  }

  lemma RowNotes(row: Row, row': Row, h: History, e: Entry, issued: set<string>, issued': set<string>)
    requires RowAnswered(row, h, issued) && SameSubject(row, row') && issued <= issued'
    requires row'.attempts == if e.Reset? then 0 else row.attempts + if e.Granted? then 1 else 0
    requires e.Tried? ==> NeverTried(h, e.token) && e.token in issued'
    requires e.Written? ==> Answered(row, h + [e], |h|)
    ensures RowAnswered(row', h + [e], issued')
  {
    hide NamesSession, Answer;
    var g := h + [e];
    assert g[..|h|] == h;
    forall j | 0 <= j < |g| && g[j].Written? ensures Answered(row', g, j) {
      if j < |h| {
        assert g[..j] == h[..j];
        assert Answered(row, h, j);
        if i :| Answers(row, h, i, j) {
          assert Answers(row', g, i, j);
        }
      } else if i :| Answers(row, g, i, j) {
        assert Answers(row', g, i, j);
      }
    }
  }

  /** The worker that settles has the answer to its own delete. */
  lemma AnswerWritten(row: Row, h: History, m: Message, decision: Decision)
    requires DecisionAnswers(m, decision, h)
    requires m.topic == row.topic && m.payload == row.payload && m.aggregateId == row.aggregateId
    requires m.attempts == GrantsSinceReset(h)
    ensures Answered(row, h + [Written(m.claimToken, decision)], |h|)
  {
    hide NamesSession, Answer;
    var g := h + [Written(m.claimToken, decision)];
    assert g[..|h|] == h;
    if NamesSession(m.topic, m.payload) {
      var outcome :| Tried(m.claimToken, m.payload, outcome) in h && decision == Answer(outcome, m.attempts, m.aggregateId);
      var i :| 0 <= i < |h| && h[i] == Tried(m.claimToken, m.payload, outcome);
      assert Answers(row, g, i, |h|);
    }
  }

  lemma DecideAnswers(m: Message, outcome: DeleteOutcome)
    ensures Decide(m, outcome) ==
      if NamesSession(m.topic, m.payload) then Answer(outcome, m.attempts, m.aggregateId)
      else GiveUp("AGENT_CLEANUP_PAYLOAD_INVALID")
  {
    hide NamesSession, ValidPayload;
    PayloadNamed(m);
    FirstPowers();
  }

  // ---- Every step keeps the invariant ----

  predicate CleanupRow(s: System, id: nat) {
    id in s.tables.rows && s.tables.rows[id].topic == CLEANUP_TOPIC
  }

  lemma WorkersRow(s: System, work: Work)
    requires WorkKept(s, work) && Kept(s) && !work.Idle? && work.message.topic == CLEANUP_TOPIC
    ensures CleanupRow(s, work.message.outboxId) && work.message.outboxId in s.histories
    ensures var row := s.tables.rows[work.message.outboxId];
      && work.message.payload == row.payload && work.message.claimToken in s.issued
      && (row.claim == Some(Sha256(work.message.claimToken)) ==> work.message.attempts == row.attempts)
  {
  }

  /** A step that leaves the rows' histories and the workers alone. */
  lemma QuietStep(s: System, s': System)
    requires Kept(s) && AllAnswered(s) && s'.workers == s.workers && s.issued == s'.issued
    requires forall id | CleanupRow(s, id) ::
      id in s'.tables.rows && id in s.histories && id in s'.histories && SameSubject(s.tables.rows[id], s'.tables.rows[id])
      && (|| (s'.histories[id] == s.histories[id] && s'.tables.rows[id].attempts == s.tables.rows[id].attempts)
          || (s'.histories[id] == s.histories[id] + [Reset] && s'.tables.rows[id].attempts == 0))
    requires forall id | CleanupRow(s', id) && !CleanupRow(s, id) ::
      id in s'.histories && s'.histories[id] == [] && s'.tables.rows[id].attempts == 0
    ensures AllAnswered(s')
  {
    hide RowAnswered, WorkAnswered, WorkKept, RowKept;
    forall id | CleanupRow(s', id) ensures id in s'.histories && RowAnswered(s'.tables.rows[id], s'.histories[id], s'.issued) {
      if CleanupRow(s, id) {
        if s'.histories[id] == s.histories[id] {
          RowStands(s.tables.rows[id], s'.tables.rows[id], s.histories[id], s.issued, s'.issued);
        } else {
          RowNotes(s.tables.rows[id], s'.tables.rows[id], s.histories[id], Reset, s.issued, s'.issued);
        }
      } else {
        NothingToAnswer(s'.tables.rows[id], s'.issued);
      }
    }
    forall worker | worker in s'.workers ensures WorkAnswered(s', s'.workers[worker]) {
      OtherWork(s, s', worker, Reset);
    }
  }

  lemma NothingToAnswer(row: Row, issued: set<string>)
    requires row.attempts == 0
    ensures RowAnswered(row, [], issued)
  {
  }

  /** A worker's knowledge survives an entry that is no delete under its claim. */
  lemma OtherWork(s: System, s': System, worker: nat, e: Entry)
    requires Kept(s) && AllAnswered(s) && worker in s.workers && NotTheirs(s.workers[worker], e)
    requires forall id | CleanupRow(s, id) :: Continues(s, s', id, e)
    ensures WorkAnswered(s', s.workers[worker])
  {
    hide RowAnswered, NeverTried, DecisionAnswers, RowKept;
    var work := s.workers[worker];
    assert WorkKept(s, work) && WorkAnswered(s, work);
    if !work.Idle? && work.message.topic == CLEANUP_TOPIC {
      var id := work.message.outboxId;
      WorkersRow(s, work);
      assert CleanupRow(s, id) && Continues(s, s', id, e);
      MoreKnown(work, s.histories[id], e);
    }
  }

  predicate NotTheirs(work: Work, e: Entry) {
    !work.Idle? && e.Tried? ==> e.token != work.message.claimToken
  }

  predicate Continues(s: System, s': System, id: nat, e: Entry)
    requires id in s.tables.rows
  {
    && id in s'.tables.rows && id in s.histories && id in s'.histories
    && SameSubject(s.tables.rows[id], s'.tables.rows[id])
    && (s'.histories[id] == s.histories[id] || s'.histories[id] == s.histories[id] + [e])
  }

  /** An entry that is no delete under the worker's claim leaves its knowledge true. */
  lemma MoreKnown(work: Work, h: History, e: Entry)
    requires !work.Idle? && (e.Tried? ==> e.token != work.message.claimToken)
    ensures NeverTried(h, work.message.claimToken) ==> NeverTried(h + [e], work.message.claimToken)
    ensures work.Decided? && DecisionAnswers(work.message, work.decision, h) ==>
      DecisionAnswers(work.message, work.decision, h + [e])
  {
    hide NamesSession, Answer;
  }

  lemma ClaimAnswers(s: System, a: Action)
    requires Kept(s) && AllAnswered(s) && a.Claim? && Enabled(s, a)
    ensures AllAnswered(Next(s, a))
  {
    hide RowAnswered, RowKept, WorkKept;
    var s' := Next(s, a);
    var e := Granted(a.token, a.now);
    forall id | CleanupRow(s', id) ensures id in s'.histories && RowAnswered(s'.tables.rows[id], s'.histories[id], s'.issued) {
      assert CleanupRow(s, id);
      if id == a.id {
        RowNotes(s.tables.rows[id], s'.tables.rows[id], s.histories[id], e, s.issued, s'.issued);
      } else {
        RowStands(s.tables.rows[id], s'.tables.rows[id], s.histories[id], s.issued, s'.issued);
      }
    }
    forall worker | worker in s'.workers ensures WorkAnswered(s', s'.workers[worker]) {
      if worker != a.worker {
        OtherWork(s, s', worker, e);
      } else if s.tables.rows[a.id].topic == CLEANUP_TOPIC {
        FreshToken(s, a.id, e);
      }
    }
    NewToken(s, s', a);
  }

  lemma FreshToken(s: System, id: nat, e: Entry)
    requires AllAnswered(s) && CleanupRow(s, id) && e.Granted? && e.token !in s.issued
    ensures NeverTried(s.histories[id] + [e], e.token)
  {
    assert RowAnswered(s.tables.rows[id], s.histories[id], s.issued);
  }

  lemma NewToken(s: System, s': System, a: Action)
    requires Kept(s) && TokensApart(s) && a.Claim? && a.token !in s.issued
    requires s'.workers.Keys == s.workers.Keys + {a.worker} && !s'.workers[a.worker].Idle?
    requires s'.workers[a.worker].message.claimToken == a.token
    requires forall w | w in s.workers && w != a.worker :: s'.workers[w] == s.workers[w]
    ensures TokensApart(s')
  {
    hide RowKept, EventsKept;
    forall w | w in s.workers && !s.workers[w].Idle? ensures s.workers[w].message.claimToken in s.issued {
      assert WorkKept(s, s.workers[w]);
    }
  }

  /** A step that gives one worker nothing new to hold. */
  lemma TokensStay(s: System, s': System, worker: nat)
    requires TokensApart(s) && worker in s.workers && worker in s'.workers
    requires s'.workers == s.workers[worker := s'.workers[worker]]
    requires !s'.workers[worker].Idle? ==>
      !s.workers[worker].Idle? && s'.workers[worker].message == s.workers[worker].message
    ensures TokensApart(s')
  {
  }

  lemma DeleteAnswers(s: System, a: Action)
    requires Kept(s) && AllAnswered(s) && a.Delete? && Enabled(s, a)
    ensures AllAnswered(Next(s, a))
  {
    hide RowAnswered, RowKept, Decide, ValidPayload, NamesSession, DecisionAnswers, NeverTried;
    var (s', m) := (Next(s, a), WorkOf(s, a.worker).message);
    var e := Tried(m.claimToken, m.payload, a.outcome);
    assert WorkKept(s, s.workers[a.worker]) && WorkAnswered(s, s.workers[a.worker]);
    WorkersRow(s, s.workers[a.worker]);
    forall id | CleanupRow(s', id) ensures id in s'.histories && RowAnswered(s'.tables.rows[id], s'.histories[id], s'.issued) {
      if id == m.outboxId && s'.histories != s.histories {
        RowNotes(s.tables.rows[id], s'.tables.rows[id], s.histories[id], e, s.issued, s'.issued);
      }
    }
    hide WorkKept;
    forall worker | worker in s'.workers ensures WorkAnswered(s', s'.workers[worker]) {
      if worker != a.worker {
        OtherWork(s, s', worker, e);
      } else {
        Tries(m, a.outcome, s.histories[m.outboxId]);
      }
    }
    TokensStay(s, s', a.worker);
  }

  lemma Tries(m: Message, outcome: DeleteOutcome, h: History)
    ensures DecisionAnswers(m, Decide(m, outcome),
                            if ValidPayload(m) then h + [Tried(m.claimToken, m.payload, outcome)] else h)
  {
    hide NamesSession, ValidPayload, Answer, Decide;
    DecideAnswers(m, outcome);
    PayloadNamed(m);
    assert Tried(m.claimToken, m.payload, outcome) in h + [Tried(m.claimToken, m.payload, outcome)];
  }

  lemma SettleAnswers(s: System, a: Action)
    requires Kept(s) && AllAnswered(s) && a.Settle? && Enabled(s, a)
    ensures AllAnswered(Next(s, a))
  {
    hide RowAnswered, RowKept, NamesSession, DecisionAnswers, NeverTried;
    var (s', m, decision) := (Next(s, a), WorkOf(s, a.worker).message, WorkOf(s, a.worker).decision);
    var e := Written(m.claimToken, decision);
    assert WorkKept(s, s.workers[a.worker]) && WorkAnswered(s, s.workers[a.worker]);
    forall id | CleanupRow(s', id) ensures id in s'.histories && RowAnswered(s'.tables.rows[id], s'.histories[id], s'.issued) {
      if id == m.outboxId && HoldsClaim(s.tables, id, m.claimToken) {
        RowAttempts(s, id);
        AnswerWritten(s.tables.rows[id], s.histories[id], m, decision);
        RowNotes(s.tables.rows[id], s'.tables.rows[id], s.histories[id], e, s.issued, s'.issued);
      }
    }
    hide WorkKept;
    forall worker | worker in s'.workers ensures WorkAnswered(s', s'.workers[worker]) {
      if worker != a.worker {
        OtherWork(s, s', worker, e);
      }
    }
    TokensStay(s, s', a.worker);
  }

  lemma RowAttempts(s: System, id: nat)
    requires AllAnswered(s) && CleanupRow(s, id)
    ensures s.tables.rows[id].attempts == GrantsSinceReset(s.histories[id])
  {
    assert RowAnswered(s.tables.rows[id], s.histories[id], s.issued);
  }

  /** A delivery and a crash change nothing but one worker, which does no cleanup or stops. */
  lemma WorkersStepAnswers(s: System, a: Action, worker: nat)
    requires Kept(s) && AllAnswered(s) && Enabled(s, a) && (a == Crash(worker) || (a.Deliver? && a.worker == worker))
    ensures AllAnswered(Next(s, a))
  {
    hide RowAnswered, RowKept, DecisionAnswers, NeverTried;
    if worker in s.workers {
      assert WorkKept(s, s.workers[worker]);
      TokensStay(s, Next(s, a), worker);
    }
  }

  lemma OtherStepAnswers(s: System, a: Action)
    requires Kept(s) && AllAnswered(s) && Enabled(s, a) && (a.Enqueue? || a.Reprocess? || a.Remove?)
    ensures AllAnswered(Next(s, a))
  {
    hide RowAnswered, WorkAnswered, RowKept, WorkKept;
    QuietStep(s, Next(s, a));
  }

  lemma StepAnswers(s: System, a: Action)
    requires Kept(s) && AllAnswered(s) && Enabled(s, a)
    ensures AllAnswered(Next(s, a))
  {
    hide Kept, AllAnswered, Next;
    match a
    case Claim(_, _, _, _, _, _) => ClaimAnswers(s, a);
    case Delete(_, _) => DeleteAnswers(s, a);
    case Settle(_, _) => SettleAnswers(s, a);
    case Deliver(worker, _) => WorkersStepAnswers(s, a, worker);
    case Crash(worker) => WorkersStepAnswers(s, a, worker);
    case _ => OtherStepAnswers(s, a);
  }

  lemma {:induction false} RunAnswers(s: System, run: seq<Action>)
    requires Kept(s) && AllAnswered(s) && Possible(s, run)
    ensures Kept(After(s, run)) && AllAnswered(After(s, run))
    decreases |run|
  {
    hide Kept, AllAnswered, Next, Enabled;
    if run != [] {
      StepKeeps(s, run[0]);
      StepAnswers(s, run[0]);
      RunAnswers(Next(s, run[0]), run[1..]);
    }
  }

  // ---- In every run ----

  lemma AllReached(run: seq<Action>)
    requires Possible(INITIAL, run)
    ensures Kept(After(INITIAL, run)) && AllAnswered(After(INITIAL, run))
  {
    RunAnswers(INITIAL, run);
  }

  lemma {:induction false} OpenIsCounted(h: History)
    requires Open(h).Some?
    ensures GrantsSinceReset(h) >= 1
  {
    if !h[|h| - 1].Granted? {
      OpenIsCounted(h[..|h| - 1]);
    }
  }

  /** Every outcome of a cleanup row that names a session answers the one delete that was tried under its claim:
      published if and only if the delete returned, given up for its scope if and only if it was refused, at whatever
      attempt, and if it failed, released for 2, 4, 8 or 16 seconds below the fifth attempt and given up after. Where no
      session is named, nothing but that is written. */
  lemma OutcomeAnswersDelete(run: seq<Action>, id: nat, j: nat) returns (i: int)
    requires Possible(INITIAL, run) && CleanupRow(After(INITIAL, run), id) && id in After(INITIAL, run).histories
    requires j < |After(INITIAL, run).histories[id]| && After(INITIAL, run).histories[id][j].Written?
    ensures
      var (row, h) := (After(INITIAL, run).tables.rows[id], After(INITIAL, run).histories[id]);
      var (decision, n) := (h[j].decision, GrantsSinceReset(h[..j]));
      if NamesSession(row.topic, row.payload) then
        && 0 <= i < j && h[i].Tried? && h[i].token == h[j].token && h[i].payload == row.payload
        && (forall q | 0 <= q < |h| && h[q].Tried? && h[q].token == h[j].token :: q == i)
        && (h[i].outcome == Returned <==> decision == Publish("direct-cleanup:" + row.aggregateId))
        && (h[i].outcome == ValueError <==> decision == GiveUp("AGENT_CLEANUP_SCOPE_INVALID"))
        && (h[i].outcome == AgentRuntimeError && n >= 5 <==> decision == GiveUp("AGENT_CLEANUP_RETRY_EXHAUSTED"))
        && (h[i].outcome == AgentRuntimeError && n < 5 <==> decision.Retry?)
        && (decision.Retry? ==> 1 <= n < 5 && decision.delaySeconds == [2, 4, 8, 16][n - 1])
      else decision == GiveUp("AGENT_CLEANUP_PAYLOAD_INVALID")
  {
    AllReached(run);
    var (row, h) := (After(INITIAL, run).tables.rows[id], After(INITIAL, run).histories[id]);
    assert RowAnswered(row, h, After(INITIAL, run).issued);
    assert RowKept(row, h, After(INITIAL, run).tables.events, id, After(INITIAL, run).issued);
    i := OneAnswer(row, h, j, After(INITIAL, run).issued);
    OpenIsCounted(h[..j]);
  }

  lemma OneAnswer(row: Row, h: History, j: nat, issued: set<string>) returns (i: int)
    requires RowAnswered(row, h, issued) && j < |h| && h[j].Written?
    ensures if NamesSession(row.topic, row.payload) then
        && Answers(row, h, i, j)
        && (forall q | 0 <= q < |h| && h[q].Tried? && h[q].token == h[j].token :: q == i)
      else h[j].decision == GiveUp("AGENT_CLEANUP_PAYLOAD_INVALID")
  {
    hide NamesSession;
    i := 0;
    assert Answered(row, h, j);
    if NamesSession(row.topic, row.payload) {
      i :| Answers(row, h, i, j);
    }
  }

  /** The settle of a worker that still holds the claim of a cleanup row leaves the row as the delete that it tried asks. */
  lemma SettleConcludes(run: seq<Action>, worker: nat, now: int) returns (outcome: DeleteOutcome)
    requires Possible(INITIAL, run) && Enabled(After(INITIAL, run), Settle(worker, now))
    requires var (s, m) := (After(INITIAL, run), WorkOf(After(INITIAL, run), worker).message);
      m.topic == CLEANUP_TOPIC && m.outboxId in s.tables.rows &&
      s.tables.rows[m.outboxId].status == PUBLISHING && s.tables.rows[m.outboxId].claim == Some(Sha256(m.claimToken))
    ensures
      var (s, m) := (After(INITIAL, run), WorkOf(After(INITIAL, run), worker).message);
      && m.outboxId in s.histories
      && Next(s, Settle(worker, now)).tables == s.tables.(rows := s.tables.rows[m.outboxId :=
           Concluded(s.tables.rows[m.outboxId], m, outcome, now)])
      && m.payload == s.tables.rows[m.outboxId].payload && m.aggregateId == s.tables.rows[m.outboxId].aggregateId
      && m.attempts == s.tables.rows[m.outboxId].attempts
      && (NamesSession(m.topic, m.payload) ==> Tried(m.claimToken, m.payload, outcome) in s.histories[m.outboxId])
  {
    hide NamesSession, RowKept, RowAnswered;
    AllReached(run);
    hide After, Possible;
    var s := After(INITIAL, run);
    var work := s.workers[worker];
    assert WorkKept(s, work) && WorkAnswered(s, work);
    WorkersRow(s, work);
    outcome := Asked(work.message, work.decision, s.histories[work.message.outboxId]);
    hide WorkKept, WorkAnswered, Kept, AllAnswered;
    AskedConcludes(work.message, work.decision, outcome, now);
  }

  lemma Asked(m: Message, decision: Decision, h: History) returns (outcome: DeleteOutcome)
    requires DecisionAnswers(m, decision, h)
    ensures NamesSession(m.topic, m.payload) ==> Tried(m.claimToken, m.payload, outcome) in h
    ensures decision == Decide(m, outcome)
  {
    hide NamesSession, Answer, Decide;
    outcome := Returned;
    if NamesSession(m.topic, m.payload) {
      outcome :| Tried(m.claimToken, m.payload, outcome) in h && decision == Answer(outcome, m.attempts, m.aggregateId);
    }
    DecideAnswers(m, outcome);
  }

  lemma AskedConcludes(m: Message, decision: Decision, outcome: DeleteOutcome, now: int)
    requires decision == Decide(m, outcome)
    ensures forall row: Row :: SettledRow(row, decision, now) == Concluded(row, m, outcome, now)
  {
    hide NamesSession, Decide, Concluded;
    DecideConcludes(m, outcome, now);
  }
}
