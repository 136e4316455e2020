/** Which failed deletions of sessions reach the cleanup outbox.

    The Runtime deletes the session when its run is over and says so, last of all, if that fails. What the
    Control API makes of it depends on what came before.
  */
module CleanupReports {
  import opened Json
  import opened RuntimeStreams
  import opened TransportRetries

  // ---- The Runtime's server ----

  /** An error as the server sees it: its code, the status of the provider behind it, and whether it is one of the
      agents' own classes. */
  datatype ServerError = ServerError(code: Option<string>, providerStatus: Option<int>, agentClass: bool)

  predicate TerminalCode(code: string) {
    || code == "MODEL_JSON_INVALID" || code == "RESULT_ECHO_MISMATCH" || code == "RESULT_SCHEMA_INVALID"
    || code == "RESULT_SEMANTIC_INVALID" || code == "SAFETY_BLOCKED"
    || code == "VERTEX_MODEL_RESPONSE_INCOMPLETE" || code == "VERTEX_MODEL_RESPONSE_INVALID"
  }

  /** The status and the code that the client is told. */
  function RuntimeHttpFailure(e: ServerError): (int, string) {
    var status := e.providerStatus;
    var named := e.code.Some? && e.code.value != "";
    if e.code == Some(TIMED_OUT) then (500, TIMED_OUT)
    else if
      || (status.Some? && 400 <= status.value < 500 && status.value != 408 && status.value != 429)
      || (named && TerminalCode(e.code.value))
      || (named && e.agentClass && status.None?)
    then (422, if e.code.Some? then e.code.value else OUTPUT_INVALID)
    else (500, if e.code == Some(CLEANUP_FAILED) then CLEANUP_FAILED else "RUNTIME_EXECUTION_FAILED")
  }

  /** A run of the agent: the events it yields, the error it ends with if it does, and whether its session was
      deleted afterwards. */
  datatype Execution = Execution(events: seq<Json>, thrown: Option<ServerError>, deleted: bool)

  /** The error that ends the stream: the agent's own before that of the deletion. */
  function EndingError(x: Execution): Option<ServerError> {
    if x.thrown.Some? then x.thrown
    else if x.deleted then None
    else Some(ServerError(Some(CLEANUP_FAILED), None, false))
  }

  function Chunk(event: Json): Json {
    Obj([Field("output", event)])
  }

  function ErrorChunk(code: string): Json {
    Obj([Field("error_code", Str(code))])
  }

  function Chunks(events: seq<Json>): seq<Json> {
    if events == [] then [] else Chunks(events[..|events| - 1]) + [Chunk(events[|events| - 1])]
  }

  /** What the server writes once it has begun to write. */
  function Written(x: Execution): seq<Json> {
    var error := EndingError(x);
    Chunks(x.events) + if error.Some? then [ErrorChunk(RuntimeHttpFailure(error.value).1)] else []
  }

  /** The values on the lines. */
  function Received(lines: seq<Line>): seq<Json> {
    if lines == [] then []
    else
      var (earlier, c) := (Received(lines[..|lines| - 1]), lines[|lines| - 1].content);
      if c.Value? then earlier + [c.value] else earlier
  }

  /** The reply is what the server wrote, with blank lines anywhere. An error before the first event is an
      HTTP status. */
  predicate Delivers(reply: Reply, x: Execution) {
    var error := EndingError(x);
    if error.Some? && x.events == [] then
      var (status, code) := RuntimeHttpFailure(error.value);
      reply.Status? && reply.status == status && reply.body == Some(Obj([Field("error", Str(code))]))
    else
      && reply.Streaming? && reply.broken.None?
      && (forall l | l in reply.lines :: !l.content.NotJson?)
      && Received(reply.lines) == Written(x)
  }

  /** The stream is out of time, by its timer or by the clock. */
  predicate Late(task: Task, x: Exchange) {
    var timeout := Timeout(task, x);
    || timeout <= 0.0 || x.reply.after > timeout
    || (x.reply.Streaming? && exists l | l in x.reply.lines ::
          l.after > timeout || task.deadline - l.clock <= STREAM_CLEANUP_RESERVE_SECONDS)
  }

  /** Every event the agent yields is one the client accepts. */
  predicate AllAccepted(events: seq<Json>, author: string, space: char -> bool) {
    forall e | e in events :: e.Obj? && !ReadEvent(e.fields, author, space).Refused?
  }

  predicate AllObjects(events: seq<Json>) {
    forall e | e in events :: e.Obj?
  }

  /** The server names the failed deletion: the agent did not end with another error. */
  predicate Named(x: Execution) {
    x.thrown.None? || x.thrown.value.code == Some(CLEANUP_FAILED)
  }

  lemma NamedByTheServer(x: Execution)
    requires !x.deleted
    ensures Named(x) <==> RuntimeHttpFailure(EndingError(x).value).1 == CLEANUP_FAILED
  {
  }

  // ---- From lines to events ----

  function EventsOf(values: seq<Json>): seq<Fields> {
    if values == [] then []
    else
      var (earlier, v) := (EventsOf(values[..|values| - 1]), values[|values| - 1]);
      if LineEvent(v).Some? then earlier + [LineEvent(v).value] else earlier
  }

  lemma {:induction false} EventsReceived(lines: seq<Line>)
    ensures Events(lines) == EventsOf(Received(lines))
    ensures forall v :: v in Received(lines) <==> exists l :: l in lines && l.content == Value(v)
  {
    hide LineEvent;
    if lines != [] {
      var n := |lines| - 1;
      EventsReceived(lines[..n]);
      var earlier := Received(lines[..n]);
      assert lines == lines[..n] + [lines[n]];
      if lines[n].content.Value? {
        assert (earlier + [lines[n].content.value])[..|earlier|] == earlier;
      }
    }
  }

  lemma ChunkEvent(event: Json)
    ensures LineEvent(Chunk(event)) == if event.Obj? then Some(event.fields) else None
  {
    NoMembers();
    Prepended(Field("output", event), []);
    assert [Field("output", event)] + [] == [Field("output", event)];
  }

  lemma ErrorEvent(code: string)
    ensures LineEvent(ErrorChunk(code)) == Some([Field("error_code", Str(code))])
    ensures ObservedError([Field("error_code", Str(code))]) == Some(Str(code))
  {
    var f := Field("error_code", Str(code));
    NoMembers();
    Prepended(f, []);
    assert [f] + [] == [f];
  }

  function FieldsOf(events: seq<Json>): seq<Fields>
    requires AllObjects(events)
  {
    seq(|events|, i requires 0 <= i < |events| => events[i].fields)
  }

  lemma {:induction false} ChunksRead(events: seq<Json>)
    ensures |Chunks(events)| == |events| && forall i | 0 <= i < |events| :: Chunks(events)[i] == Chunk(events[i])
    ensures AllObjects(events) ==> EventsOf(Chunks(events)) == FieldsOf(events)
  {
    hide LineEvent, Chunk;
    if events != [] {
      var n := |events| - 1;
      ChunksRead(events[..n]);
      ChunkEvent(events[n]);
      assert Chunks(events)[..n] == Chunks(events[..n]);
      assert forall i | 0 <= i < n :: events[..n][i] == events[i];
    }
  }

  lemma EventsOfMore(values: seq<Json>, v: Json)
    requires LineEvent(v).Some?
    ensures EventsOf(values + [v]) == EventsOf(values) + [LineEvent(v).value]
  {
    hide LineEvent;
    assert (values + [v])[..|values|] == values;
  }

  // ---- What the client makes of it ----

  /** The stream raises if it is late, if the server could not begin, or if an event is no object. */
  lemma RaisesExactly(task: Task, x: Execution, e: Exchange)
    requires Delivers(e.reply, x) && EndingError(x).Some?
    ensures StreamRaises(task, e) <==> Late(task, e) || x.events == [] || !AllObjects(x.events)
  {
    hide LineEvent, EndingError, RuntimeHttpFailure, Chunk, ErrorChunk, Chunks, Received;
    if x.events != [] {
      var lines := e.reply.lines;
      EventsReceived(lines);
      ChunksRead(x.events);
      var code := RuntimeHttpFailure(EndingError(x).value).1;
      ErrorEvent(code);
      assert Written(x) == Chunks(x.events) + [ErrorChunk(code)];
      if i: nat :| i < |x.events| && !x.events[i].Obj? {
        ChunkEvent(x.events[i]);
        assert Written(x)[i] in Received(lines);
      }
      if AllObjects(x.events) {
        forall l | l in lines && l.content.Value? ensures LineEvent(l.content.value).Some? {
          assert l.content.value in Written(x);
          var i: nat :| i < |Written(x)| && Written(x)[i] == l.content.value;
          if i < |x.events| {
            ChunkEvent(x.events[i]);
          }
        }
      }
    }
  }

  /** The events behind the objects of the agent and the error chunk. */
  lemma DeliveredEvents(x: Execution, reply: Reply)
    requires Delivers(reply, x) && EndingError(x).Some? && x.events != [] && AllObjects(x.events)
    ensures Events(reply.lines) ==
      FieldsOf(x.events) + [[Field("error_code", Str(RuntimeHttpFailure(EndingError(x).value).1))]]
  {
    hide LineEvent, EndingError, RuntimeHttpFailure, Chunk, ErrorChunk, Chunks, Received, FieldsOf;
    EventsReceived(reply.lines);
    ChunksRead(x.events);
    var code := RuntimeHttpFailure(EndingError(x).value).1;
    ErrorEvent(code);
    EventsOfMore(Chunks(x.events), ErrorChunk(code));
  }

  /** A report behind events is heard if and only if none of them is refused. */
  lemma HeardBehind(events: seq<Json>, code: string, author: string, space: char -> bool)
    requires AllObjects(events)
    ensures ReportHeard(FieldsOf(events) + [[Field("error_code", Str(code))]], author, space) <==>
      || (code == CLEANUP_FAILED && AllAccepted(events, author, space))
      || ReportHeard(FieldsOf(events), author, space)
  {
    hide ReadEvent;
    var (all, before) := (FieldsOf(events) + [[Field("error_code", Str(code))]], FieldsOf(events));
    ErrorEvent(code);
    assert all[..|before|] == before;
    assert NoneRefused(before, author, space) <==> AllAccepted(events, author, space) by {
      assert forall i | 0 <= i < |events| :: before[i] == events[i].fields && before[i] in before;
    }
    if k: nat :| k < |all| && ReportsCleanup(all[k]) && NoneRefused(all[..k], author, space) {
      if k < |before| {
        assert all[..k] == before[..k] && all[k] == before[k];
      }
    }
    if k: nat :| k < |before| && ReportsCleanup(before[k]) && NoneRefused(before[..k], author, space) {
      assert all[..k] == before[..k] && all[k] == before[k];
    }
    if code == CLEANUP_FAILED && NoneRefused(before, author, space) {
      assert ReportsCleanup(all[|before|]) && NoneRefused(all[..|before|], author, space);
    }
  }

  function FieldsOrNone(events: seq<Json>): seq<Fields> {
    if AllObjects(events) then FieldsOf(events) else []
  }

  /** A session that could not be deleted is handed over exactly if the stream was late, or broke off before the first
      event or by one that is no object; or else if the deadline is not passed, and the agent ended without
      an error of its own and the client accepts every event before the report. (An agent that itself
      yields the report where the client reads it has the session handed over as well.) */
  lemma FailedDeletionHanded(c: RuntimeClient, task: Task, x: Execution, e: Exchange)
    requires !x.deleted && Delivers(e.reply, x) && e.entered < task.deadline
    ensures c.HandsOver(task, e) <==>
      || Late(task, e) || x.events == [] || !AllObjects(x.events)
      || (e.checked < task.deadline
          && ((Named(x) && AllAccepted(x.events, task.agentName, c.space))
              || ReportHeard(FieldsOrNone(x.events), task.agentName, c.space)))
  {
    hide ReportHeard, Events, Late, RuntimeHttpFailure, FieldsOf, AllAccepted, Delivers, Named;
    RaisesExactly(task, x, e);
    if !StreamRaises(task, e) {
      DeliveredEvents(x, e.reply);
      NamedByTheServer(x);
      HeardBehind(x.events, RuntimeHttpFailure(EndingError(x).value).1, task.agentName, c.space);
    }
  }

  // ---- Reports that are lost ----

  function OnLines(values: seq<Json>): seq<Line> {
    if values == [] then []
    else OnLines(values[..|values| - 1]) + [Line(1.0, 1.0, Value(values[|values| - 1]))]
  }

  lemma {:induction false} OnLinesReceived(values: seq<Json>)
    ensures Received(OnLines(values)) == values
    ensures forall l | l in OnLines(values) :: l.after == 1.0 && l.clock == 1.0 && l.content.Value?
  {
    if values != [] {
      var n := |values| - 1;
      OnLinesReceived(values[..n]);
      var before := OnLines(values[..n]);
      assert OnLines(values)[..|before|] == before;
    }
  }

  const RESEARCH := Task("p-1", "EVIDENCE_RESEARCHER", 100.0)

  /** An exchange in time: everything arrives in the first second of a hundred. */
  function Prompt(x: Execution, checked: real): Exchange {
    Exchange(0.0, 0.0, Streaming(OnLines(Written(x)), 1.0, None), checked, checked, true, 0)
  }

  lemma PromptDelivers(x: Execution, checked: real)
    requires x.events != []
    ensures Delivers(Prompt(x, checked).reply, x) && !Late(RESEARCH, Prompt(x, checked))
  {
    hide Written;
    OnLinesReceived(Written(x));
  }

  /** An event of the agent asked for, and one of another. */
  const OWN_EVENT := Obj([Field("author", Str("EVIDENCE_RESEARCHER")), Field("partial", Bool(true)),
                          Field("content", Obj([Field("parts", Arr([Null]))]))])
  const STRAY_EVENT := Obj([Field("author", Str("CANDIDATE_AUDITOR")), Field("content", Obj([]))])

  lemma OwnMembers()
    ensures Get(OWN_EVENT.fields, "author") == Some(Str("EVIDENCE_RESEARCHER"))
    ensures Get(OWN_EVENT.fields, "partial") == Some(Bool(true))
    ensures Parts(OWN_EVENT.fields) == Some([Null])
  {
    var (author, partial) := (Field("author", Str("EVIDENCE_RESEARCHER")), Field("partial", Bool(true)));
    var parts := Field("parts", Arr([Null]));
    var content := Field("content", Obj([parts]));
    assert OWN_EVENT.fields == [author, partial] + [content];
    hide Get, Keys;
    NoMembers();
    Prepended(content, []);
    assert [content] + [] == [content];
    TwoMore(author, partial, [content]);
    Prepended(parts, []);
    assert [parts] + [] == [parts];
  }

  lemma WitnessEvents(space: char -> bool)
    ensures ReadEvent(OWN_EVENT.fields, "EVIDENCE_RESEARCHER", space) == Partial
    ensures ReadEvent(STRAY_EVENT.fields, "EVIDENCE_RESEARCHER", space) == Refused(Terminal(PROTOCOL_INVALID))
  {
    TwoMembers(Field("author", Str("CANDIDATE_AUDITOR")), Field("content", Obj([])));
    assert Get(STRAY_EVENT.fields, "author") == Some(Str("CANDIDATE_AUDITOR"));
    hide Get, Keys, Fenced, Parts;
    OwnMembers();
    Unnamed("error_code");
    Unnamed("errorCode");
  }

  lemma Unnamed(key: string)
    requires key != "author" && key != "partial" && key != "content"
    ensures Get(OWN_EVENT.fields, key) == None && Get(STRAY_EVENT.fields, key) == None
  {
    hide Get, Keys;
    var (own, stray) := (OWN_EVENT.fields, STRAY_EVENT.fields);
    NoMembers();
    Prepended(own[2], []);
    Prepended(own[1], [own[2]]);
    Prepended(own[0], [own[1], own[2]]);
    assert [own[2]] + [] == [own[2]] && [own[1]] + [own[2]] == [own[1], own[2]] && own == [own[0]] + [own[1], own[2]];
    Prepended(stray[1], []);
    Prepended(stray[0], [stray[1]]);
    assert [stray[1]] + [] == [stray[1]] && stray == [stray[0]] + [stray[1]];
  }

  /** The session was not deleted and every line arrived at once, yet nothing is handed over: because an event of
      another agent came first, because the agent ended with an error of its own, or because the
      deadline passed before the client read the events. */
  lemma ReportsLost(c: RuntimeClient, thrown: ServerError)
    requires thrown.code != Some(CLEANUP_FAILED)
    ensures
      var stray := Execution([STRAY_EVENT], None, false);
      var failed := Execution([OWN_EVENT], Some(thrown), false);
      var slow := Execution([OWN_EVENT], None, false);
      && Delivers(Prompt(stray, 2.0).reply, stray) && !c.HandsOver(RESEARCH, Prompt(stray, 2.0))
      && Delivers(Prompt(failed, 2.0).reply, failed) && !c.HandsOver(RESEARCH, Prompt(failed, 2.0))
      && Delivers(Prompt(slow, 100.0).reply, slow) && !c.HandsOver(RESEARCH, Prompt(slow, 100.0))
      && c.HandsOver(RESEARCH, Prompt(slow, 2.0))
  {
    hide c.HandsOver, Prompt, Delivers, Late, ReportHeard, FieldsOf, ReadEvent;
    var (stray, failed, slow) := (Execution([STRAY_EVENT], None, false), Execution([OWN_EVENT], Some(thrown), false),
                                  Execution([OWN_EVENT], None, false));
    WitnessEvents(c.space);
    PromptReadings();
    PromptDelivers(stray, 2.0);
    PromptDelivers(failed, 2.0);
    PromptDelivers(slow, 100.0);
    PromptDelivers(slow, 2.0);
    NotHeard(STRAY_EVENT, c.space);
    NotHeard(OWN_EVENT, c.space);
    FailedDeletionHanded(c, RESEARCH, stray, Prompt(stray, 2.0));
    FailedDeletionHanded(c, RESEARCH, failed, Prompt(failed, 2.0));
    FailedDeletionHanded(c, RESEARCH, slow, Prompt(slow, 100.0));
    FailedDeletionHanded(c, RESEARCH, slow, Prompt(slow, 2.0));
    assert STRAY_EVENT in stray.events;
  }

  lemma PromptReadings()
    ensures forall x, checked :: Prompt(x, checked).entered == 0.0 && Prompt(x, checked).checked == checked
  {
  }

  lemma NotHeard(event: Json, space: char -> bool)
    requires event == OWN_EVENT || event == STRAY_EVENT
    ensures !ReportHeard(FieldsOrNone([event]), "EVIDENCE_RESEARCHER", space)
  {
    hide ReadEvent;
    Unnamed("error_code");
    Unnamed("errorCode");
    assert FieldsOrNone([event]) == [event.fields];
    assert !ReportsCleanup(event.fields);
  }
}
