/** What the client of the Agent Runtime makes of statuses, lines, events and clocks, case by case. */
module RuntimeRules {
  import opened Json
  import opened Positions
  import AgentCleanup
  import opened RuntimeStreams
  import opened TransportRetries
  import opened CleanupReports

  // ---- An event ----

  /** The error that an event names: its `error_code` if it has that member, or else its `errorCode`. */
  predicate NamesError(event: Fields, error: Json) {
    error != Null &&
    if "error_code" in Keys(event) then Get(event, "error_code") == Some(error) else Get(event, "errorCode") == Some(error)
  }

  ghost predicate ErrorFree(event: Fields) {
    forall error :: !NamesError(event, error)
  }

  /** Item `i` of the parts of its content. */
  predicate HasParts(event: Fields, parts: seq<Json>) {
    && Get(event, "content").Some? && In(Get(event, "content").value, "parts") == Some(Arr(parts))
  }

  predicate WrittenBy(event: Fields, author: string) {
    Get(event, "author") == Some(Str(author))
  }

  /** The text has something to show, and no code fence. */
  predicate Shown(text: string, space: char -> bool) {
    && (exists i | 0 <= i < |text| :: !space(text[i]))
    && forall i | 0 <= i <= |text| - 3 :: !FenceAt(text, i)
  }

  predicate FenceAt(text: string, i: nat)
    requires i + 3 <= |text|
  {
    text[i..i + 3] == "```"
  }

  ghost predicate PartialRule(event: Fields, author: string) {
    && ErrorFree(event) && WrittenBy(event, author) && Get(event, "partial") == Some(Bool(true))
    && exists parts :: HasParts(event, parts) && parts != []
  }

  ghost predicate FinalRule(event: Fields, author: string, space: char -> bool, text: string) {
    && ErrorFree(event) && WrittenBy(event, author) && Get(event, "partial") != Some(Bool(true))
    && exists part :: HasParts(event, [part]) && part.Obj? && Keys(part.fields) == {"text"}
         && Get(part.fields, "text") == Some(Str(text)) && Shown(text, space)
  }

  lemma ErrorExactly(event: Fields, error: Json)
    ensures NamesError(event, error) <==> ObservedError(event) == Some(error)
  {
    hide Get;
  }

  lemma FreeExactly(event: Fields)
    ensures ErrorFree(event) <==> ObservedError(event).None?
  {
    hide ObservedError, NamesError;
    if ObservedError(event).Some? {
      ErrorExactly(event, ObservedError(event).value);
    }
    forall error ensures NamesError(event, error) <==> ObservedError(event) == Some(error) {
      ErrorExactly(event, error);
    }
  }

  lemma PartsExactly(event: Fields, parts: seq<Json>)
    ensures HasParts(event, parts) <==> Parts(event) == Some(parts)
  {
    hide Get;
  }

  lemma FenceThere(text: string, i: nat)
    requires i + 3 <= |text| && FenceAt(text, i)
    ensures Fenced(text)
  {
    var s := text[i..i + 3];
    assert s[0] == text[i] && s[1] == text[i + 1] && s[2] == text[i + 2];
    assert text[i] == '`' && text[i + 1] == '`' && text[i + 2] == '`';
  }

  lemma ShownExactly(text: string, space: char -> bool)
    ensures Shown(text, space) <==> (exists c | c in text :: !space(c)) && !Fenced(text)
  {
    if Fenced(text) {
      var i :| 0 <= i < |text| - 2 && text[i] == '`' && text[i + 1] == '`' && text[i + 2] == '`';
      assert text[i..i + 3] == "```";
      assert FenceAt(text, i);
    }
    if i: nat :| i <= |text| - 3 && FenceAt(text, i) {
      FenceThere(text, i);
    }
    if c :| c in text && !space(c) {
      var i :| 0 <= i < |text| && text[i] == c;
    }
    if i :| 0 <= i < |text| && !space(text[i]) {
      assert text[i] in text;
    }
  }

  predicate FinalIs(part: Json, space: char -> bool, text: string) {
    FinalText(part, space) && At(part.fields, "text").s == text
  }

  lemma FinalExactly(part: Json, space: char -> bool, text: string)
    ensures FinalIs(part, space, text) <==>
      part.Obj? && Keys(part.fields) == {"text"} && Get(part.fields, "text") == Some(Str(text)) && Shown(text, space)
  {
    hide Get, Shown, Fenced;
    ShownExactly(text, space);
  }

  /** An event is refused with what its error says, or because it is not one of the agent's; it is partial, or a final
      text. */
  lemma ReadExactly(event: Fields, author: string, space: char -> bool)
    ensures var r := ReadEvent(event, author, space);
      && (r == Refused(CleanupUncertain) <==> NamesError(event, Str("RUNTIME_SESSION_CLEANUP_FAILED")))
      && (r == Refused(Terminal("SAFETY_BLOCKED")) <==> NamesError(event, Str("SAFETY_BLOCKED")))
      && (r == Partial <==> PartialRule(event, author))
      && (forall text :: r == Candidate(text) <==> FinalRule(event, author, space, text))
      && (r.Refused? ==>
            r.failure in {CleanupUncertain, Terminal("SAFETY_BLOCKED"), Terminal("RUNTIME_PROTOCOL_INVALID")})
  {
    ErrorExactly(event, Str("RUNTIME_SESSION_CLEANUP_FAILED"));
    ErrorExactly(event, Str("SAFETY_BLOCKED"));
    FreeExactly(event);
    hide ObservedError, NamesError, ErrorFree, Parts, HasParts, Get, FinalText, Shown;
    PartialExactly(event, author);
    forall text ensures ReadEvent(event, author, space) == Candidate(text) <==> FinalRule(event, author, space, text) {
      CandidateExactly(event, author, space, text);
    }
  }

  lemma PartialExactly(event: Fields, author: string)
    ensures PartialRule(event, author) <==>
      && ErrorFree(event) && WrittenBy(event, author) && Get(event, "partial") == Some(Bool(true))
      && Parts(event).Some? && Parts(event).value != []
  {
    hide ErrorFree, HasParts, Parts, Get;
    forall parts ensures HasParts(event, parts) <==> Parts(event) == Some(parts) {
      PartsExactly(event, parts);
    }
  }

  lemma CandidateExactly(event: Fields, author: string, space: char -> bool, text: string)
    ensures ReadEvent(event, author, space) == Candidate(text) <==> FinalRule(event, author, space, text)
  {
    FreeExactly(event);
    hide ObservedError, ErrorFree, Parts, HasParts, Get, Shown, Fenced;
    forall part
      ensures HasParts(event, [part]) <==> Parts(event) == Some([part])
      ensures FinalIs(part, space, text) <==>
        part.Obj? && Keys(part.fields) == {"text"} && Get(part.fields, "text") == Some(Str(text)) && Shown(text, space)
    {
      PartsExactly(event, [part]);
      FinalExactly(part, space, text);
    }
    if Parts(event).Some? && |Parts(event).value| == 1 {
      assert Parts(event).value == [Parts(event).value[0]];
    }
  }

  // ---- A line ----

  /** An object: the `output` of one that has nothing else, or one with an author and content, or with an error. */
  ghost predicate HoldsEvent(v: Json, event: Fields) {
    v.Obj? &&
    if In(v, "output").Some? then In(v, "output") == Some(Obj(event)) && forall k :: k in Keys(v.fields) <==> k == "output"
    else
      && v.fields == event
      && (|| (In(v, "author").Some? && In(v, "content").Some?) || In(v, "error_code").Some? || In(v, "errorCode").Some?)
  }

  lemma LineExactly(v: Json, event: Fields)
    ensures LineEvent(v) == Some(event) <==> HoldsEvent(v, event)
  {
    hide Get;
    if v.Obj? && "output" in Keys(v.fields) {
      assert Keys(v.fields) == {"output"} <==> forall k :: k in Keys(v.fields) <==> k == "output";
    }
  }

  /** A line can be read if it arrives in time, leaves more than two seconds, and is blank or holds an event. */
  ghost predicate LineRule(l: Line, deadline: real, timeout: real) {
    && l.after <= timeout && l.clock + 2.0 < deadline
    && match l.content
       case BlankLine => true
       case NotJson => false
       case Value(v) => exists event :: HoldsEvent(v, event)
  }

  lemma ReadableExactly(l: Line, deadline: real, timeout: real)
    ensures Readable(l, deadline, timeout) <==> LineRule(l, deadline, timeout)
  {
    hide LineEvent, HoldsEvent;
    if l.content.Value? {
      var v := l.content.value;
      forall event ensures LineEvent(v) == Some(event) <==> HoldsEvent(v, event) {
        LineExactly(v, event);
      }
    }
  }

  /** The events are those of the lines that hold one, in their order. */
  ghost predicate Picked(lines: seq<Line>, from: seq<nat>, events: seq<Fields>) {
    && |from| == |events|
    && (forall i, j | 0 <= i < j < |from| :: from[i] < from[j])
    && (forall i | 0 <= i < |from| :: from[i] < |lines| && LineHolds(lines[from[i]], events[i]))
    && forall k, event | 0 <= k < |lines| && LineHolds(lines[k], event) :: k in from
  }

  ghost predicate LineHolds(l: Line, event: Fields) {
    l.content.Value? && HoldsEvent(l.content.value, event)
  }

  lemma {:induction false} EventsExactly(lines: seq<Line>) returns (from: seq<nat>)
    ensures Picked(lines, from, Events(lines))
  {
    hide HoldsEvent, LineEvent, Picked;
    from := [];
    if lines == [] {
      NonePicked();
    } else {
      var (n, c) := (|lines| - 1, lines[|lines| - 1].content);
      assert lines == lines[..n] + [lines[n]];
      from := EventsExactly(lines[..n]);
      if c.Value? {
        forall event ensures LineEvent(c.value) == Some(event) <==> HoldsEvent(c.value, event) {
          LineExactly(c.value, event);
        }
      }
      if c.Value? && LineEvent(c.value).Some? {
        PickedMore(lines[..n], lines[n], from, Events(lines[..n]), LineEvent(c.value).value);
        from := from + [n];
      } else {
        NothingPicked(lines[..n], lines[n], from, Events(lines[..n]));
      }
    }
  }

  lemma NonePicked()
    ensures Picked([], [], Events([]))
  {
  }

  lemma PickedMore(lines: seq<Line>, l: Line, from: seq<nat>, events: seq<Fields>, event: Fields)
    requires Picked(lines, from, events) && LineHolds(l, event)
    ensures Picked(lines + [l], from + [|lines|], events + [event])
  {
    hide HoldsEvent, LineHolds;
    var (all, picked) := (lines + [l], from + [|lines|]);
    assert forall k | 0 <= k < |lines| :: all[k] == lines[k];
    forall k, e | 0 <= k < |all| && LineHolds(all[k], e) ensures k in picked {
      if k < |lines| {
        assert k in from;
      } else {
        assert picked[|from|] == k;
      }
    }
  }

  lemma NothingPicked(lines: seq<Line>, l: Line, from: seq<nat>, events: seq<Fields>)
    requires Picked(lines, from, events) && forall event :: !LineHolds(l, event)
    ensures Picked(lines + [l], from, events)
  {
    hide HoldsEvent, LineHolds;
    assert forall k | 0 <= k < |lines| :: (lines + [l])[k] == lines[k];
  }

  // ---- A status ----

  predicate ProviderSays(body: Option<Json>, code: string) {
    body.Some? && In(body.value, "error") == Some(Str(code))
  }

  predicate SaysOutputInvalid(body: Option<Json>) {
    || ProviderSays(body, "MODEL_JSON_INVALID") || ProviderSays(body, "RESULT_SCHEMA_INVALID")
    || ProviderSays(body, "RESULT_SEMANTIC_INVALID") || ProviderSays(body, "RUNTIME_AGENT_OUTPUT_INVALID")
    || ProviderSays(body, "VERTEX_MODEL_RESPONSE_INCOMPLETE") || ProviderSays(body, "VERTEX_MODEL_RESPONSE_INVALID")
  }

  /** What a status comes to. */
  lemma StatusExactly(status: int, body: Option<Json>, header: Option<real>)
    ensures RaiseForHttpStatus(status, body, header) ==
      if ProviderSays(body, "RUNTIME_TIMED_OUT") then Terminal("RUNTIME_TIMED_OUT")
      else if status in {408, 429} || status / 100 == 5 then
        Retryable("RUNTIME_STREAM_TRANSPORT_FAILED",
                  if header.Some? && header.value >= 0.0 && header.value <= 2.0 then header else None)
      else if SaysOutputInvalid(body) || status == 422 then Terminal("RUNTIME_AGENT_OUTPUT_INVALID")
      else if status == 400 then Terminal("RUNTIME_REQUEST_INVALID")
      else if status == 401 then Terminal("RUNTIME_UNAUTHENTICATED")
      else if status == 403 then Terminal("RUNTIME_FORBIDDEN")
      else Terminal("RUNTIME_HTTP_TERMINAL")
  {
    hide Get;
  }

  /** What the server tells of an error: a time-out first, then what the request or the output is to blame for. */
  lemma ServerExactly(e: ServerError)
    ensures RuntimeHttpFailure(e) ==
      var blamed :=
        || (e.providerStatus.Some? && e.providerStatus.value / 100 == 4 && e.providerStatus.value !in {408, 429})
        || (e.code.Some? && e.code.value in {
              "MODEL_JSON_INVALID", "RESULT_ECHO_MISMATCH", "RESULT_SCHEMA_INVALID", "RESULT_SEMANTIC_INVALID",
              "SAFETY_BLOCKED", "VERTEX_MODEL_RESPONSE_INCOMPLETE", "VERTEX_MODEL_RESPONSE_INVALID"})
        || (e.code.Some? && e.code.value != "" && e.agentClass && e.providerStatus == None);
      if e.code == Some("RUNTIME_TIMED_OUT") then (500, "RUNTIME_TIMED_OUT")
      else if blamed then (422, if e.code.Some? then e.code.value else "RUNTIME_AGENT_OUTPUT_INVALID")
      else if e.code == Some("RUNTIME_SESSION_CLEANUP_FAILED") then (500, "RUNTIME_SESSION_CLEANUP_FAILED")
      else (500, "RUNTIME_EXECUTION_FAILED")
  {
  }

  // ---- A stream ----

  lemma ThroughExactly(reply: Reply, deadline: real, timeout: real)
    ensures ReadsThrough(reply, deadline, timeout) <==>
      && reply.Streaming? && reply.broken == None && reply.after <= timeout
      && forall i | 0 <= i < |reply.lines| :: LineRule(reply.lines[i], deadline, timeout)
  {
    hide LineRule, Readable;
    if reply.Streaming? {
      LinesExactly(reply.lines, deadline, timeout);
    }
  }

  lemma LinesExactly(lines: seq<Line>, deadline: real, timeout: real)
    ensures AllReadable(lines, deadline, timeout) <==> forall i | 0 <= i < |lines| :: LineRule(lines[i], deadline, timeout)
  {
    hide LineRule, Readable;
    forall l ensures Readable(l, deadline, timeout) <==> LineRule(l, deadline, timeout) {
      ReadableExactly(l, deadline, timeout);
    }
    assert forall l | l in lines :: exists i :: 0 <= i < |lines| && lines[i] == l;
  }

  function BrokenBy(why: Break): Failure {
    match why
    case Network => Retryable("RUNTIME_STREAM_TRANSPORT_FAILED", None)
    case Http => Terminal("RUNTIME_STREAM_TRANSPORT_FAILED")
    case Other(code) => Terminal(code)
  }

  ghost predicate FirstBad(lines: seq<Line>, deadline: real, timeout: real, k: int) {
    && 0 <= k < |lines| && !LineRule(lines[k], deadline, timeout)
    && forall j | 0 <= j < k :: LineRule(lines[j], deadline, timeout)
  }

  /** A stream that does not get through is late by its timer or its clock, says what cannot be read, or breaks off. */
  ghost predicate RaiseRule(reply: Reply, deadline: real, timeout: real, failure: Failure) {
    match reply
    case Unanswered(after, why) => failure == if after <= timeout then BrokenBy(why) else Terminal("RUNTIME_TIMED_OUT")
    case Status(after, status, body, header) =>
      failure == if after <= timeout then RaiseForHttpStatus(status, body, header) else Terminal("RUNTIME_TIMED_OUT")
    case Streaming(lines, after, broken) =>
      if forall i | 0 <= i < |lines| :: LineRule(lines[i], deadline, timeout) then
        if after <= timeout then broken.Some? && failure == BrokenBy(broken.value)
        else failure == Terminal("RUNTIME_TIMED_OUT")
      else
        exists k :: FirstBad(lines, deadline, timeout, k) && failure == Terminal(
          if lines[k].after <= timeout && lines[k].clock + 2.0 < deadline then "RUNTIME_STREAM_PROTOCOL_INVALID"
          else "RUNTIME_TIMED_OUT")
  }

  lemma RaisedExactly(reply: Reply, deadline: real, timeout: real, failure: Failure)
    ensures RaisedBy(reply, deadline, timeout, failure) <==> RaiseRule(reply, deadline, timeout, failure)
  {
    hide LineRule, Readable, RaiseForHttpStatus, AllReadable;
    if reply.Streaming? {
      var lines := reply.lines;
      LinesExactly(lines, deadline, timeout);
      forall k ensures FirstUnreadable(lines, deadline, timeout, k) <==> FirstBad(lines, deadline, timeout, k) {
        FirstExactly(lines, deadline, timeout, k);
      }
    }
  }

  lemma FirstExactly(lines: seq<Line>, deadline: real, timeout: real, k: int)
    ensures FirstUnreadable(lines, deadline, timeout, k) <==> FirstBad(lines, deadline, timeout, k)
  {
    hide LineRule, Readable;
    forall l ensures Readable(l, deadline, timeout) <==> LineRule(l, deadline, timeout) {
      ReadableExactly(l, deadline, timeout);
    }
  }

  // ---- An attempt ----

  /** The stream has the time up to two seconds before the deadline. */
  lemma StreamRaisesExactly(task: Task, x: Exchange)
    ensures StreamRaises(task, x) <==>
      task.deadline <= x.budgeted + 2.0 || !ReadsThrough(x.reply, task.deadline, task.deadline - 2.0 - x.budgeted)
  {
    hide ReadsThrough;
  }

  ghost predicate RetryRule(task: Task, x: Exchange) {
    var timeout := task.deadline - 2.0 - x.budgeted;
    && x.entered < task.deadline && timeout > 0.0 && x.reply.after <= timeout
    && match x.reply
       case Unanswered(_, why) => why == Network
       case Status(_, status, body, _) =>
         (status in {408, 429} || status / 100 == 5) && !ProviderSays(body, "RUNTIME_TIMED_OUT")
       case Streaming(lines, _, broken) =>
         broken == Some(Network) && forall i | 0 <= i < |lines| :: LineRule(lines[i], task.deadline, timeout)
  }

  lemma RetryExactly(task: Task, x: Exchange)
    ensures CanRetry(task, x) <==> RetryRule(task, x)
  {
    hide LineRule, Readable, Get, AllReadable;
    if x.reply.Streaming? {
      LinesExactly(x.reply.lines, task.deadline, task.deadline - 2.0 - x.budgeted);
    }
  }

  /** How long attempt `k` waits: what the server asked for, if that is two seconds at most, or a quarter and then three
      quarters of a second, and up to a tenth more. */
  lemma DelayExactly(run: Run, k: nat)
    requires run.Complete() && 1 <= k <= 2
    ensures run.Delay(k) ==
      match run.exchanges[k - 1].reply
      case Status(_, _, _, Some(seconds)) =>
        if seconds >= 0.0 && seconds <= 2.0 then seconds
        else [0.25, 0.75][k - 1] + (run.digestPrefix(run.ids[k - 1]) % 101) as real / 1000.0
      case _ => [0.25, 0.75][k - 1] + (run.digestPrefix(run.ids[k - 1]) % 101) as real / 1000.0
  {
  }

  predicate PauseRule(task: Task, run: Run, k: nat)
    requires run.Complete() && 1 <= k <= 2
  {
    && run.afterwards[k - 1] + 2.0 <= task.deadline && run.pauses[k - 1].budget + 2.0 <= task.deadline
    && run.pauses[k - 1].now + run.Delay(k) + 2.0 <= task.deadline
  }

  /** An attempt takes place if its task and all before it meet the contract, and every attempt before it can be retried
      and leaves the time. */
  lemma ReachedExactly(task: Task, run: Run, k: nat)
    requires run.Complete() && k < 3
    ensures run.Reached(task, k) <==>
      && (forall j | 0 <= j <= k :: run.valid[j])
      && forall j | 0 <= j < k :: RetryRule(task, run.exchanges[j]) && PauseRule(task, run, j + 1)
  {
    hide RetryRule, CanRetry;
    forall j | 0 <= j < 3 ensures CanRetry(task, run.exchanges[j]) <==> RetryRule(task, run.exchanges[j]) {
      RetryExactly(task, run.exchanges[j]);
    }
    assert run.Reached(task, 0) <==> run.valid[0];
    if k >= 1 {
      OneReached(task, run, 1);
    }
    if k == 2 {
      OneReached(task, run, 2);
    }
  }

  lemma OneReached(task: Task, run: Run, k: nat)
    requires run.Complete() && 1 <= k < 3
    ensures run.Reached(task, k) <==>
      run.valid[k] && run.Reached(task, k - 1) && CanRetry(task, run.exchanges[k - 1]) && PauseRule(task, run, k)
  {
    hide CanRetry, Run.Delay;
  }

  /** What is handed over is what the consumer takes for a session, if nothing in it is empty. */
  lemma HandedNamesSession(resource: string, userId: string, invocationId: string)
    requires resource != "" && userId != ""
    ensures var payload := CleanupPayload(resource, userId, SessionId(invocationId));
      && AgentCleanup.NamesSession("AGENT_SESSION_CLEANUP", payload)
      && Get(payload, "runtime_resource") == Some(Str(resource)) && Get(payload, "user_id") == Some(Str(userId))
      && Get(payload, "session_id") == Some(Str("caffemate-" + invocationId))
  {
    var payload := CleanupPayload(resource, userId, SessionId(invocationId));
    hide Get, Keys;
    NoMembers();
    Prepended(payload[2], []);
    assert [payload[2]] + [] == [payload[2]];
    TwoMore(payload[0], payload[1], [payload[2]]);
    assert payload == [payload[0], payload[1]] + [payload[2]];
  }
}
