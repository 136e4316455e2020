/** A streamed answer of the Agent Runtime: how the Runtime's server writes it, how the Control API reads
    it, and what is left of a report that the session could not be deleted.

    The clock readings of the client, the timer of the stream and everything the network does are inputs.
  */
module RuntimeStreams {
  import opened Json

  const STREAM_CLEANUP_RESERVE_SECONDS := 2.0
  const CLEANUP_FAILED := "RUNTIME_SESSION_CLEANUP_FAILED"
  const TIMED_OUT := "RUNTIME_TIMED_OUT"
  const STREAM_INVALID := "RUNTIME_STREAM_PROTOCOL_INVALID"
  const PROTOCOL_INVALID := "RUNTIME_PROTOCOL_INVALID"
  const STREAM_FAILED := "RUNTIME_STREAM_TRANSPORT_FAILED"
  const OUTPUT_INVALID := "RUNTIME_AGENT_OUTPUT_INVALID"

  datatype Failure = Retryable(code: string, retryAfter: Option<real>) | Terminal(code: string) | CleanupUncertain

  // ---- What the network does ----

  datatype Content = BlankLine | NotJson | Value(value: Json)

  /** A line: when it arrives on the stream's timer, and what the clock reads then. */
  datatype Line = Line(after: real, clock: real, content: Content)

  /** `Network` covers the client library's own timeouts, `Http` its other errors. */
  datatype Break = Network | Http | Other(code: string)

  datatype Reply =
    | Unanswered(after: real, why: Break)
    | Status(after: real, status: int, body: Option<Json>, header: Option<real>)
    | Streaming(lines: seq<Line>, after: real, broken: Option<Break>)

  function BreakFailure(why: Break): Failure {
    match why
    case Network => Retryable(STREAM_FAILED, None)
    case Http => Terminal(STREAM_FAILED)
    case Other(code) => Terminal(code)
  }

  /** `header` is the number of seconds that the Retry-After header comes to. */
  function RaiseForHttpStatus(status: int, body: Option<Json>, header: Option<real>): (r: Failure)
    ensures r.Retryable? <==>
      (status == 408 || status == 429 || 500 <= status <= 599) && ErrorOf(body) != Some(Str(TIMED_OUT))
  {
    var provider := ErrorOf(body);
    if provider == Some(Str(TIMED_OUT)) then Terminal(TIMED_OUT)
    else if status == 408 || status == 429 || 500 <= status <= 599 then
      Retryable(STREAM_FAILED, if header.Some? && 0.0 <= header.value <= 2.0 then header else None)
    else if provider.Some? && provider.value.Str? && OutputCode(provider.value.s) then Terminal(OUTPUT_INVALID)
    else Terminal(
      if status == 400 then "RUNTIME_REQUEST_INVALID"
      else if status == 401 then "RUNTIME_UNAUTHENTICATED"
      else if status == 403 then "RUNTIME_FORBIDDEN"
      else if status == 422 then OUTPUT_INVALID
      else "RUNTIME_HTTP_TERMINAL")
  }

  function ErrorOf(body: Option<Json>): Option<Json> {
    if body.Some? && body.value.Obj? then Get(body.value.fields, "error") else None
  }

  predicate OutputCode(code: string) {
    || code == "MODEL_JSON_INVALID" || code == "RESULT_SCHEMA_INVALID" || code == "RESULT_SEMANTIC_INVALID"
    || code == OUTPUT_INVALID || code == "VERTEX_MODEL_RESPONSE_INCOMPLETE" || code == "VERTEX_MODEL_RESPONSE_INVALID"
  }

  // ---- Reading the lines ----

  predicate DirectEvent(value: Fields) {
    ("author" in Keys(value) && "content" in Keys(value)) || "error_code" in Keys(value) || "errorCode" in Keys(value)
  }

  predicate Wrapped(value: Fields) {
    Keys(value) == {"output"} && At(value, "output").Obj?
  }

  /** The event of a line that is not blank. */
  function LineEvent(v: Json): Option<Fields> {
    if !v.Obj? then None
    else if "output" in Keys(v.fields) then
      if Wrapped(v.fields) then Some(At(v.fields, "output").fields) else None
    else if DirectEvent(v.fields) then Some(v.fields)
    else None
  }

  /** The line is in time, by the timer and by the clock, and is blank or holds an event. */
  predicate Readable(l: Line, deadline: real, timeout: real) {
    && l.after <= timeout
    && deadline - l.clock > STREAM_CLEANUP_RESERVE_SECONDS
    && (l.content.BlankLine? || (l.content.Value? && LineEvent(l.content.value).Some?))
  }

  function LineFailure(l: Line, deadline: real, timeout: real): Failure {
    if l.after > timeout || deadline - l.clock <= STREAM_CLEANUP_RESERVE_SECONDS then Terminal(TIMED_OUT)
    else Terminal(STREAM_INVALID)
  }

  /** The events of the lines. */
  function Events(lines: seq<Line>): seq<Fields> {
    if lines == [] then []
    else
      var (earlier, c) := (Events(lines[..|lines| - 1]), lines[|lines| - 1].content);
      if c.Value? && LineEvent(c.value).Some? then earlier + [LineEvent(c.value).value] else earlier
  }

  predicate FirstUnreadable(lines: seq<Line>, deadline: real, timeout: real, k: int) {
    && 0 <= k < |lines|
    && !Readable(lines[k], deadline, timeout)
    && forall j | 0 <= j < k :: Readable(lines[j], deadline, timeout)
  }

  predicate AllReadable(lines: seq<Line>, deadline: real, timeout: real) {
    forall l | l in lines :: Readable(l, deadline, timeout)
  }

  /** The stream gets by without an exception: it is answered, and ends, before the timer runs out, and all
      its lines are readable. */
  predicate ReadsThrough(reply: Reply, deadline: real, timeout: real) {
    && reply.Streaming? && reply.broken.None? && reply.after <= timeout
    && AllReadable(reply.lines, deadline, timeout)
  }

  /** The exception that ends a stream which does not get through. */
  ghost predicate RaisedBy(reply: Reply, deadline: real, timeout: real, failure: Failure) {
    match reply
    case Unanswered(after, why) =>
      failure == if after > timeout then Terminal(TIMED_OUT) else BreakFailure(why)
    case Status(after, status, body, header) =>
      failure == if after > timeout then Terminal(TIMED_OUT) else RaiseForHttpStatus(status, body, header)
    case Streaming(lines, after, broken) =>
      if AllReadable(lines, deadline, timeout) then
        if after > timeout then failure == Terminal(TIMED_OUT)
        else broken.Some? && failure == BreakFailure(broken.value)
      else exists k | FirstUnreadable(lines, deadline, timeout, k) :: failure == LineFailure(lines[k], deadline, timeout)
  }

  /** The events, or the exception of `_stream_query`. */
  method StreamQuery(reply: Reply, deadline: real, timeout: real) returns (r: Result<seq<Fields>, Failure>)
    ensures r.Ok? <==> ReadsThrough(reply, deadline, timeout)
    ensures r.Ok? ==> r.value == Events(reply.lines)
    ensures r.Err? ==> RaisedBy(reply, deadline, timeout, r.error)
  {
    match reply
    case Unanswered(after, why) =>
      r := Err(if after > timeout then Terminal(TIMED_OUT) else BreakFailure(why));
    case Status(after, status, body, header) =>
      r := Err(if after > timeout then Terminal(TIMED_OUT) else RaiseForHttpStatus(status, body, header));
    case Streaming(lines, after, broken) =>
      var events: seq<Fields> := [];
      for i := 0 to |lines|
        invariant forall j | 0 <= j < i :: Readable(lines[j], deadline, timeout)
        invariant events == Events(lines[..i])
      {
        assert lines[..i + 1][..i] == lines[..i];
        var l := lines[i];
        if l.after > timeout || deadline - l.clock <= STREAM_CLEANUP_RESERVE_SECONDS {
          assert FirstUnreadable(lines, deadline, timeout, i);
          return Err(Terminal(TIMED_OUT));
        }
        match l.content
        case BlankLine =>
        case NotJson =>
          assert FirstUnreadable(lines, deadline, timeout, i);
          return Err(Terminal(STREAM_INVALID));
        case Value(v) =>
          var event := LineEvent(v);
          if event.None? {
            assert FirstUnreadable(lines, deadline, timeout, i);
            return Err(Terminal(STREAM_INVALID));
          }
          events := events + [event.value];
      }
      assert lines[..|lines|] == lines;
      if after > timeout {
        r := Err(Terminal(TIMED_OUT));
      } else if broken.Some? {
        r := Err(BreakFailure(broken.value));
      } else {
        r := Ok(events);
      }
  }

  // ---- Selecting the final text ----

  /** `event.get("error_code", event.get("errorCode"))`, where null counts as no error. */
  function ObservedError(event: Fields): Option<Json> {
    var observed := if "error_code" in Keys(event) then Get(event, "error_code") else Get(event, "errorCode");
    if observed == Some(Null) then None else observed
  }

  predicate ReportsCleanup(event: Fields) {
    ObservedError(event) == Some(Str(CLEANUP_FAILED))
  }

  function Parts(event: Fields): Option<seq<Json>> {
    var content := Get(event, "content");
    if content.Some? && content.value.Obj? then
      var parts := Get(content.value.fields, "parts");
      if parts.Some? && parts.value.Arr? then Some(parts.value.items) else None
    else None
  }

  predicate Fenced(s: string) {
    exists i | 0 <= i < |s| - 2 :: s[i] == '`' && s[i + 1] == '`' && s[i + 2] == '`'
  }

  /** `space` are the characters that `strip` removes. */
  predicate FinalText(part: Json, space: char -> bool) {
    && part.Obj? && Keys(part.fields) == {"text"} && At(part.fields, "text").Str?
    && (exists c | c in At(part.fields, "text").s :: !space(c))
    && !Fenced(At(part.fields, "text").s)
  }

  datatype Reading = Refused(failure: Failure) | Partial | Candidate(text: string)

  function ReadEvent(event: Fields, author: string, space: char -> bool): Reading {
    var observed := ObservedError(event);
    var parts := Parts(event);
    if observed.Some? then
      if observed.value == Str(CLEANUP_FAILED) then Refused(CleanupUncertain)
      else if observed.value == Str("SAFETY_BLOCKED") then Refused(Terminal("SAFETY_BLOCKED"))
      else Refused(Terminal(PROTOCOL_INVALID))
    else if Get(event, "author") != Some(Str(author)) then Refused(Terminal(PROTOCOL_INVALID))
    else if Get(event, "partial") == Some(Bool(true)) then
      if parts.Some? && parts.value != [] then Partial else Refused(Terminal(PROTOCOL_INVALID))
    else if parts.Some? && |parts.value| == 1 && FinalText(parts.value[0], space) then
      Candidate(At(parts.value[0].fields, "text").s)
    else Refused(Terminal(PROTOCOL_INVALID))
  }

  predicate NoneRefused(events: seq<Fields>, author: string, space: char -> bool) {
    forall e | e in events :: !ReadEvent(e, author, space).Refused?
  }

  /** The first event that is refused is a report that the session could not be deleted. */
  predicate ReportHeard(events: seq<Fields>, author: string, space: char -> bool) {
    exists k | 0 <= k < |events| :: ReportsCleanup(events[k]) && NoneRefused(events[..k], author, space)
  }

  /** The first event that is refused says that the answer was blocked. */
  predicate FirstBlocked(events: seq<Fields>, author: string, space: char -> bool) {
    exists k | 0 <= k < |events| ::
      ReadEvent(events[k], author, space) == Refused(Terminal("SAFETY_BLOCKED")) && NoneRefused(events[..k], author, space)
  }

  /** The only final event holds the text, all others are partial. */
  predicate FinalOf(events: seq<Fields>, author: string, space: char -> bool, text: string) {
    exists k | 0 <= k < |events| :: FinalAt(events, author, space, text, k)
  }

  predicate FinalAt(events: seq<Fields>, author: string, space: char -> bool, text: string, k: int) {
    && 0 <= k < |events|
    && ReadEvent(events[k], author, space) == Candidate(text)
    && forall j | 0 <= j < |events| && j != k :: ReadEvent(events[j], author, space) == Partial
  }

  /** The final texts among the events. */
  function Texts(events: seq<Fields>, author: string, space: char -> bool): seq<string> {
    if events == [] then []
    else
      var (earlier, last) := (Texts(events[..|events| - 1], author, space), ReadEvent(events[|events| - 1], author, space));
      if last.Candidate? then earlier + [last.text] else earlier
  }

  predicate AllPartial(events: seq<Fields>, author: string, space: char -> bool) {
    forall e | e in events :: ReadEvent(e, author, space) == Partial
  }

  lemma {:induction false} NoTexts(events: seq<Fields>, author: string, space: char -> bool)
    requires NoneRefused(events, author, space)
    ensures Texts(events, author, space) == [] <==> AllPartial(events, author, space)
  {
    hide ReadEvent;
    if events != [] {
      var n := |events| - 1;
      NoTexts(events[..n], author, space);
      assert events == events[..n] + [events[n]];
    }
  }

  /** There is one final text if and only if one event is final and all others are partial. */
  lemma {:induction false} OneText(events: seq<Fields>, author: string, space: char -> bool, text: string)
    requires NoneRefused(events, author, space)
    ensures Texts(events, author, space) == [text] <==> FinalOf(events, author, space, text)
  {
    hide ReadEvent;
    if events != [] {
      var n := |events| - 1;
      var (earlier, last) := (events[..n], ReadEvent(events[n], author, space));
      OneText(earlier, author, space, text);
      NoTexts(earlier, author, space);
      if last.Candidate? {
        LastFinal(events, author, space, text);
        var before := Texts(earlier, author, space);
        assert (before + [last.text])[|before|] == last.text;
        assert before == [] ==> before + [last.text] == [last.text];
      } else {
        LastPartial(events, author, space, text);
      }
    }
  }

  lemma LastFinal(events: seq<Fields>, author: string, space: char -> bool, text: string)
    requires events != [] && ReadEvent(events[|events| - 1], author, space).Candidate?
    ensures FinalOf(events, author, space, text) <==>
      && ReadEvent(events[|events| - 1], author, space) == Candidate(text)
      && AllPartial(events[..|events| - 1], author, space)
  {
    hide ReadEvent;
    var n := |events| - 1;
    if k :| FinalAt(events, author, space, text, k) {
      assert k == n;
      assert forall e | e in events[..n] :: exists j :: 0 <= j < n && events[j] == e;
    }
    if ReadEvent(events[n], author, space) == Candidate(text) && AllPartial(events[..n], author, space) {
      assert forall j | 0 <= j < n :: events[..n][j] == events[j];
      assert FinalAt(events, author, space, text, n);
    }
  }

  lemma LastPartial(events: seq<Fields>, author: string, space: char -> bool, text: string)
    requires events != [] && ReadEvent(events[|events| - 1], author, space) == Partial
    ensures FinalOf(events, author, space, text) <==> FinalOf(events[..|events| - 1], author, space, text)
  {
    hide ReadEvent;
    var n := |events| - 1;
    assert forall j | 0 <= j < n :: events[..n][j] == events[j];
    if k :| FinalAt(events, author, space, text, k) {
      assert FinalAt(events[..n], author, space, text, k);
    }
    if k :| FinalAt(events[..n], author, space, text, k) {
      assert FinalAt(events, author, space, text, k);
    }
  }

  method SelectFinalText(events: seq<Fields>, author: string, space: char -> bool) returns (r: Result<string, Failure>)
    ensures r == Err(CleanupUncertain) <==> ReportHeard(events, author, space)
    ensures r.Ok? <==> exists text :: FinalOf(events, author, space, text)
    ensures r.Ok? ==> FinalOf(events, author, space, r.value)
    ensures r.Err? && r.error != CleanupUncertain ==>
      r.error == Terminal("SAFETY_BLOCKED") || r.error == Terminal(PROTOCOL_INVALID)
    ensures r == Err(Terminal("SAFETY_BLOCKED")) <==> FirstBlocked(events, author, space)
  {
    hide Texts, ReportHeard, FinalOf, ReportsCleanup, FirstBlocked;
    var candidates: seq<string> := [];
    assert candidates == Texts([], author, space) by { NoTexts([], author, space); }
    for i := 0 to |events|
      invariant NoneRefused(events[..i], author, space)
      invariant candidates == Texts(events[..i], author, space)
    {
      Extended(events, author, space, i);
      match ReadEvent(events[i], author, space)
      case Refused(failure) =>
        RefusedDecides(events, author, space, i);
        return Err(failure);
      case Partial =>
      case Candidate(text) =>
        candidates := candidates + [text];
    }
    assert events[..|events|] == events;
    NoReportAmongAccepted(events, author, space);
    forall text ensures Texts(events, author, space) == [text] <==> FinalOf(events, author, space, text) {
      OneText(events, author, space, text);
    }
    if |candidates| != 1 {
      return Err(Terminal(PROTOCOL_INVALID));
    }
    assert candidates == [candidates[0]];
    return Ok(candidates[0]);
  }

  lemma Extended(events: seq<Fields>, author: string, space: char -> bool, i: nat)
    requires i < |events| && NoneRefused(events[..i], author, space)
    ensures NoneRefused(events[..i + 1], author, space) <==> !ReadEvent(events[i], author, space).Refused?
    ensures Texts(events[..i + 1], author, space) == Texts(events[..i], author, space)
      + match ReadEvent(events[i], author, space) case Candidate(text) => [text] case _ => []
  {
    hide ReadEvent;
    assert events[..i + 1][..i] == events[..i];
    assert events[..i + 1] == events[..i] + [events[i]];
  }

  lemma ReportRefused(event: Fields, author: string, space: char -> bool)
    ensures ReportsCleanup(event) <==> ReadEvent(event, author, space) == Refused(CleanupUncertain)
  {
  }

  lemma NoReportAmongAccepted(events: seq<Fields>, author: string, space: char -> bool)
    requires NoneRefused(events, author, space)
    ensures !ReportHeard(events, author, space) && !FirstBlocked(events, author, space)
  {
    hide ReadEvent, ReportsCleanup;
    if k: nat :| k < |events| && ReportsCleanup(events[k]) {
      ReportRefused(events[k], author, space);
      assert false;
    }
  }

  lemma AcceptedBefore(events: seq<Fields>, author: string, space: char -> bool, k: nat, j: nat)
    requires j < k <= |events| && NoneRefused(events[..k], author, space)
    ensures !ReadEvent(events[j], author, space).Refused?
  {
    hide ReadEvent;
    assert events[..k][j] == events[j];
  }

  /** The first refused event settles the selection. */
  lemma RefusedDecides(events: seq<Fields>, author: string, space: char -> bool, i: nat)
    requires i < |events| && ReadEvent(events[i], author, space).Refused?
    requires NoneRefused(events[..i], author, space)
    ensures ReportHeard(events, author, space) <==> ReadEvent(events[i], author, space) == Refused(CleanupUncertain)
    ensures FirstBlocked(events, author, space) <==>
      ReadEvent(events[i], author, space) == Refused(Terminal("SAFETY_BLOCKED"))
    ensures forall text :: !FinalOf(events, author, space, text)
    ensures ReadEvent(events[i], author, space).failure in
      {CleanupUncertain, Terminal("SAFETY_BLOCKED"), Terminal(PROTOCOL_INVALID)}
  {
    assert ReadEvent(events[i], author, space).failure in
      {CleanupUncertain, Terminal("SAFETY_BLOCKED"), Terminal(PROTOCOL_INVALID)};
    hide ReadEvent, ReportsCleanup;
    ReportRefused(events[i], author, space);
    if k: nat :| k < |events| && ReportsCleanup(events[k]) && NoneRefused(events[..k], author, space) {
      ReportRefused(events[k], author, space);
      if i < k {
        AcceptedBefore(events, author, space, k, i);
        assert false;
      }
      if k < i {
        AcceptedBefore(events, author, space, i, k);
        assert false;
      }
    }
    OnlyFirst(events, author, space, i);
  }

  lemma OnlyFirst(events: seq<Fields>, author: string, space: char -> bool, i: nat)
    requires i < |events| && ReadEvent(events[i], author, space).Refused?
    requires NoneRefused(events[..i], author, space)
    ensures FirstBlocked(events, author, space) <==>
      ReadEvent(events[i], author, space) == Refused(Terminal("SAFETY_BLOCKED"))
  {
    hide ReadEvent;
    if k: nat :| k < |events| && ReadEvent(events[k], author, space) == Refused(Terminal("SAFETY_BLOCKED"))
                 && NoneRefused(events[..k], author, space) {
      if i < k {
        AcceptedBefore(events, author, space, k, i);
      } else if k < i {
        AcceptedBefore(events, author, space, i, k);
      }
    }
  }
}
