/** The digest that identifies the logical input of an agent task, and the edits that leave it alone. */
module InputDigest {
  import opened Json
  import opened JsonText
  import CollatedJson
  import opened CanonicalJson
  import opened Sorting

  /** The fields that the Runtime projects, in its order. */
  const PROJECTED := [
    "schema_version", "task_id", "agent_name", "task_type", "workflow_run_id", "stage_run_id",
    "venture_project_id", "head_fence", "prompt_version", "input_schema_id", "output_schema_id",
    "input_artifacts", "runtime_tool_policy", "tool_manifest_digest", "available_tool_catalog", "payload"
  ]

  predicate HasFields(task: Fields, keys: seq<string>) {
    forall k | k in keys :: k in Keys(task)
  }

  function Project(task: Fields, keys: seq<string>): Fields
    requires HasFields(task, keys)
  {
    seq(|keys|, i requires 0 <= i < |keys| => Field(keys[i], At(task, keys[i])))
  }

  /** The text that is hashed; a task without one of the fields has none. */
  function DigestText(task: Fields): Option<string> {
    if HasFields(task, PROJECTED) then Some(Canonicalize(Obj(Project(task, PROJECTED)))) else None
  }

  /** `assertTaskInputDigest`, for any digest function. */
  predicate DigestAccepted(task: Fields, sha256: string -> string) {
    DigestText(task).Some? && Get(task, "input_digest") == Some(Str("sha256:" + sha256(DigestText(task).value)))
  }

  // ---- What the text depends on ----

  lemma {:induction false} ProjectDistinct(task: Fields, keys: seq<string>)
    requires HasFields(task, keys) && NoRepeats(keys)
    ensures Distinct(Project(task, keys))
    decreases |keys|
  {
    var p := Project(task, keys);
    if keys != [] {
      assert forall k | k in keys[1..] :: k in keys;
      ProjectDistinct(task, keys[1..]);
      assert p[1..] == Project(task, keys[1..]);
      forall f | f in p[1..] ensures f.key != p[0].key {
        var i :| 0 <= i < |p[1..]| && p[1..][i] == f;
        assert p[1..][i].key == keys[i + 1];
      }
    }
  }

  lemma ProjectLookup(task: Fields, keys: seq<string>, k: string)
    requires HasFields(task, keys) && NoRepeats(keys)
    ensures k in Keys(Project(task, keys)) <==> k in keys
    ensures k in keys ==> Get(Project(task, keys), k) == Get(task, k)
  {
    var p := Project(task, keys);
    ProjectDistinct(task, keys);
    if k in keys {
      var i :| 0 <= i < |keys| && keys[i] == k;
      assert p[i] == Field(k, At(task, k));
      DistinctAt(p, p[i]);
    }
  }

  lemma ProjectUnique(task: Fields, keys: seq<string>)
    requires UniqueKeys(Obj(task)) && HasFields(task, keys) && NoRepeats(keys)
    ensures UniqueKeys(Obj(Project(task, keys)))
  {
    ProjectDistinct(task, keys);
    forall f | f in Project(task, keys) ensures UniqueKeys(f.value) {
      UniqueMember(task, f.key);
      ProjectLookup(task, keys, f.key);
      DistinctAt(Project(task, keys), f);
    }
  }

  /** Two lists of the same keys project to the same text: the order in which they are listed, which
      is each service's own, does not matter. */
  lemma ProjectionTextUnordered(task: Fields, keys: seq<string>, others: seq<string>)
    requires UniqueKeys(Obj(task)) && NoRepeats(keys) && NoRepeats(others)
    requires HasFields(task, keys) && forall k :: k in keys <==> k in others
    ensures HasFields(task, others)
    ensures Canonicalize(Obj(Project(task, keys))) == Canonicalize(Obj(Project(task, others)))
  {
    hide Canonicalize;
    var (p, q) := (Project(task, keys), Project(task, others));
    ProjectUnique(task, keys);
    ProjectUnique(task, others);
    forall k ensures k in Keys(p) <==> k in keys {
      ProjectLookup(task, keys, k);
    }
    forall k ensures k in Keys(q) <==> k in keys {
      ProjectLookup(task, others, k);
    }
    forall k | k in Keys(p) ensures Same(Get(p, k).value, Get(q, k).value) {
      ProjectLookup(task, keys, k);
      ProjectLookup(task, others, k);
      SameReflexive(At(p, k));
    }
    CanonicalInjective(Obj(p), Obj(q));
  }

  lemma ProjectedNoRepeats()
    ensures NoRepeats(PROJECTED)
  {
  }

  lemma ProjectedAre(k: string)
    ensures k in PROJECTED <==> k in {
      "schema_version", "task_id", "agent_name", "task_type", "workflow_run_id", "stage_run_id", "venture_project_id",
      "head_fence", "prompt_version", "input_schema_id", "output_schema_id", "input_artifacts", "runtime_tool_policy",
      "tool_manifest_digest", "available_tool_catalog", "payload"}
  {
  }

  /** Read back, the text is an object of exactly these fields of the task. */
  lemma DigestTextReads(task: Fields, k: string) returns (fields: Fields)
    requires UniqueKeys(Obj(task)) && DigestText(task).Some?
    ensures Parse(DigestText(task).value) == Some(Obj(fields))
    ensures k in Keys(fields) <==> k in {
      "schema_version", "task_id", "agent_name", "task_type", "workflow_run_id", "stage_run_id", "venture_project_id",
      "head_fence", "prompt_version", "input_schema_id", "output_schema_id", "input_artifacts", "runtime_tool_policy",
      "tool_manifest_digest", "available_tool_catalog", "payload"}
    ensures k in Keys(fields) ==> k in Keys(task) && Same(At(task, k), At(fields, k))
  {
    hide Canonicalize, PROJECTED, Same, Parse;
    var p := Project(task, PROJECTED);
    ProjectedNoRepeats();
    ProjectedAre(k);
    ProjectUnique(task, PROJECTED);
    ProjectLookup(task, PROJECTED, k);
    CanonicalRoundTrip(Obj(p));
    CollatedJson.OrderedIsSame(UpTo, Obj(p));
    fields := Normal(Obj(p)).fields;
    SameMembers(p, fields, k);
  }

  lemma SameMembers(p: Fields, q: Fields, k: string)
    requires Same(Obj(p), Obj(q))
    ensures k in Keys(p) <==> k in Keys(q)
    ensures k in Keys(p) ==> Same(At(p, k), At(q, k))
  {
  }

  /** Sensitivity: two tasks have the same digest text exactly when they agree, up to the order of
      object members, on every projected field. */
  lemma DigestTextExact(a: Fields, b: Fields)
    requires UniqueKeys(Obj(a)) && UniqueKeys(Obj(b)) && HasFields(a, PROJECTED) && HasFields(b, PROJECTED)
    ensures DigestText(a) == DigestText(b) <==> forall k | k in PROJECTED :: Same(At(a, k), At(b, k))
  {
    hide Canonicalize, PROJECTED, Same;
    ProjectedNoRepeats();
    var (p, q) := (Project(a, PROJECTED), Project(b, PROJECTED));
    ProjectUnique(a, PROJECTED);
    ProjectUnique(b, PROJECTED);
    CanonicalInjective(Obj(p), Obj(q));
    forall k
      ensures k in Keys(p) <==> k in PROJECTED
      ensures k in Keys(q) <==> k in PROJECTED
      ensures k in PROJECTED ==> Get(p, k) == Get(a, k) && Get(q, k) == Get(b, k)
    {
      ProjectLookup(a, PROJECTED, k);
      ProjectLookup(b, PROJECTED, k);
    }
    SameObjects(p, q, PROJECTED);
  }

  lemma SameObjects(p: Fields, q: Fields, keys: seq<string>)
    requires forall k :: k in Keys(p) <==> k in keys
    requires forall k :: k in Keys(q) <==> k in keys
    ensures Same(Obj(p), Obj(q)) <==> forall k | k in keys :: Same(At(p, k), At(q, k))
  {
    assert Keys(p) == Keys(q);
    if Same(Obj(p), Obj(q)) {
      forall k | k in keys ensures Same(At(p, k), At(q, k)) {
        assert k in Keys(p);
      }
    }
  }

  // ---- The edits a task goes through ----

  /** A transport retry, the trace context of a call, and the repair of a rejected answer. */
  datatype Edit =
    | Transport(attempt: int, invocationId: Option<string>)
    | Trace(carrier: Json)
    | Repair(previousResponseText: string, previousResponseDigest: string, validatorErrors: seq<Json>)

  function Bounded(text: string): string {
    var cut := if |text| > 65536 then text[..65536] else text;
    if cut == "" then "null" else cut
  }

  function RepairContext(e: Edit): Json
    requires e.Repair?
  {
    Obj([
      Field("previous_response_text", Str(Bounded(e.previousResponseText))),
      Field("previous_response_digest", Str("sha256:" + e.previousResponseDigest)),
      Field("validator_errors", Arr(if |e.validatorErrors| > 50 then e.validatorErrors[..50] else e.validatorErrors))
    ])
  }

  function Edited(task: Fields, e: Edit): Fields {
    match e
    case Transport(attempt, invocationId) =>
      Put(if invocationId.Some? then Put(task, "invocation_id", Str(invocationId.value)) else task,
          "transport_attempt", Num(attempt))
    case Trace(carrier) => Put(task, "trace_context", carrier)
    case Repair(_, _, _) =>
      var original := Get(task, "invocation_id");
      var repaired := Put(task, "repair_attempt", Num(1));
      Put(if original.Some? then Put(repaired, "repair_of_invocation_id", original.value) else repaired,
          "repair_context", RepairContext(e))
  }

  /** The first `n` elements, or all if there are no more. */
  predicate Shortened<T(==)>(whole: seq<T>, part: seq<T>, n: nat) {
    |part| == (if |whole| > n then n else |whole|) && forall i | 0 <= i < |part| :: part[i] == whole[i]
  }

  /** What a repair adds: that it is one, of which invocation, and its context. */
  lemma RepairWrites(task: Fields, e: Edit)
    requires e.Repair?
    ensures var after := Edited(task, e);
      && Get(after, "repair_attempt") == Some(Num(1))
      && Get(after, "repair_of_invocation_id") ==
           (if "invocation_id" in Keys(task) then Get(task, "invocation_id") else Get(task, "repair_of_invocation_id"))
      && Get(after, "repair_context") == Some(RepairContext(e))
  {
    hide Keys, Get, RepairContext;
  }

  /** The context of a repair: at most 65536 characters of the answer, its digest, and at most fifty errors. */
  lemma RepairContextExactly(e: Edit)
    requires e.Repair?
    ensures var context := RepairContext(e).fields;
      && Keys(context) == {"previous_response_text", "previous_response_digest", "validator_errors"}
      && Get(context, "previous_response_digest") == Some(Str("sha256:" + e.previousResponseDigest))
      && var (text, errors) := (At(context, "previous_response_text"), At(context, "validator_errors"));
      && text.Str? && errors.Arr? && Shortened(e.validatorErrors, errors.items, 50)
      && if e.previousResponseText == "" then text.s == "null" else Shortened(e.previousResponseText, text.s, 65536)
  {
    ContextMembers(e);
    hide Keys, Get, RepairContext, Bounded, Shortened;
    BoundedText(e.previousResponseText);
    FirstFifty(e.validatorErrors);
  }

  lemma BoundedText(text: string)
    ensures if text == "" then Bounded(text) == "null" else Shortened(text, Bounded(text), 65536)
  {
  }

  lemma FirstFifty(errors: seq<Json>)
    ensures Shortened(errors, if |errors| > 50 then errors[..50] else errors, 50)
  {
  }

  lemma ContextMembers(e: Edit)
    requires e.Repair?
    ensures var c := RepairContext(e).fields;
      && Keys(c) == {"previous_response_text", "previous_response_digest", "validator_errors"}
      && Get(c, "previous_response_text") == Some(Str(Bounded(e.previousResponseText)))
      && Get(c, "previous_response_digest") == Some(Str("sha256:" + e.previousResponseDigest))
      && Get(c, "validator_errors") ==
           Some(Arr(if |e.validatorErrors| > 50 then e.validatorErrors[..50] else e.validatorErrors))
  {
    var c := RepairContext(e).fields;
    hide Get, Keys;
    NoMembers();
    Prepended(c[2], []);
    assert [c[2]] + [] == [c[2]];
    TwoMore(c[0], c[1], [c[2]]);
    assert c == [c[0], c[1]] + [c[2]];
  }

  function EditedAll(task: Fields, edits: seq<Edit>): Fields
    decreases |edits|
  {
    if edits == [] then task else EditedAll(Edited(task, edits[0]), edits[1..])
  }

  const EDITABLE := {
    "invocation_id", "transport_attempt", "trace_context", "repair_attempt", "repair_of_invocation_id", "repair_context"
  }

  lemma EditedElsewhere(task: Fields, e: Edit, k: string)
    requires k !in EDITABLE
    ensures Get(Edited(task, e), k) == Get(task, k)
  {
  }

  lemma {:induction false} EditedAllElsewhere(task: Fields, edits: seq<Edit>, k: string)
    requires k !in EDITABLE
    ensures Get(EditedAll(task, edits), k) == Get(task, k)
    decreases |edits|
  {
    hide EDITABLE, Edited;
    if edits != [] {
      EditedElsewhere(task, edits[0], k);
      EditedAllElsewhere(Edited(task, edits[0]), edits[1..], k);
    }
  }

  lemma ProjectedNotEditable(k: string)
    requires k in PROJECTED + ["input_digest"]
    ensures k !in EDITABLE
  {
  }

  /** Stability: no sequence of retries, trace contexts and repairs changes the digest text, and a task
      whose digest was accepted has it accepted again. */
  lemma EditsKeepDigest(task: Fields, edits: seq<Edit>, sha256: string -> string)
    ensures DigestText(EditedAll(task, edits)) == DigestText(task)
    ensures DigestAccepted(EditedAll(task, edits), sha256) <==> DigestAccepted(task, sha256)
  {
    hide PROJECTED, EDITABLE, EditedAll, Canonicalize;
    var after := EditedAll(task, edits);
    forall k | k in PROJECTED + ["input_digest"] ensures Get(after, k) == Get(task, k) {
      ProjectedNotEditable(k);
      EditedAllElsewhere(task, edits, k);
    }
    SameProjection(task, after, PROJECTED);
    assert "input_digest" in PROJECTED + ["input_digest"];
  }

  lemma SameProjection(a: Fields, b: Fields, keys: seq<string>)
    requires forall k | k in keys + ["input_digest"] :: Get(b, k) == Get(a, k)
    ensures HasFields(a, keys) <==> HasFields(b, keys)
    ensures HasFields(a, keys) ==> Project(a, keys) == Project(b, keys)
  {
    forall k | k in keys ensures Get(b, k) == Get(a, k) {
      assert k in keys + ["input_digest"];
    }
    if HasFields(a, keys) {
      forall k | k in keys ensures k in Keys(b) {
        assert Get(a, k).Some?;
      }
      assert Project(a, keys) == Project(b, keys);
    }
    if HasFields(b, keys) {
      forall k | k in keys ensures k in Keys(a) {
        assert Get(b, k).Some?;
      }
    }
  }
}
