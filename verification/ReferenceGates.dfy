/** The two services' checks of the references in an agent's result, and why what the first lets
    through passes the second.
  */
module ReferenceGates {
  import opened Json
  import opened ReferenceCollectors
  import opened Positions
  import opened ReferencePositions

  /** The part of a task that the checks read. */
  datatype Task = Task(taskType: string, payload: Json)

  /** A result is the list of its members; `payload` and `task_type` are two of them. */
  type AgentResult = Fields

  const EVIDENCE_KEYS := {"evidence_refs"}
  const CLAIM_SOURCE_KEYS := {"claim_id", "claim_ids", "claim_id_pool", "claim_refs"}
  const CLAIM_KEYS := {"claim_id", "claim_ids", "missing_claim_ids", "claim_refs"}
  const CANDIDATE_KEYS := {"candidate_id", "candidate_ids", "candidate_ref", "candidate_refs"}
  const CANDIDATE_SOURCE_KEYS := CANDIDATE_KEYS + {"current_candidate_refs"}
  const EVIDENCE_SOURCE_KEYS := {"evidence_id", "evidence_ids", "evidence_refs"}
  const ASSUMPTION_SOURCE_KEYS := {"assumption_refs", "support_refs"}

  predicate IsAssumption(record: Fields) {
    var kind := Member(record, "value_kind");
    kind == Str("DECLARED_ASSUMPTION") || kind == Str("UNKNOWN")
  }

  function Assumptions(records: Records): set<string> {
    set id | id in records && IsAssumption(records[id])
  }

  // ---- The Runtime's reference pools ----

  datatype Pools = Pools(
    evidence: set<string>, claim: set<string>, candidate: set<string>, assumption: set<string>, support: set<string>,
    calculation: set<string>)

  /** The single proposal source of a task; without exactly one that is not empty the check throws. */
  function ProposalSource(task: Task): Option<Fields> {
    var key := if task.taskType == "PROPOSE_INDEPENDENT" then "model_seeds" else "franchise_universe";
    var sources := Elements(Member(Members(task.payload), key));
    if |sources| != 1 || Members(sources[0]) == [] then None else Some(Members(sources[0]))
  }

  function IdsOf(items: seq<Json>): set<string> {
    set item | item in items && Member(Members(item), "evidence_id").Str? :: Member(Members(item), "evidence_id").s
  }

  function CatalogIds(payload: Fields): set<string> {
    IdsOf(Elements(Member(payload, "evidence_catalog")))
  }

  function SupportsOf(sources: seq<Json>): set<string> {
    set source, ref | source in sources && ref in Strings(Member(Members(source), "support_refs")) :: ref
  }

  function SeedSupports(payload: Fields): set<string> {
    SupportsOf(Elements(Member(payload, "model_seeds")))
  }

  /** The texts that identify the calculation and its candidates. */
  function CalculationTexts(payload: Fields): seq<Json> {
    var calculation := Members(Member(payload, "calculation_snapshot"));
    [Member(calculation, "calculation_version"), Member(calculation, "input_digest"), Member(calculation, "output_digest")]
    + Elements(Member(calculation, "candidate_ids"))
  }

  function EvidencePool(task: Task): Option<set<string>> {
    var payload := Members(task.payload);
    var records := RecordsIn(Obj(payload));
    if task.taskType in {"EVIDENCE_ASSESS", "PROPOSE_INDEPENDENT", "CANDIDATE_AUDIT"} then
      Some(records.Keys - Assumptions(records))
    else if task.taskType == "PROPOSE_FRANCHISE" then
      match ProposalSource(task)
      case None => None
      case Some(source) => Some(records.Keys - Assumptions(records) + Strings(Member(source, "evidence_refs")))
    else if task.taskType == "RESULT_EXPLAIN" then Some(CatalogIds(payload))
    else Some({})
  }

  function PoolsOf(task: Task): Option<Pools> {
    var payload := Members(task.payload);
    var records := RecordsIn(Obj(payload));
    var t := task.taskType;
    match EvidencePool(task)
    case None => None
    case Some(evidence) =>
      Some(Pools(
        evidence,
        if t == "INTENT_DELTA" || t == "RESULT_EXPLAIN" then {} else NamedStrings(Obj(payload), CLAIM_SOURCE_KEYS),
        if t == "EVIDENCE_ASSESS" then records.Keys
        else if t == "CANDIDATE_AUDIT" then NamedStrings(Member(payload, "candidates"), {"candidate_id"})
        else {},
        if t == "PROPOSE_INDEPENDENT" || t == "CANDIDATE_AUDIT" then
          NamedStrings(Obj(payload), ASSUMPTION_SOURCE_KEYS) + Assumptions(records)
        else {},
        if t == "PROPOSE_INDEPENDENT" then SeedSupports(payload) - Assumptions(records)
        else if t == "PROPOSE_FRANCHISE" then evidence
        else {},
        if t == "CANDIDATE_AUDIT" then Strings(Arr(CalculationTexts(payload))) else {}))
  }

  // ---- The references by their positions ----

  /** One of the listed objects has the text for its member. */
  predicate ListsWith(v: Option<Json>, k: string, text: string) {
    v.Some? && v.value.Arr? && exists i | 0 <= i < |v.value.items| :: In(v.value.items[i], k) == Some(Str(text))
  }

  predicate ListsListing(v: Option<Json>, k: string, text: string) {
    v.Some? && v.value.Arr? && exists i | 0 <= i < |v.value.items| :: Lists(In(v.value.items[i], k), text)
  }

  ghost predicate StandsIn(v: Option<Json>, keys: set<string>, text: string) {
    v.Some? && Stands(v.value, keys, text)
  }

  /** The texts that the Runtime allows, by the kind of task. It reads the payload as an object. */
  ghost predicate AllowedEvidence(task: Task, text: string) {
    var (t, p) := (task.taskType, task.payload);
    || (t in {"EVIDENCE_ASSESS", "PROPOSE_INDEPENDENT", "PROPOSE_FRANCHISE", "CANDIDATE_AUDIT"}
        && p.Obj? && Recorded(p, text) && !AssumedAtLast(p, text))
    || (t == "PROPOSE_FRANCHISE" && ListsListing(In(p, "franchise_universe"), "evidence_refs", text))
    || (t == "RESULT_EXPLAIN" && ListsWith(In(p, "evidence_catalog"), "evidence_id", text))
  }

  ghost predicate AllowedClaim(task: Task, text: string) {
    && task.taskType != "INTENT_DELTA" && task.taskType != "RESULT_EXPLAIN"
    && task.payload.Obj? && Stands(task.payload, {"claim_id", "claim_ids", "claim_id_pool", "claim_refs"}, text)
  }

  ghost predicate AllowedCandidate(task: Task, text: string) {
    || (task.taskType == "EVIDENCE_ASSESS" && task.payload.Obj? && Recorded(task.payload, text))
    || (task.taskType == "CANDIDATE_AUDIT" && StandsIn(In(task.payload, "candidates"), {"candidate_id"}, text))
  }

  ghost predicate AllowedAssumption(task: Task, text: string) {
    && task.taskType in {"PROPOSE_INDEPENDENT", "CANDIDATE_AUDIT"} && task.payload.Obj?
    && (Stands(task.payload, {"assumption_refs", "support_refs"}, text) || AssumedAtLast(task.payload, text))
  }

  ghost predicate AllowedSupport(task: Task, text: string) {
    || (task.taskType == "PROPOSE_INDEPENDENT"
        && ListsListing(In(task.payload, "model_seeds"), "support_refs", text) && !AssumedAtLast(task.payload, text))
    || (task.taskType == "PROPOSE_FRANCHISE" && AllowedEvidence(task, text))
  }

  predicate AllowedCalculation(task: Task, text: string) {
    task.taskType == "CANDIDATE_AUDIT" &&
    match In(task.payload, "calculation_snapshot")
    case None => false
    case Some(c) =>
      || In(c, "calculation_version") == Some(Str(text)) || In(c, "input_digest") == Some(Str(text))
      || In(c, "output_digest") == Some(Str(text)) || Lists(In(c, "candidate_ids"), text)
  }

  /** Only a franchise proposal can throw: when its universe is not a list of one object with members. */
  predicate Throws(task: Task) {
    task.taskType == "PROPOSE_FRANCHISE" &&
    match In(task.payload, "franchise_universe")
    case Some(Arr(items)) => |items| != 1 || !items[0].Obj? || items[0].fields == []
    case _ => true
  }

  ghost predicate PoolsAre(task: Task, pools: Pools) {
    && (forall x :: x in pools.evidence <==> AllowedEvidence(task, x))
    && (forall x :: x in pools.claim <==> AllowedClaim(task, x))
    && (forall x :: x in pools.candidate <==> AllowedCandidate(task, x))
    && (forall x :: x in pools.assumption <==> AllowedAssumption(task, x))
    && (forall x :: x in pools.support <==> AllowedSupport(task, x))
    && (forall x :: x in pools.calculation <==> AllowedCalculation(task, x))
  }

  // ---- Each pool ----

  lemma AssumptionsExactly(v: Json, id: string)
    ensures id in RecordsIn(v).Keys <==> Recorded(v, id)
    ensures id in Assumptions(RecordsIn(v)) <==> AssumedAtLast(v, id)
  {
    hide RecordsIn, Recorded, IsLast, SaysAssumed, IsAssumption;
    RecordsExactly(v, id);
    if AssumedAtLast(v, id) {
      var record :| IsLast(v, id, record) && SaysAssumed(record);
      LastRecorded(v, id, record);
      OneLast(v, id, record, RecordsIn(v)[id]);
    }
    if id in RecordsIn(v) {
      SaysExactly(RecordsIn(v)[id]);
    }
  }

  lemma SaysExactly(record: Fields)
    ensures IsAssumption(record) <==> SaysAssumed(record)
  {
  }

  lemma LastRecorded(v: Json, id: string, record: Fields)
    requires IsLast(v, id, record)
    ensures Recorded(v, id)
  {
  }

  lemma ListsExactly(v: Json, k: string, text: string)
    ensures text in Strings(Member(Members(v), k)) <==> Lists(In(v, k), text)
  {
    hide Get;
    NoMembers();
  }

  lemma PayloadRecords(v: Json, id: string)
    ensures id in RecordsIn(Obj(Members(v))) <==> v.Obj? && Recorded(v, id)
    ensures id in Assumptions(RecordsIn(Obj(Members(v)))) <==> v.Obj? && AssumedAtLast(v, id)
  {
    hide RecordsIn, AssumedAtLast, Recorded;
    AssumptionsExactly(v, id);
    if !v.Obj? {
      NothingRecorded();
      EmptyRecords();
    }
  }

  lemma EmptyRecords()
    ensures RecordsIn(Obj([])) == map[]
  {
  }

  lemma MembersNamed(v: Json, keys: set<string>, text: string)
    ensures text in NamedStrings(Obj(Members(v)), keys) <==> v.Obj? && Stands(v, keys, text)
  {
    hide NamedStrings, Stands;
    if v.Obj? {
      NamedExactly(v, keys, text);
    } else {
      NothingNamed(keys);
    }
  }

  lemma MemberNamed(v: Json, k: string, keys: set<string>, text: string)
    ensures text in NamedStrings(Member(Members(v), k), keys) <==> StandsIn(In(v, k), keys, text)
  {
    hide Stands, Get;
    NoMembers();
    if In(v, k).Some? {
      NamedExactly(In(v, k).value, keys, text);
    }
  }

  lemma ListedIds(v: Json, k: string, text: string)
    ensures text in IdsOf(Elements(Member(Members(v), k))) <==> ListsWith(In(v, k), "evidence_id", text)
  {
    hide Get;
    NoMembers();
    var items := Elements(Member(Members(v), k));
    forall item ensures Member(Members(item), "evidence_id") == Str(text) <==> In(item, "evidence_id") == Some(Str(text)) {
    }
    if text in IdsOf(items) {
      var item :| item in items && Member(Members(item), "evidence_id") == Str(text);
      var i :| 0 <= i < |items| && items[i] == item;
    }
  }

  lemma ListedSupports(v: Json, k: string, text: string)
    ensures text in SupportsOf(Elements(Member(Members(v), k))) <==> ListsListing(In(v, k), "support_refs", text)
  {
    hide Get, Strings, Lists;
    NoMembers();
    var items := Elements(Member(Members(v), k));
    forall item ensures text in Strings(Member(Members(item), "support_refs")) <==> Lists(In(item, "support_refs"), text) {
      ListsExactly(item, "support_refs", text);
    }
    if text in SupportsOf(items) {
      var item :| item in items && text in Strings(Member(Members(item), "support_refs"));
      var i :| 0 <= i < |items| && items[i] == item;
    }
  }

  lemma SourceExactly(task: Task)
    requires task.taskType != "PROPOSE_INDEPENDENT"
    ensures ProposalSource(task).None? <==>
      match In(task.payload, "franchise_universe")
      case Some(Arr(items)) => |items| != 1 || !items[0].Obj? || items[0].fields == []
      case _ => true
    ensures ProposalSource(task).Some? ==>
      && In(task.payload, "franchise_universe").Some? && In(task.payload, "franchise_universe").value.Arr?
      && In(task.payload, "franchise_universe").value.items == [Obj(ProposalSource(task).value)]
  {
    hide Get;
    NoMembers();
  }

  lemma SourceListed(task: Task, text: string)
    requires task.taskType != "PROPOSE_INDEPENDENT" && ProposalSource(task).Some?
    ensures text in Strings(Member(ProposalSource(task).value, "evidence_refs")) <==>
      ListsListing(In(task.payload, "franchise_universe"), "evidence_refs", text)
  {
    hide Strings, Lists, Get, ProposalSource;
    SourceExactly(task);
    var source := Obj(ProposalSource(task).value);
    ListsExactly(source, "evidence_refs", text);
    assert Members(source) == ProposalSource(task).value;
  }

  lemma EvidenceExactly(task: Task, text: string)
    ensures EvidencePool(task).None? <==> Throws(task)
    ensures EvidencePool(task).Some? ==> (text in EvidencePool(task).value <==> AllowedEvidence(task, text))
  {
    hide RecordsIn, Assumptions, IdsOf, ProposalSource, Strings, Stands, Recorded, AssumedAtLast, ListsListing, ListsWith, In;
    PayloadRecords(task.payload, text);
    if task.taskType == "PROPOSE_FRANCHISE" {
      SourceExactly(task);
      if ProposalSource(task).Some? {
        SourceListed(task, text);
      }
    } else if task.taskType == "RESULT_EXPLAIN" {
      ListedIds(task.payload, "evidence_catalog", text);
    }
  }

  lemma CalculationExactly(task: Task, text: string)
    ensures text in Strings(Arr(CalculationTexts(Members(task.payload)))) <==>
      match In(task.payload, "calculation_snapshot")
      case None => false
      case Some(c) =>
        || In(c, "calculation_version") == Some(Str(text)) || In(c, "input_digest") == Some(Str(text))
        || In(c, "output_digest") == Some(Str(text)) || Lists(In(c, "candidate_ids"), text)
  {
    hide Get;
    NoMembers();
    var found := Member(Members(task.payload), "calculation_snapshot");
    CalculationMembers(found, text);
    CalculationMembers(Null, text);
  }

  lemma CalculationMembers(c: Json, text: string)
    ensures
      var calculation := Members(c);
      Str(text) in [Member(calculation, "calculation_version"), Member(calculation, "input_digest"),
                    Member(calculation, "output_digest")]
                   + Elements(Member(calculation, "candidate_ids")) <==>
      || In(c, "calculation_version") == Some(Str(text)) || In(c, "input_digest") == Some(Str(text))
      || In(c, "output_digest") == Some(Str(text)) || Lists(In(c, "candidate_ids"), text)
  {
    hide Get;
    NoMembers();
    ListsExactly(c, "candidate_ids", text);
  }

  /** The pools hold the texts that the kind of task allows, and no others. */
  lemma PoolsExactly(task: Task)
    ensures PoolsOf(task).None? <==> Throws(task)
    ensures PoolsOf(task).Some? ==> PoolsAre(task, PoolsOf(task).value)
  {
    hide PoolsOf, EvidencePool, Throws, AllowedEvidence, AllowedClaim, AllowedCandidate, AllowedAssumption, AllowedSupport;
    hide AllowedCalculation;
    PoolsShape(task);
    EvidenceExactly(task, "");
    if PoolsOf(task).Some? {
      var pools := PoolsOf(task).value;
      forall x
        ensures x in pools.evidence <==> AllowedEvidence(task, x)
        ensures x in pools.claim <==> AllowedClaim(task, x)
        ensures x in pools.candidate <==> AllowedCandidate(task, x)
        ensures x in pools.assumption <==> AllowedAssumption(task, x)
        ensures x in pools.support <==> AllowedSupport(task, x)
        ensures x in pools.calculation <==> AllowedCalculation(task, x)
      {
        EvidenceExactly(task, x);
        PoolExactly(task, x);
      }
    }
  }

  lemma PoolsShape(task: Task)
    ensures PoolsOf(task).None? <==> EvidencePool(task).None?
    ensures PoolsOf(task).Some? ==> PoolsOf(task).value.evidence == EvidencePool(task).value
  {
  }

  lemma PoolExactly(task: Task, text: string)
    requires PoolsOf(task).Some? && (text in PoolsOf(task).value.evidence <==> AllowedEvidence(task, text))
    ensures var pools := PoolsOf(task).value;
      && (text in pools.claim <==> AllowedClaim(task, text))
      && (text in pools.candidate <==> AllowedCandidate(task, text))
      && (text in pools.assumption <==> AllowedAssumption(task, text))
      && (text in pools.support <==> AllowedSupport(task, text))
      && (text in pools.calculation <==> AllowedCalculation(task, text))
  {
    hide EvidencePool, RecordsIn, Assumptions, NamedStrings, Stands, Recorded, AssumedAtLast, ListsListing, StandsIn, In;
    hide Strings, CalculationTexts, SupportsOf, AllowedEvidence, Member, Members;
    PayloadRecords(task.payload, text);
    MembersNamed(task.payload, CLAIM_SOURCE_KEYS, text);
    MembersNamed(task.payload, ASSUMPTION_SOURCE_KEYS, text);
    MemberNamed(task.payload, "candidates", {"candidate_id"}, text);
    ListedSupports(task.payload, "model_seeds", text);
    SeedsNeedObject(task.payload, text);
    CalculationExactly(task, text);
  }

  lemma SeedsNeedObject(v: Json, text: string)
    ensures ListsListing(In(v, "model_seeds"), "support_refs", text) ==> v.Obj?
  {
  }

  /** The loop over the records, splitting their ids by kind. */
  method SplitByKind(records: Records) returns (evidence: set<string>, assumptions: set<string>)
    ensures evidence == records.Keys - Assumptions(records) && assumptions == Assumptions(records)
  {
    evidence, assumptions := {}, {};
    var rest := records.Keys;
    while rest != {}
      invariant rest <= records.Keys
      invariant evidence == set id | id in records && id !in rest && !IsAssumption(records[id])
      invariant assumptions == set id | id in records && id !in rest && IsAssumption(records[id])
      decreases |rest|
    {
      var id :| id in rest;
      rest := rest - {id};
      if IsAssumption(records[id]) {
        assumptions := assumptions + {id};
      } else {
        evidence := evidence + {id};
      }
    }
  }

  method CollectCatalog(items: seq<Json>) returns (ids: set<string>)
    ensures ids == IdsOf(items)
  {
    ids := {};
    for i := 0 to |items|
      invariant ids == IdsOf(items[..i])
    {
      var id := Member(Members(items[i]), "evidence_id");
      assert items[..i + 1] == items[..i] + [items[i]];
      if id.Str? {
        ids := ids + {id.s};
      }
    }
    assert items[..|items|] == items;
  }

  method CollectSeedSupports(sources: seq<Json>, forbidden: set<string>) returns (refs: set<string>)
    ensures refs == SupportsOf(sources) - forbidden
  {
    refs := {};
    for i := 0 to |sources|
      invariant refs == SupportsOf(sources[..i]) - forbidden
    {
      assert sources[..i + 1] == sources[..i] + [sources[i]];
      refs := refs + (Strings(Member(Members(sources[i]), "support_refs")) - forbidden);
    }
    assert sources[..|sources|] == sources;
  }

  method CollectTexts(items: seq<Json>) returns (texts: set<string>)
    ensures texts == Strings(Arr(items))
  {
    texts := {};
    for i := 0 to |items|
      invariant texts == Strings(Arr(items[..i]))
    {
      assert items[..i + 1] == items[..i] + [items[i]];
      if items[i].Str? {
        texts := texts + {items[i].s};
      }
    }
    assert items[..|items|] == items;
  }

  /** `agentReferencePools`, growing its sets as the code does; it throws where no pools are given. */
  method AgentReferencePools(task: Task) returns (pools: Option<Pools>)
    ensures pools == PoolsOf(task)
    ensures pools.None? <==> Throws(task)
    ensures pools.Some? ==> PoolsAre(task, pools.value)
  {
    PoolsExactly(task);
    hide RecordsIn, NamedStrings, Assumptions, Member, Strings, CalculationTexts, PoolsAre, Throws;
    var payload, t := Members(task.payload), task.taskType;
    var records := CollectEvidenceRecords(Obj(payload), map[]);
    NoneBefore(records, RecordsIn(Obj(payload)));
    var evidenceRecords, assumptionRecords := SplitByKind(records);

    var evidence: set<string> := {};
    if t in {"EVIDENCE_ASSESS", "PROPOSE_INDEPENDENT", "PROPOSE_FRANCHISE", "CANDIDATE_AUDIT"} {
      evidence := evidenceRecords;
    }
    if t == "PROPOSE_FRANCHISE" {
      var source := ProposalSource(task);
      if source.None? {
        return None;
      }
      evidence := evidence + Strings(Member(source.value, "evidence_refs"));
    }
    if t == "RESULT_EXPLAIN" {
      evidence := CollectCatalog(Elements(Member(payload, "evidence_catalog")));
    }

    var claim: set<string> := {};
    if t != "INTENT_DELTA" && t != "RESULT_EXPLAIN" {
      claim := CollectNamedStrings(Obj(payload), CLAIM_SOURCE_KEYS, {});
    }

    var candidate: set<string> := {};
    if t == "EVIDENCE_ASSESS" {
      candidate := records.Keys;
    } else if t == "CANDIDATE_AUDIT" {
      candidate := CollectNamedStrings(Member(payload, "candidates"), {"candidate_id"}, {});
    }

    var assumption: set<string> := {};
    if t == "PROPOSE_INDEPENDENT" || t == "CANDIDATE_AUDIT" {
      assumption := CollectNamedStrings(Obj(payload), ASSUMPTION_SOURCE_KEYS, {});
      assumption := assumption + assumptionRecords;
    }

    var support: set<string> := {};
    if t == "PROPOSE_INDEPENDENT" {
      support := CollectSeedSupports(Elements(Member(payload, "model_seeds")), assumptionRecords);
    } else if t == "PROPOSE_FRANCHISE" {
      support := evidence;
    }

    var calculation: set<string> := {};
    if t == "CANDIDATE_AUDIT" {
      calculation := CollectTexts(CalculationTexts(payload));
    }
    pools := Some(Pools(evidence, claim, candidate, assumption, support, calculation));
    assert EvidencePool(task) == Some(evidence);
    assert pools.value.claim == PoolsOf(task).value.claim;
    assert pools.value.candidate == PoolsOf(task).value.candidate;
    assert pools.value.assumption == PoolsOf(task).value.assumption;
    assert pools.value.support == PoolsOf(task).value.support;
    assert pools.value.calculation == PoolsOf(task).value.calculation;
  }

  lemma NoneBefore(r: Records, records: Records)
    requires r == map[] + records
    ensures r == records
  {
  }

  // ---- The two checks of supported references ----

  /** The references of each kind that a result makes beyond those supported. */
  datatype Unsupported = Unsupported(
    evidence: set<string>, claim: set<string>, candidate: set<string>, assumption: set<string>, support: set<string>)

  const NOTHING_UNSUPPORTED := Unsupported({}, {}, {}, {}, {})

  function Referenced(result: AgentResult, payload: Json): Unsupported {
    Unsupported(
      NamedStrings(Obj(result), EVIDENCE_KEYS),
      NamedStrings(Obj(result), CLAIM_KEYS),
      NamedStrings(payload, CANDIDATE_KEYS),
      NamedStrings(payload, {"assumption_refs"}),
      NamedStrings(payload, {"support_refs"}))
  }

  /** The Runtime's check; it throws when the pools cannot be built. */
  function RuntimeUnsupported(task: Task, result: AgentResult): Option<Unsupported> {
    match PoolsOf(task)
    case None => None
    case Some(pools) =>
      var r := Referenced(result, Obj(Members(Member(result, "payload"))));
      Some(Unsupported(
        r.evidence - pools.evidence, r.claim - pools.claim, r.candidate - pools.candidate,
        r.assumption - pools.assumption, r.support - pools.support))
  }

  /** `result["payload"] or {}`. */
  function PayloadOrEmpty(result: AgentResult): Json {
    var payload := Member(result, "payload");
    if payload in {Null, Bool(false), Num(0), Str(""), Arr([])} then Obj([]) else payload
  }

  /** The Control API's check. */
  function ControlUnsupported(task: Task, result: AgentResult): Unsupported {
    var records := RecordsIn(task.payload);
    var assumptions := NamedStrings(task.payload, ASSUMPTION_SOURCE_KEYS) + Assumptions(records);
    var evidence := NamedStrings(task.payload, EVIDENCE_SOURCE_KEYS);
    var r := Referenced(result, PayloadOrEmpty(result));
    Unsupported(
      r.evidence - evidence,
      r.claim - NamedStrings(task.payload, CLAIM_SOURCE_KEYS),
      r.candidate - (if task.taskType == "EVIDENCE_ASSESS" then records.Keys
                     else NamedStrings(task.payload, CANDIDATE_SOURCE_KEYS)),
      r.assumption - assumptions,
      r.support - (evidence + assumptions))
  }

  /** The references of a result, collected as the Runtime does. */
  method CollectReferenced(result: AgentResult, payload: Json) returns (r: Unsupported)
    ensures r == Referenced(result, payload)
  {
    hide NamedStrings;
    var evidence := CollectNamedStrings(Obj(result), EVIDENCE_KEYS, {});
    var claim := CollectNamedStrings(Obj(result), CLAIM_KEYS, {});
    var candidate := CollectNamedStrings(payload, CANDIDATE_KEYS, {});
    var assumption := CollectNamedStrings(payload, {"assumption_refs"}, {});
    var support := CollectNamedStrings(payload, {"support_refs"}, {});
    r := Unsupported(evidence, claim, candidate, assumption, support);
    assert forall s: set<string> :: {} + s == s;
  }

  method ValidateReferenceSemantics(task: Task, result: AgentResult) returns (unsupported: Option<Unsupported>)
    ensures unsupported == RuntimeUnsupported(task, result)
    ensures unsupported.None? <==> Throws(task)
    ensures unsupported.Some? ==> RuntimeReports(task, result, unsupported.value)
  {
    hide NamedStrings, PoolsOf, Referenced, RuntimeReports, PoolsAre, Throws;
    RuntimeReportsExactly(task, result);
    var pools := AgentReferencePools(task);
    if pools.None? {
      return None;
    }
    var r := CollectReferenced(result, Obj(Members(Member(result, "payload"))));
    unsupported := Some(Unsupported(
      r.evidence - pools.value.evidence, r.claim - pools.value.claim, r.candidate - pools.value.candidate,
      r.assumption - pools.value.assumption, r.support - pools.value.support));
  }

  method ValidateSupportedReferences(task: Task, result: AgentResult) returns (unsupported: Unsupported)
    ensures unsupported == ControlUnsupported(task, result)
    ensures ControlReports(task, result, unsupported)
  {
    hide NamedStrings, RecordsIn, Assumptions, Member, ControlReports;
    ControlReportsExactly(task, result);
    var records := CollectEvidenceRecordsLocally(task.payload);
    var candidates := records.Keys;
    if task.taskType != "EVIDENCE_ASSESS" {
      candidates := CollectNamedStringsLocally(task.payload, CANDIDATE_SOURCE_KEYS);
    }
    var assumptions := CollectNamedStringsLocally(task.payload, ASSUMPTION_SOURCE_KEYS);
    var evidenceRecords, assumptionRecords := SplitByKind(records);
    assumptions := assumptions + assumptionRecords;
    var evidence := CollectNamedStringsLocally(task.payload, EVIDENCE_SOURCE_KEYS);
    var claims := CollectNamedStringsLocally(task.payload, CLAIM_SOURCE_KEYS);
    var payload := PayloadOrEmpty(result);
    var r1 := CollectNamedStringsLocally(Obj(result), EVIDENCE_KEYS);
    var r2 := CollectNamedStringsLocally(Obj(result), CLAIM_KEYS);
    var r3 := CollectNamedStringsLocally(payload, CANDIDATE_KEYS);
    var r4 := CollectNamedStringsLocally(payload, {"assumption_refs"});
    var r5 := CollectNamedStringsLocally(payload, {"support_refs"});
    unsupported := Unsupported(r1 - evidence, r2 - claims, r3 - candidates, r4 - assumptions, r5 - (evidence + assumptions));
  }

  // ---- The reports by their positions ----

  /** In the payload of the result, which the Runtime reads as an object. */
  ghost predicate StandsInPayload(result: AgentResult, keys: set<string>, text: string) {
    StandsIn(Get(result, "payload"), keys, text)
  }

  predicate ObjectPayload(result: AgentResult) {
    Get(result, "payload").Some? && Get(result, "payload").value.Obj?
  }

  /** The Runtime reports, of each kind, the texts that stand in the result under a key of the kind and that the kind of
      task does not allow. */
  ghost predicate RuntimeReports(task: Task, result: AgentResult, u: Unsupported) {
    && (forall x :: x in u.evidence <==> Stands(Obj(result), {"evidence_refs"}, x) && !AllowedEvidence(task, x))
    && (forall x :: x in u.claim <==>
          && Stands(Obj(result), {"claim_id", "claim_ids", "missing_claim_ids", "claim_refs"}, x)
          && !AllowedClaim(task, x))
    && (forall x :: x in u.candidate <==>
          && ObjectPayload(result)
          && StandsInPayload(result, {"candidate_id", "candidate_ids", "candidate_ref", "candidate_refs"}, x)
          && !AllowedCandidate(task, x))
    && (forall x :: x in u.assumption <==>
          ObjectPayload(result) && StandsInPayload(result, {"assumption_refs"}, x) && !AllowedAssumption(task, x))
    && (forall x :: x in u.support <==>
          ObjectPayload(result) && StandsInPayload(result, {"support_refs"}, x) && !AllowedSupport(task, x))
  }

  ghost predicate NamesEvidence(task: Task, text: string) {
    Stands(task.payload, {"evidence_id", "evidence_ids", "evidence_refs"}, text)
  }

  ghost predicate NamesAssumption(task: Task, text: string) {
    Stands(task.payload, {"assumption_refs", "support_refs"}, text) || AssumedAtLast(task.payload, text)
  }

  ghost predicate NamesCandidate(task: Task, text: string) {
    if task.taskType == "EVIDENCE_ASSESS" then Recorded(task.payload, text)
    else
      Stands(task.payload, {"candidate_id", "candidate_ids", "candidate_ref", "candidate_refs", "current_candidate_refs"}, text)
  }

  /** The Control API reports, of each kind, the texts that stand in the result under a key of the kind and nowhere in
      the task's payload where the kind may be named. */
  ghost predicate ControlReports(task: Task, result: AgentResult, u: Unsupported) {
    && (forall x :: x in u.evidence <==> Stands(Obj(result), {"evidence_refs"}, x) && !NamesEvidence(task, x))
    && (forall x :: x in u.claim <==>
          && Stands(Obj(result), {"claim_id", "claim_ids", "missing_claim_ids", "claim_refs"}, x)
          && !Stands(task.payload, {"claim_id", "claim_ids", "claim_id_pool", "claim_refs"}, x))
    && (forall x :: x in u.candidate <==>
          && StandsInPayload(result, {"candidate_id", "candidate_ids", "candidate_ref", "candidate_refs"}, x)
          && !NamesCandidate(task, x))
    && (forall x :: x in u.assumption <==>
          StandsInPayload(result, {"assumption_refs"}, x) && !NamesAssumption(task, x))
    && (forall x :: x in u.support <==>
          StandsInPayload(result, {"support_refs"}, x) && !NamesEvidence(task, x) && !NamesAssumption(task, x))
  }

  lemma ResultNamed(result: AgentResult, keys: set<string>, text: string)
    ensures text in NamedStrings(Obj(result), keys) <==> Stands(Obj(result), keys, text)
    ensures text in NamedStrings(Obj(Members(Member(result, "payload"))), keys) <==>
      ObjectPayload(result) && StandsInPayload(result, keys, text)
    ensures text in NamedStrings(PayloadOrEmpty(result), keys) <==> StandsInPayload(result, keys, text)
  {
    hide NamedStrings, Stands;
    NamedExactly(Obj(result), keys, text);
    MembersNamed(Member(result, "payload"), keys, text);
    NamedExactly(Member(result, "payload"), keys, text);
    FalsyNamed(Member(result, "payload"), keys);
    NothingNamed(keys);
  }

  lemma FalsyNamed(v: Json, keys: set<string>)
    ensures v in {Null, Bool(false), Num(0), Str(""), Arr([])} ==> NamedStrings(v, keys) == {}
    ensures NamedStrings(Null, keys) == {}
  {
  }

  lemma ReferencedExactly(result: AgentResult, text: string)
    ensures
      var (r, c) := (Referenced(result, Obj(Members(Member(result, "payload")))), Referenced(result, PayloadOrEmpty(result)));
      && (text in r.evidence <==> Stands(Obj(result), {"evidence_refs"}, text))
      && (text in r.claim <==> Stands(Obj(result), {"claim_id", "claim_ids", "missing_claim_ids", "claim_refs"}, text))
      && (text in r.candidate <==>
            && ObjectPayload(result)
            && StandsInPayload(result, {"candidate_id", "candidate_ids", "candidate_ref", "candidate_refs"}, text))
      && (text in r.assumption <==> ObjectPayload(result) && StandsInPayload(result, {"assumption_refs"}, text))
      && (text in r.support <==> ObjectPayload(result) && StandsInPayload(result, {"support_refs"}, text))
      && c.evidence == r.evidence && c.claim == r.claim
      && (text in c.candidate <==>
            StandsInPayload(result, {"candidate_id", "candidate_ids", "candidate_ref", "candidate_refs"}, text))
      && (text in c.assumption <==> StandsInPayload(result, {"assumption_refs"}, text))
      && (text in c.support <==> StandsInPayload(result, {"support_refs"}, text))
  {
    hide NamedStrings, Stands, StandsInPayload, ObjectPayload, PayloadOrEmpty, Member, Members;
    ResultNamed(result, EVIDENCE_KEYS, text);
    ResultNamed(result, CLAIM_KEYS, text);
    ResultNamed(result, CANDIDATE_KEYS, text);
    ResultNamed(result, {"assumption_refs"}, text);
    ResultNamed(result, {"support_refs"}, text);
  }

  lemma RuntimeReportsExactly(task: Task, result: AgentResult)
    ensures RuntimeUnsupported(task, result).None? <==> Throws(task)
    ensures RuntimeUnsupported(task, result).Some? ==> RuntimeReports(task, result, RuntimeUnsupported(task, result).value)
  {
    hide Stands, StandsInPayload, ObjectPayload, Referenced, PoolsOf, Throws;
    hide AllowedEvidence, AllowedClaim, AllowedCandidate, AllowedAssumption, AllowedSupport, AllowedCalculation;
    PoolsExactly(task);
    if PoolsOf(task).Some? {
      var u := RuntimeUnsupported(task, result).value;
      forall x
        ensures x in u.evidence <==> Stands(Obj(result), {"evidence_refs"}, x) && !AllowedEvidence(task, x)
        ensures x in u.claim <==>
          && Stands(Obj(result), {"claim_id", "claim_ids", "missing_claim_ids", "claim_refs"}, x)
          && !AllowedClaim(task, x)
        ensures x in u.candidate <==>
          && ObjectPayload(result)
          && StandsInPayload(result, {"candidate_id", "candidate_ids", "candidate_ref", "candidate_refs"}, x)
          && !AllowedCandidate(task, x)
        ensures x in u.assumption <==>
          ObjectPayload(result) && StandsInPayload(result, {"assumption_refs"}, x) && !AllowedAssumption(task, x)
        ensures x in u.support <==>
          ObjectPayload(result) && StandsInPayload(result, {"support_refs"}, x) && !AllowedSupport(task, x)
      {
        ReferencedExactly(result, x);
      }
    }
  }

  lemma ControlNames(task: Task, text: string)
    ensures
      var records := RecordsIn(task.payload);
      var candidates := if task.taskType == "EVIDENCE_ASSESS" then records.Keys
                        else NamedStrings(task.payload, CANDIDATE_SOURCE_KEYS);
      && (text in NamedStrings(task.payload, ASSUMPTION_SOURCE_KEYS) + Assumptions(records) <==> NamesAssumption(task, text))
      && (text in NamedStrings(task.payload, EVIDENCE_SOURCE_KEYS) <==> NamesEvidence(task, text))
      && (text in NamedStrings(task.payload, CLAIM_SOURCE_KEYS) <==>
            Stands(task.payload, {"claim_id", "claim_ids", "claim_id_pool", "claim_refs"}, text))
      && (text in candidates <==> NamesCandidate(task, text))
  {
    hide NamedStrings, RecordsIn, Assumptions, Stands, Recorded, AssumedAtLast;
    AssumptionsExactly(task.payload, text);
    NamedExactly(task.payload, ASSUMPTION_SOURCE_KEYS, text);
    NamedExactly(task.payload, EVIDENCE_SOURCE_KEYS, text);
    NamedExactly(task.payload, CLAIM_SOURCE_KEYS, text);
    NamedExactly(task.payload, CANDIDATE_SOURCE_KEYS, text);
    assert CANDIDATE_SOURCE_KEYS ==
      {"candidate_id", "candidate_ids", "candidate_ref", "candidate_refs", "current_candidate_refs"};
  }

  lemma ControlReportsExactly(task: Task, result: AgentResult)
    ensures ControlReports(task, result, ControlUnsupported(task, result))
  {
    hide NamedStrings, RecordsIn, Assumptions, Stands, StandsInPayload, ObjectPayload, Referenced;
    hide NamesEvidence, NamesAssumption, NamesCandidate, PayloadOrEmpty;
    var u := ControlUnsupported(task, result);
    forall x
      ensures x in u.evidence <==> Stands(Obj(result), {"evidence_refs"}, x) && !NamesEvidence(task, x)
      ensures x in u.claim <==>
        && Stands(Obj(result), {"claim_id", "claim_ids", "missing_claim_ids", "claim_refs"}, x)
        && !Stands(task.payload, {"claim_id", "claim_ids", "claim_id_pool", "claim_refs"}, x)
      ensures x in u.candidate <==>
        && StandsInPayload(result, {"candidate_id", "candidate_ids", "candidate_ref", "candidate_refs"}, x)
        && !NamesCandidate(task, x)
      ensures x in u.assumption <==> StandsInPayload(result, {"assumption_refs"}, x) && !NamesAssumption(task, x)
      ensures x in u.support <==>
        StandsInPayload(result, {"support_refs"}, x) && !NamesEvidence(task, x) && !NamesAssumption(task, x)
    {
      ReferencedExactly(result, x);
      ControlNames(task, x);
    }
  }

  // ---- What the Runtime supports, the Control API supports ----

  lemma CatalogSupported(payload: Fields)
    ensures CatalogIds(payload) <= NamedStrings(Obj(payload), EVIDENCE_SOURCE_KEYS)
  {
    hide NamedStrings;
    var catalog := Member(payload, "evidence_catalog");
    forall id | id in CatalogIds(payload) ensures id in NamedStrings(Obj(payload), EVIDENCE_SOURCE_KEYS) {
      var item :| item in Elements(catalog) && Member(Members(item), "evidence_id") == Str(id);
      NamedOfMember(Members(item), "evidence_id", EVIDENCE_SOURCE_KEYS);
      ElementBelow(payload, "evidence_catalog", item, EVIDENCE_SOURCE_KEYS);
    }
  }

  /** What is collected from an element of a list member is collected from the whole. */
  lemma ElementBelow(payload: Fields, k: string, item: Json, keys: set<string>)
    requires item in Elements(Member(payload, k))
    ensures NamedStrings(Obj(Members(item)), keys) <= NamedStrings(Obj(payload), keys)
  {
    NamedOfItem(Elements(Member(payload, k)), item, keys);
    NamedOfMember(payload, k, keys);
  }

  lemma SeedsSupported(payload: Fields)
    ensures SeedSupports(payload) <= NamedStrings(Obj(payload), ASSUMPTION_SOURCE_KEYS)
  {
    hide NamedStrings;
    forall ref | ref in SeedSupports(payload) ensures ref in NamedStrings(Obj(payload), ASSUMPTION_SOURCE_KEYS) {
      var source :| source in Elements(Member(payload, "model_seeds"))
                    && ref in Strings(Member(Members(source), "support_refs"));
      NamedOfMember(Members(source), "support_refs", ASSUMPTION_SOURCE_KEYS);
      OwnStrings(Member(Members(source), "support_refs"));
      ElementBelow(payload, "model_seeds", source, ASSUMPTION_SOURCE_KEYS);
    }
  }

  lemma OwnStrings(v: Json)
    ensures Strings(v) <= Own(v)
  {
  }

  lemma FranchiseSupported(task: Task)
    requires task.taskType != "PROPOSE_INDEPENDENT" && ProposalSource(task).Some?
    ensures Strings(Member(ProposalSource(task).value, "evidence_refs"))
         <= NamedStrings(Obj(Members(task.payload)), EVIDENCE_SOURCE_KEYS)
  {
    hide NamedStrings;
    var payload := Members(task.payload);
    var sources := Elements(Member(payload, "franchise_universe"));
    NamedOfMember(Members(sources[0]), "evidence_refs", EVIDENCE_SOURCE_KEYS);
    OwnStrings(Member(Members(sources[0]), "evidence_refs"));
    ElementBelow(payload, "franchise_universe", sources[0], EVIDENCE_SOURCE_KEYS);
  }

  lemma EvidenceSupported(task: Task)
    requires EvidencePool(task).Some?
    ensures EvidencePool(task).value <= NamedStrings(Obj(Members(task.payload)), EVIDENCE_SOURCE_KEYS)
  {
    hide NamedStrings, RecordsIn, Assumptions, CatalogIds, Member;
    var payload := Members(task.payload);
    RecordIdsNamed(Obj(payload), EVIDENCE_SOURCE_KEYS);
    CatalogSupported(payload);
    if task.taskType == "PROPOSE_FRANCHISE" {
      FranchiseSupported(task);
    }
  }

  /** Reading the payload as an object, as the Runtime does, loses nothing of an object and yields
      nothing for anything else. */
  lemma ObjectOnly(v: Json, keys: set<string>)
    ensures NamedStrings(Obj(Members(v)), keys) <= NamedStrings(v, keys)
    ensures RecordsIn(Obj(Members(v))) == if v.Obj? then RecordsIn(v) else map[]
  {
  }

  lemma CandidatesSupported(payload: Fields)
    ensures NamedStrings(Member(payload, "candidates"), {"candidate_id"}) <= NamedStrings(Obj(payload), CANDIDATE_SOURCE_KEYS)
  {
    hide NamedStrings;
    NamedOfMember(payload, "candidates", CANDIDATE_SOURCE_KEYS);
    NamedMonotone(Member(payload, "candidates"), {"candidate_id"}, CANDIDATE_SOURCE_KEYS);
  }

  lemma PoolsSupported(task: Task, pools: Pools)
    requires PoolsOf(task) == Some(pools)
    ensures var records := RecordsIn(task.payload);
      var assumptions := NamedStrings(task.payload, ASSUMPTION_SOURCE_KEYS) + Assumptions(records);
      var evidence := NamedStrings(task.payload, EVIDENCE_SOURCE_KEYS);
      && pools.evidence <= evidence
      && pools.claim <= NamedStrings(task.payload, CLAIM_SOURCE_KEYS)
      && (task.taskType == "EVIDENCE_ASSESS" ==> pools.candidate <= records.Keys)
      && (task.taskType != "EVIDENCE_ASSESS" ==> pools.candidate <= NamedStrings(task.payload, CANDIDATE_SOURCE_KEYS))
      && pools.assumption <= assumptions
      && pools.support <= evidence + assumptions
  {
    hide NamedStrings, RecordsIn, CatalogIds, SeedSupports, Member, EvidencePool;
    var v, payload := task.payload, Members(task.payload);
    EvidenceSupported(task);
    ObjectOnly(v, EVIDENCE_SOURCE_KEYS);
    ObjectOnly(v, CLAIM_SOURCE_KEYS);
    ObjectOnly(v, CANDIDATE_SOURCE_KEYS);
    ObjectOnly(v, ASSUMPTION_SOURCE_KEYS);
    CandidatesSupported(payload);
    SeedsSupported(payload);
  }

  /** A payload that is not a list is the same to both. */
  lemma SamePayload(result: AgentResult, keys: set<string>)
    requires !Member(result, "payload").Arr?
    ensures NamedStrings(Obj(Members(Member(result, "payload"))), keys) == NamedStrings(PayloadOrEmpty(result), keys)
  {
  }

  /** References that the Runtime accepts, the Control API accepts: for every task type and every
      result whose payload is not a list, which the contract never allows. */
  lemma RuntimeImpliesControl(task: Task, result: AgentResult)
    requires !Member(result, "payload").Arr?
    requires RuntimeUnsupported(task, result) == Some(NOTHING_UNSUPPORTED)
    ensures ControlUnsupported(task, result) == NOTHING_UNSUPPORTED
  {
    hide NamedStrings, RecordsIn, PoolsOf, Member, PayloadOrEmpty;
    SamePayload(result, CANDIDATE_KEYS);
    SamePayload(result, {"assumption_refs"});
    SamePayload(result, {"support_refs"});
    var pools := PoolsOf(task).value;
    PoolsSupported(task, pools);
    var r := Referenced(result, PayloadOrEmpty(result));
    assert r.evidence - pools.evidence == {} && r.claim - pools.claim == {} && r.candidate - pools.candidate == {}
      && r.assumption - pools.assumption == {} && r.support - pools.support == {};
    NothingLeft(r.evidence, pools.evidence, NamedStrings(task.payload, EVIDENCE_SOURCE_KEYS));
    NothingLeft(r.claim, pools.claim, NamedStrings(task.payload, CLAIM_SOURCE_KEYS));
    if task.taskType == "EVIDENCE_ASSESS" {
      NothingLeft(r.candidate, pools.candidate, RecordsIn(task.payload).Keys);
    } else {
      NothingLeft(r.candidate, pools.candidate, NamedStrings(task.payload, CANDIDATE_SOURCE_KEYS));
    }
    var assumptions := NamedStrings(task.payload, ASSUMPTION_SOURCE_KEYS) + Assumptions(RecordsIn(task.payload));
    NothingLeft(r.assumption, pools.assumption, assumptions);
    NothingLeft(r.support, pools.support, NamedStrings(task.payload, EVIDENCE_SOURCE_KEYS) + assumptions);
  }

  /** With a list for a payload the Runtime reads nothing where the Control API reads references. */
  lemma ListPayloadDiverges()
    ensures
      var task := Task("EVIDENCE_PLAN", Obj([]));
      var result := [Field("payload", Arr([Obj([Field("candidate_id", Str("x"))])]))];
      && RuntimeUnsupported(task, result) == Some(NOTHING_UNSUPPORTED)
      && "x" in ControlUnsupported(task, result).candidate
  {
    hide NamedStrings;
    var task := Task("EVIDENCE_PLAN", Obj([]));
    var candidate := Field("candidate_id", Str("x"));
    var payload := Arr([Obj([candidate])]);
    var result := [Field("payload", payload)];
    assert Member(result, "payload") == payload;
    assert RecordsIn(Obj([])) == map[];
    NothingNamed(EVIDENCE_SOURCE_KEYS);
    NothingNamed(CANDIDATE_SOURCE_KEYS);
    NothingNamed(ASSUMPTION_SOURCE_KEYS);
    NothingNamed(CLAIM_SOURCE_KEYS);
    forall keys ensures NamedStrings(Obj([]), keys) == {} {
      NothingNamed(keys);
    }
    CandidateNamed(candidate, CANDIDATE_KEYS);
    forall keys | "candidate_id" !in keys && "payload" !in keys ensures NamedStrings(Obj(result), keys) == {} {
      CandidateNamed(candidate, keys);
      PayloadNamed(result, payload, keys);
    }
    assert payload.items != [];
    assert PayloadOrEmpty(result) == payload;
    assert EvidencePool(task) == Some({});
    assert PoolsOf(task) == Some(Pools({}, {}, {}, {}, {}, {}));
    var r := Referenced(result, Obj([]));
    assert r == NOTHING_UNSUPPORTED && Members(payload) == [];
    var none: set<string> := {};
    assert none - none == none;
    assert RuntimeUnsupported(task, result) == Some(NOTHING_UNSUPPORTED);
  }

  lemma NothingNamed(keys: set<string>)
    ensures NamedStrings(Obj([]), keys) == {}
  {
  }

  lemma CandidateNamed(candidate: Field, keys: set<string>)
    requires candidate == Field("candidate_id", Str("x"))
    ensures NamedStrings(Arr([Obj([candidate])]), keys) == if "candidate_id" in keys then {"x"} else {}
  {
    assert NamedInFields([candidate], keys) == NamedInField(candidate, keys) + NamedInFields([], keys);
    assert NamedInItems([Obj([candidate])], keys) == NamedStrings(Obj([candidate]), keys) + NamedInItems([], keys);
  }

  lemma PayloadNamed(result: AgentResult, payload: Json, keys: set<string>)
    requires result == [Field("payload", payload)] && "payload" !in keys
    ensures NamedStrings(Obj(result), keys) == NamedStrings(payload, keys)
  {
    assert NamedInFields(result, keys) == NamedInField(result[0], keys) + NamedInFields([], keys);
  }

  lemma NothingLeft(referenced: set<string>, pool: set<string>, supported: set<string>)
    requires referenced - pool == {} && pool <= supported
    ensures referenced - supported == {}
  {
    forall x | x in referenced ensures x in supported {
      assert x !in referenced - pool;
    }
  }

  // ---- Assumptions used as evidence ----

  const COVERAGE_KEYS := {"evidence_refs", "support_refs"}

  predicate Assesses(assessment: Json) {
    && assessment.Obj?
    && Member(assessment.fields, "relation") in {Str("SUPPORTS"), Str("CONTRADICTS")}
    && Member(assessment.fields, "candidate_ref").Str?
  }

  function AssessedRefs(assessments: seq<Json>): set<string> {
    set a | a in assessments && Assesses(a) :: Member(a.fields, "candidate_ref").s
  }

  function Flagged(coverage: set<string>, records: Records): set<string> {
    set ref | ref in coverage && ref in records && IsAssumption(records[ref])
  }

  /** The references for which the Runtime raises an issue. */
  function RuntimeFlagged(task: Task, result: AgentResult): set<string> {
    var assessments := Elements(Member(Members(Member(result, "payload")), "assessments"));
    var assessed := if Member(result, "task_type") == Str("EVIDENCE_ASSESS") then AssessedRefs(assessments) else {};
    Flagged(NamedStrings(Obj(result), COVERAGE_KEYS) + assessed, RecordsIn(task.payload))
  }

  /** The text stands in the result as evidence or support, or as the reference of an assessment that supports or
      contradicts, and the last record of that id in the task is an assumption. */
  ghost predicate CoveredByAssumption(task: Task, result: AgentResult, text: string) {
    && AssumedAtLast(task.payload, text)
    && (|| Stands(Obj(result), {"evidence_refs", "support_refs"}, text)
        || (Get(result, "task_type") == Some(Str("EVIDENCE_ASSESS"))
            && Get(result, "payload").Some? && AssessesIn(In(Get(result, "payload").value, "assessments"), text)))
  }

  predicate AssessesIn(v: Option<Json>, text: string) {
    v.Some? && v.value.Arr? && exists i | 0 <= i < |v.value.items| ::
      && In(v.value.items[i], "relation") in {Some(Str("SUPPORTS")), Some(Str("CONTRADICTS"))}
      && In(v.value.items[i], "candidate_ref") == Some(Str(text))
  }

  lemma AssessedExactly(v: Json, text: string)
    ensures text in AssessedRefs(Elements(Member(Members(v), "assessments"))) <==> AssessesIn(In(v, "assessments"), text)
  {
    hide Get;
    NoMembers();
    var items := Elements(Member(Members(v), "assessments"));
    forall a ensures (Assesses(a) && Member(a.fields, "candidate_ref").s == text) <==>
                       && In(a, "relation") in {Some(Str("SUPPORTS")), Some(Str("CONTRADICTS"))}
                       && In(a, "candidate_ref") == Some(Str(text)) {
    }
    if text in AssessedRefs(items) {
      var a :| a in items && Assesses(a) && Member(a.fields, "candidate_ref").s == text;
      var i :| 0 <= i < |items| && items[i] == a;
    }
  }

  lemma FlaggedExactly(task: Task, result: AgentResult, text: string)
    ensures text in RuntimeFlagged(task, result) <==> CoveredByAssumption(task, result, text)
  {
    hide NamedStrings, RecordsIn, Stands, AssumedAtLast, AssessedRefs, AssessesIn, IsAssumption, Elements, Members, Recorded;
    NamedExactly(Obj(result), COVERAGE_KEYS, text);
    AssumptionsExactly(task.payload, text);
    AssessedExactly(Member(result, "payload"), text);
    NoAssessments(text);
  }

  lemma NoAssessments(text: string)
    ensures !AssessesIn(In(Null, "assessments"), text)
  {
  }

  /** The Runtime's loops: over the assessments, then over the references collected. */
  method FlagAssumptions(task: Task, result: AgentResult) returns (flagged: set<string>)
    ensures flagged == RuntimeFlagged(task, result)
    ensures forall x :: x in flagged <==> CoveredByAssumption(task, result, x)
  {
    forall x ensures x in RuntimeFlagged(task, result) <==> CoveredByAssumption(task, result, x) {
      FlaggedExactly(task, result, x);
    }
    hide CoveredByAssumption;
    hide NamedStrings, RecordsIn, Member, AssessedRefs, Flagged, Members, Elements;
    var records := CollectEvidenceRecords(task.payload, map[]);
    NoneBefore(records, RecordsIn(task.payload));
    var coverage := CollectNamedStrings(Obj(result), COVERAGE_KEYS, {});
    if Member(result, "task_type") == Str("EVIDENCE_ASSESS") {
      var assessed := CollectAssessed(Elements(Member(Members(Member(result, "payload")), "assessments")));
      coverage := coverage + assessed;
      assert coverage == {} + NamedStrings(Obj(result), COVERAGE_KEYS) + assessed;
    }
    assert {} + NamedStrings(Obj(result), COVERAGE_KEYS) == NamedStrings(Obj(result), COVERAGE_KEYS);
    assert NamedStrings(Obj(result), COVERAGE_KEYS) + {} == NamedStrings(Obj(result), COVERAGE_KEYS);
    flagged := FlagAll(coverage, records);
  }

  method CollectAssessed(assessments: seq<Json>) returns (refs: set<string>)
    ensures refs == AssessedRefs(assessments)
  {
    refs := {};
    for i := 0 to |assessments|
      invariant refs == AssessedRefs(assessments[..i])
    {
      assert assessments[..i + 1] == assessments[..i] + [assessments[i]];
      if Assesses(assessments[i]) {
        refs := refs + {Member(assessments[i].fields, "candidate_ref").s};
      }
    }
    assert assessments[..|assessments|] == assessments;
  }

  method FlagAll(coverage: set<string>, records: Records) returns (flagged: set<string>)
    ensures flagged == Flagged(coverage, records)
  {
    flagged := {};
    var rest := coverage;
    while rest != {}
      invariant rest <= coverage && flagged == Flagged(coverage - rest, records)
      decreases |rest|
    {
      var ref :| ref in rest;
      rest := rest - {ref};
      if ref in records && IsAssumption(records[ref]) {
        flagged := flagged + {ref};
      }
    }
    assert coverage - {} == coverage;
  }

  /** What the Control API iterates over; it raises for values that cannot be iterated. */
  function Iterated(v: Option<Json>): Option<seq<Json>> {
    match v
    case None => Some([])
    case Some(Arr(items)) => Some(items)
    case Some(Str(_)) => Some([])
    case Some(Obj(_)) => Some([])
    case _ => None
  }

  /** A relation that cannot be looked up in a set raises. */
  predicate RelationHashable(assessment: Json) {
    assessment.Obj? ==> !Member(assessment.fields, "relation").Arr? && !Member(assessment.fields, "relation").Obj?
  }

  function ControlFlagged(task: Task, result: AgentResult): Option<set<string>> {
    var records := RecordsIn(task.payload);
    var named := NamedStrings(Obj(result), COVERAGE_KEYS);
    if task.taskType != "EVIDENCE_ASSESS" then Some(Flagged(named, records))
    else
      match PayloadOrEmpty(result)
      case Obj(payload) =>
        (match Iterated(Get(payload, "assessments"))
         case None => None
         case Some(items) =>
           if forall a | a in items :: RelationHashable(a) then Some(Flagged(named + AssessedRefs(items), records))
           else None)
      case _ => None
  }

  /** For a result that echoes its task's type, the Control API flags exactly the references that the
      Runtime flags, unless it raises; it does not when the assessments are objects of plain relations. */
  lemma FlagsAgree(task: Task, result: AgentResult)
    requires Member(result, "task_type") == Str(task.taskType)
    ensures ControlFlagged(task, result).Some? ==> ControlFlagged(task, result).value == RuntimeFlagged(task, result)
    ensures
      var payload := Member(result, "payload");
      var assessments := Member(Members(payload), "assessments");
      && (payload.Obj? || payload.Null?)
      && (Get(Members(payload), "assessments").Some? ==> assessments.Arr?)
      && (forall a | a in Elements(assessments) :: RelationHashable(a))
      ==> ControlFlagged(task, result).Some?
  {
    hide NamedStrings, RecordsIn, Flagged, Assesses;
    var payload := Member(result, "payload");
    if task.taskType == "EVIDENCE_ASSESS" {
      if PayloadOrEmpty(result).Obj? {
        var fields := PayloadOrEmpty(result).fields;
        assert fields == Members(payload);
        if Iterated(Get(fields, "assessments")).Some? {
          assert Iterated(Get(fields, "assessments")).value == Elements(Member(fields, "assessments"));
        }
      }
    } else {
      var named := NamedStrings(Obj(result), COVERAGE_KEYS);
      assert named + {} == named;
    }
  }
}
