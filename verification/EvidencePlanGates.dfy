/** The Control API's check of an evidence plan, and its agreement with the Runtime's. */
module EvidencePlanGates {
  import opened Json
  import opened ReferenceCollectors
  import opened CollatedJson
  import opened EvidencePlans
  import opened Sorting

  // ---- The Control API's check ----

  /** The members of `set(value)`: elements, characters or keys. */
  function SetOf(v: Json): set<Json> {
    match v
    case Arr(items) => set x | x in items
    case Str(s) => set c | c in s :: Str([c])
    case Obj(fields) => set f | f in fields :: Str(f.key)
    case _ => {}
  }

  /** The claim ids of the plans that are objects. */
  function ControlIds(plans: seq<Json>): seq<Json> {
    if plans == [] then []
    else
      var rest, plan := ControlIds(plans[..|plans| - 1]), plans[|plans| - 1];
      if plan.Obj? then rest + [Member(plan.fields, "claim_id")] else rest
  }

  function ObjectSteps(steps: seq<Step>): seq<Step> {
    if steps == [] then []
    else
      var rest, s := ObjectSteps(steps[..|steps| - 1]), steps[|steps| - 1];
      if s.action.Obj? then rest + [s] else rest
  }

  /** The actions that are objects, of the plans that are objects with a text for a claim id. */
  function ControlSteps(plans: seq<Json>): seq<Step> {
    if plans == [] then []
    else
      var rest, plan := ControlSteps(plans[..|plans| - 1]), plans[|plans| - 1];
      if plan.Obj? && Member(plan.fields, "claim_id").Str? then rest + ObjectSteps(StepsOf(plan.fields)) else rest
  }

  /** `isinstance(limit, int)`, which a boolean is too. */
  function ControlLimit(limit: Json): Option<int> {
    match limit
    case Num(n) => Some(n)
    case Bool(b) => Some(if b then 1 else 0)
    case _ => None
  }

  predicate Within(limit: Json, n: nat) {
    ControlLimit(limit).Some? ==> n <= ControlLimit(limit).value
  }

  function Texts(keys: set<string>): set<Json> {
    set k | k in keys :: Str(k)
  }

  function ClaimId(s: Step): Json {
    Member(s.plan, "claim_id")
  }

  function Count(steps: seq<Step>, id: Json): nat {
    if steps == [] then 0
    else Count(steps[..|steps| - 1], id) + if ClaimId(steps[|steps| - 1]) == id then 1 else 0
  }

  predicate ControlToolAllowed(brief: Brief, tools: set<Json>, s: Step) {
    var name := Member(Members(s.action), "tool_name");
    && name in tools
    && Member(Members(s.action), "tool_version")
       == if name.Str? && name.s in brief.catalog then Str(brief.catalog[name.s]) else Null
  }

  predicate ControlInContext(brief: Brief, s: Step) {
    var id, action := ClaimId(s), Members(s.action);
    && Member(action, "claim_id") == id
    && Member(action, "polarity") == Str(s.polarity)
    && id.Str? && id.s in brief.claims
    && Same(Member(action, "scope_constraints"), Member(brief.claims[id.s], "geographic_scope"))
  }

  predicate ControlStepAccepted(brief: Brief, tools: set<Json>, s: Step) {
    ControlToolAllowed(brief, tools, s) && ControlInContext(brief, s)
  }

  function AllowedTools(task: PlanTask): set<Json> {
    SetOf(Member(Members(Member(Members(task.payload), "planning_constraints")), "allowed_tools"))
  }

  predicate Checked(task: PlanTask, result: PlanResult) {
    task.taskType == "EVIDENCE_PLAN" && result.status == "COMPLETE" && task.payload.Obj? && result.payload.Obj?
  }

  predicate ControlAccepts(task: PlanTask, result: PlanResult) {
    Checked(task, result) ==>
      var (brief, plans) := (BriefOf(task), PlansOf(result));
      var steps := ControlSteps(plans);
      && NoRepeats(ControlIds(plans))
      && Occurring(ControlIds(plans)) == Texts(brief.claims.Keys)
      && IdsDiffer(steps)
      && Within(brief.maxTotal, |steps|)
      && (forall s | s in steps :: ControlStepAccepted(brief, AllowedTools(task), s))
      && (forall s | s in steps :: Within(brief.maxPerClaim, Count(steps, ClaimId(s))))
  }

  // ---- The Control API's loops ----

  method CollectControlSteps(plans: seq<Json>) returns (ids: seq<Json>, steps: seq<Step>)
    ensures ids == ControlIds(plans) && steps == ControlSteps(plans)
  {
    hide StepsOf;
    ids, steps := [], [];
    for i := 0 to |plans|
      invariant ids == ControlIds(plans[..i]) && steps == ControlSteps(plans[..i])
    {
      assert plans[..i + 1][..i] == plans[..i];
      if plans[i].Obj? {
        var id := Member(plans[i].fields, "claim_id");
        ids := ids + [id];
        if id.Str? {
          steps := steps + ObjectSteps(StepsOf(plans[i].fields));
        }
      }
    }
    assert plans[..|plans|] == plans;
  }

  /** Counts the actions of each claim in a dictionary. */
  method CountPerClaim(steps: seq<Step>) returns (counts: map<Json, nat>)
    ensures forall id :: Count(steps, id) == if id in counts then counts[id] else 0
    ensures forall id :: id in counts <==> exists s | s in steps :: ClaimId(s) == id
  {
    hide ClaimId;
    counts := map[];
    for i := 0 to |steps|
      invariant forall id :: Count(steps[..i], id) == if id in counts then counts[id] else 0
      invariant forall id :: id in counts <==> exists s | s in steps[..i] :: ClaimId(s) == id
    {
      assert steps[..i + 1][..i] == steps[..i] && steps[..i + 1] == steps[..i] + [steps[i]];
      var id := ClaimId(steps[i]);
      counts := counts[id := (if id in counts then counts[id] else 0) + 1];
    }
    assert steps[..|steps|] == steps;
  }

  method CheckControlSteps(brief: Brief, tools: set<Json>, steps: seq<Step>) returns (errors: seq<Issue>)
    ensures errors == [] <==> forall s | s in steps :: ControlStepAccepted(brief, tools, s)
  {
    hide ControlToolAllowed, ControlInContext;
    errors := [];
    for i := 0 to |steps|
      invariant errors == [] <==> forall s | s in steps[..i] :: ControlStepAccepted(brief, tools, s)
    {
      assert steps[..i + 1] == steps[..i] + [steps[i]];
      ghost var before := errors;
      if !ControlToolAllowed(brief, tools, steps[i]) {
        errors := errors + [TOOL_NOT_ALLOWED];
      }
      if !ControlInContext(brief, steps[i]) {
        errors := errors + [ACTION_CONTEXT_MISMATCH];
      }
      assert errors == [] <==> before == [] && ControlStepAccepted(brief, tools, steps[i]);
    }
    assert steps[..|steps|] == steps;
  }

  /** For a task and a result in which everything read as a list is one. */
  method ValidateEvidencePlan(task: PlanTask, result: PlanResult) returns (errors: seq<Issue>)
    ensures errors == [] <==> ControlAccepts(task, result)
  {
    hide BriefOf, ControlStepAccepted, ControlIds, ControlSteps, NoRepeats, IdsDiffer, AllowedTools, Count, ControlLimit;
    errors := [];
    if !Checked(task, result) {
      return;
    }
    var brief := BriefOf(task);
    var ids, steps := CollectControlSteps(PlansOf(result));
    if !NoRepeats(ids) || Occurring(ids) != Texts(brief.claims.Keys) {
      errors := errors + [CLAIM_COVERAGE_INVALID];
    }
    if !IdsDiffer(steps) {
      errors := errors + [ACTION_DUPLICATED];
    }
    if !Within(brief.maxTotal, |steps|) {
      errors := errors + [ACTION_LIMIT_EXCEEDED];
    }
    var counts := CountPerClaim(steps);
    var stepErrors := CheckControlSteps(brief, AllowedTools(task), steps);
    errors := errors + stepErrors;
    if exists id | id in counts :: !Within(brief.maxPerClaim, counts[id]) {
      errors := errors + [ACTION_LIMIT_EXCEEDED];
    }
  }

  // ---- Coverage ----

  /** As many distinct ids as claims, all of them claims: the ids are the claims. */
  lemma CoversAll(ids: seq<string>, claims: set<string>)
    requires CoversOnce(ids, claims)
    ensures Occurring(ids) == claims
  {
    CountOccurring(ids);
    SubsetSize(Occurring(ids), claims);
  }

  predicate TextIds(plans: seq<Json>) {
    forall plan | plan in plans :: plan.Obj? && Member(plan.fields, "claim_id").Str?
  }

  /** With texts for claim ids, both services read the same ids, plan by plan. */
  lemma {:induction false} SameIds(plans: seq<Json>)
    requires TextIds(plans)
    ensures |ProducedIds(plans)| == |plans| && |ControlIds(plans)| == |plans|
    ensures forall i | 0 <= i < |plans| ::
      ControlIds(plans)[i] == Str(ProducedIds(plans)[i]) == Member(Members(plans[i]), "claim_id")
  {
    hide Member;
    if plans != [] {
      var rest := plans[..|plans| - 1];
      assert forall plan | plan in rest :: plan in plans;
      SameIds(rest);
      var last := plans[|plans| - 1];
      assert last in plans && Members(last) == last.fields;
      assert ProducedIds(plans) == ProducedIds(rest) + [Member(last.fields, "claim_id").s];
      assert ControlIds(plans) == ControlIds(rest) + [Member(last.fields, "claim_id")];
    }
  }

  lemma SameCoverage(plans: seq<Json>, claims: set<string>)
    requires TextIds(plans) && CoversOnce(ProducedIds(plans), claims)
    ensures NoRepeats(ControlIds(plans))
    ensures Occurring(ControlIds(plans)) == Texts(claims)
  {
    hide ProducedIds, ControlIds;
    SameIds(plans);
    var (ids, control) := (ProducedIds(plans), ControlIds(plans));
    CoversAll(ids, claims);
    forall id | id in control ensures id.Str? && id.s in claims {
      var i :| 0 <= i < |control| && control[i] == id;
      assert ids[i] in ids;
    }
    forall k | k in claims ensures Str(k) in control {
      assert k in Occurring(ids);
      var i :| 0 <= i < |ids| && ids[i] == k;
      assert control[i] == Str(k);
    }
  }

  /** An id that is not a text is no claim's. */
  lemma {:induction false} OtherIdsRejected(plans: seq<Json>, plan: Json)
    requires plan in plans && plan.Obj? && !Member(plan.fields, "claim_id").Str?
    ensures exists id | id in ControlIds(plans) :: !id.Str?
  {
    var rest := plans[..|plans| - 1];
    if plan == plans[|plans| - 1] {
      assert Member(plan.fields, "claim_id") in ControlIds(plans);
    } else {
      var i :| 0 <= i < |plans| && plans[i] == plan;
      assert rest[i] == plan;
      OtherIdsRejected(rest, plan);
      var id :| id in ControlIds(rest) && !id.Str?;
      assert id in ControlIds(plans);
    }
  }

  // ---- Steps ----

  lemma {:induction false} AllObjects(steps: seq<Step>)
    requires forall s | s in steps :: s.action.Obj?
    ensures ObjectSteps(steps) == steps
  {
    if steps != [] {
      var rest := steps[..|steps| - 1];
      assert forall s | s in rest :: s in steps;
      AllObjects(rest);
      assert steps[|steps| - 1] in steps;
      assert rest + [steps[|steps| - 1]] == steps;
    }
  }

  lemma {:induction false} SameSteps(plans: seq<Json>)
    requires TextIds(plans) && forall s | s in AllSteps(plans) :: s.action.Obj?
    ensures ControlSteps(plans) == AllSteps(plans)
  {
    hide StepsOf;
    if plans != [] {
      var rest, plan := plans[..|plans| - 1], plans[|plans| - 1];
      assert forall p | p in rest :: p in plans;
      assert plan in plans;
      assert AllSteps(plans) == AllSteps(rest) + StepsOf(plan.fields);
      forall s | s in AllSteps(rest) ensures s.action.Obj? {
        assert s in AllSteps(plans);
      }
      SameSteps(rest);
      forall s | s in StepsOf(plan.fields) ensures s.action.Obj? {
        assert s in AllSteps(plans);
      }
      AllObjects(StepsOf(plan.fields));
    }
  }

  lemma StepsBelong(plan: Fields, s: Step)
    requires s in StepsOf(plan)
    ensures s.plan == plan
  {
  }

  lemma {:induction false} CountConcat(steps: seq<Step>, more: seq<Step>, id: Json)
    ensures Count(steps + more, id) == Count(steps, id) + Count(more, id)
  {
    hide ClaimId;
    if more == [] {
      assert steps + more == steps;
    } else {
      CountConcat(steps, more[..|more| - 1], id);
      assert (steps + more)[..|steps + more| - 1] == steps + more[..|more| - 1];
    }
  }

  lemma {:induction false} CountUniform(steps: seq<Step>, id: Json, all: bool)
    requires forall s | s in steps :: (ClaimId(s) == id) == all
    ensures Count(steps, id) == if all then |steps| else 0
  {
    hide ClaimId;
    if steps != [] {
      var rest := steps[..|steps| - 1];
      assert forall s | s in rest :: s in steps;
      CountUniform(rest, id, all);
      assert steps[|steps| - 1] in steps;
    }
  }

  /** When no two plans share a claim id, the actions counted for a claim are those of its plan. */
  lemma {:induction false} CountOfPlan(plans: seq<Json>, id: Json)
    requires forall i, j | 0 <= i < j < |plans| ::
      Member(Members(plans[i]), "claim_id") != Member(Members(plans[j]), "claim_id")
    ensures forall i | 0 <= i < |plans| && Member(Members(plans[i]), "claim_id") == id ::
      Count(AllSteps(plans), id) == |StepsOf(Members(plans[i]))|
    ensures (forall plan | plan in plans :: Member(Members(plan), "claim_id") != id) ==> Count(AllSteps(plans), id) == 0
  {
    hide StepsOf, Member, Members;
    if plans != [] {
      var rest, last := plans[..|plans| - 1], Members(plans[|plans| - 1]);
      CountOfPlan(rest, id);
      CountConcat(AllSteps(rest), StepsOf(last), id);
      forall s | s in StepsOf(last) ensures ClaimId(s) == Member(last, "claim_id") {
        StepsBelong(last, s);
      }
      CountUniform(StepsOf(last), id, Member(last, "claim_id") == id);
      assert plans[|plans| - 1] in plans;
      assert forall p | p in rest :: p in plans;
    }
  }

  lemma {:induction false} StepOfPlan(plans: seq<Json>, s: Step) returns (i: nat)
    requires s in AllSteps(plans)
    ensures i < |plans| && s in StepsOf(Members(plans[i]))
  {
    hide StepsOf;
    var rest, last := plans[..|plans| - 1], Members(plans[|plans| - 1]);
    if s in StepsOf(last) {
      i := |plans| - 1;
    } else {
      i := StepOfPlan(rest, s);
    }
  }

  lemma {:induction false} PlanStepIn(plans: seq<Json>, i: nat, s: Step)
    requires i < |plans| && s in StepsOf(Members(plans[i]))
    ensures s in AllSteps(plans)
  {
    hide StepsOf;
    if i < |plans| - 1 {
      PlanStepIn(plans[..|plans| - 1], i, s);
    }
  }

  // ---- What is unique, is unique below ----

  lemma UniqueElements(v: Json, k: string)
    requires UniqueKeys(v)
    ensures forall x | x in Elements(Member(Members(v), k)) :: UniqueKeys(x)
    ensures UniqueKeys(Obj(Members(v)))
  {
    if k in Keys(Members(v)) {
      UniqueMember(Members(v), k);
    }
  }

  lemma {:induction false} ClaimsUnique(items: seq<Json>)
    requires forall x | x in items :: UniqueKeys(x)
    ensures forall id | id in ClaimsOf(items) :: UniqueKeys(Obj(ClaimsOf(items)[id]))
  {
    hide UniqueKeys, Member;
    if items != [] {
      var rest, last := items[..|items| - 1], items[|items| - 1];
      assert forall x | x in rest :: x in items;
      ClaimsUnique(rest);
      assert last in items;
      UniqueElements(last, "claim_id");
    }
  }

  lemma ActionUnique(plans: seq<Json>, s: Step)
    requires (forall x | x in plans :: UniqueKeys(x)) && s in AllSteps(plans)
    ensures UniqueKeys(s.action) && UniqueKeys(Obj(Members(s.action)))
  {
    hide UniqueKeys, Member;
    var i := StepOfPlan(plans, s);
    UniqueElements(plans[i], "support_actions");
    UniqueElements(plans[i], "counter_actions");
    UniqueElements(s.action, "action_id");
  }

  // ---- One action ----

  lemma ScopesSame(upTo: Collation, a: Fields, b: Fields, j: string, k: string)
    requires UniqueKeys(Obj(a)) && UniqueKeys(Obj(b)) && SameJson(upTo, Get(a, j), Get(b, k))
    ensures Same(Member(a, j), Member(b, k))
  {
    hide UniqueKeys, Same, Ordered;
    if j in Keys(a) {
      UniqueMember(a, j);
      UniqueMember(b, k);
      SameTextSameValue(upTo, At(a, j), At(b, k));
    } else {
      NullSame();
    }
  }

  lemma NullSame()
    ensures Same(Null, Null)
  {
  }

  lemma ToolAgrees(task: PlanTask, s: Step)
    requires ToolPinned(BriefOf(task), s)
    ensures ControlToolAllowed(BriefOf(task), AllowedTools(task), s)
  {
    hide ClaimsOf, CatalogOf, Member;
    var brief, name := BriefOf(task), Member(Members(s.action), "tool_name");
    assert name in AllowedTools(task) by {
      var tools := Member(Members(Member(Members(task.payload), "planning_constraints")), "allowed_tools");
      assert name.s in Strings(tools);
    }
    MemberOf(Members(s.action), "tool_version");
  }

  lemma MemberOf(fields: Fields, k: string)
    ensures Member(fields, k) == if Get(fields, k).Some? then Get(fields, k).value else Null
  {
  }

  lemma ContextAgrees(brief: Brief, upTo: Collation, s: Step)
    requires InContext(brief, upTo, s) && UniqueKeys(Obj(Members(s.action)))
    requires forall id | id in brief.claims :: UniqueKeys(Obj(brief.claims[id]))
    ensures ControlInContext(brief, s)
  {
    hide UniqueKeys, Same, SameJson;
    var claim := brief.claims[At(s.plan, "claim_id").s];
    ScopesSame(upTo, Members(s.action), claim, "scope_constraints", "geographic_scope");
  }

  /** An action without issues is an object that the Control API accepts. */
  lemma StepAgrees(task: PlanTask, upTo: Collation, s: Step)
    requires StepIssues(BriefOf(task), upTo, s) == [] && UniqueKeys(Obj(Members(s.action)))
    requires forall id | id in BriefOf(task).claims :: UniqueKeys(Obj(BriefOf(task).claims[id]))
    ensures s.action.Obj? && ControlStepAccepted(BriefOf(task), AllowedTools(task), s)
  {
    hide BriefOf, UniqueKeys, ToolPinned, InContext, InPool, ControlToolAllowed, ControlInContext, AllowedTools;
    ToolAgrees(task, s);
    ContextAgrees(BriefOf(task), upTo, s);
    PooledObject(BriefOf(task), s);
  }

  lemma PooledObject(brief: Brief, s: Step)
    requires InPool(brief, s)
    ensures s.action.Obj?
  {
  }

  // ---- The whole plan ----

  /** A plan that is not an object lacks the actions it would need. */
  lemma PlanIsObject(brief: Brief, plan: Json)
    requires PlanAccepted(brief, Members(plan))
    ensures plan.Obj?
  {
  }

  predicate UniqueInput(task: PlanTask, result: PlanResult) {
    UniqueKeys(task.payload) && UniqueKeys(result.payload)
  }

  lemma StepsAgree(upTo: Collation, task: PlanTask, result: PlanResult)
    requires Checked(task, result) && UniqueInput(task, result) && RuntimeAccepts(upTo, task, result)
    ensures forall s | s in AllSteps(PlansOf(result)) ::
      s.action.Obj? && ControlStepAccepted(BriefOf(task), AllowedTools(task), s)
  {
    hide UniqueKeys, StepIssues, PlanAccepted, CoversOnce, AllowedTools, ControlStepAccepted, IdsDiffer, Member;
    UniqueElements(task.payload, "claims");
    ClaimsUnique(Elements(Member(Members(task.payload), "claims")));
    UniqueElements(result.payload, "claim_plans");
    forall s | s in AllSteps(PlansOf(result))
      ensures s.action.Obj? && ControlStepAccepted(BriefOf(task), AllowedTools(task), s)
    {
      ActionUnique(PlansOf(result), s);
      StepAgrees(task, upTo, s);
    }
  }

  /** The limits as the Control API reads them: the total, and those of the plans that have actions. */
  predicate LimitsKept(brief: Brief, plans: seq<Json>) {
    && Within(brief.maxTotal, |AllSteps(plans)|)
    && forall i | 0 <= i < |plans| && StepsOf(Members(plans[i])) != [] ::
         Within(brief.maxPerClaim, |StepsOf(Members(plans[i]))|)
  }

  lemma CountsAreLimits(brief: Brief, plans: seq<Json>)
    requires TextIds(plans) && NoRepeats(ControlIds(plans))
    ensures (forall s | s in AllSteps(plans) :: Within(brief.maxPerClaim, Count(AllSteps(plans), ClaimId(s)))) <==>
      forall i | 0 <= i < |plans| && StepsOf(Members(plans[i])) != [] ::
        Within(brief.maxPerClaim, |StepsOf(Members(plans[i]))|)
  {
    hide StepsOf, Count, Member, Members, ControlIds, Within;
    var steps := AllSteps(plans);
    SameIds(plans);
    forall id {
      CountOfPlan(plans, id);
    }
    forall i, s | 0 <= i < |plans| && s in StepsOf(Members(plans[i]))
      ensures s in steps && Count(steps, ClaimId(s)) == |StepsOf(Members(plans[i]))|
    {
      PlanStepIn(plans, i, s);
      StepsBelong(Members(plans[i]), s);
      CountOfPlan(plans, ClaimId(s));
    }
    if forall s | s in steps :: Within(brief.maxPerClaim, Count(steps, ClaimId(s))) {
      forall i | 0 <= i < |plans| && StepsOf(Members(plans[i])) != []
        ensures Within(brief.maxPerClaim, |StepsOf(Members(plans[i]))|)
      {
        var s := StepsOf(Members(plans[i]))[0];
        assert s in StepsOf(Members(plans[i]));
        assert Within(brief.maxPerClaim, Count(steps, ClaimId(s)));
      }
    } else {
      var s :| s in steps && !Within(brief.maxPerClaim, Count(steps, ClaimId(s)));
      var i := StepOfPlan(plans, s);
    }
  }

  /** A complete plan that the Runtime accepts is accepted by the Control API exactly when all its claim
      ids are texts and it keeps the limits that only the Control API enforces. */
  lemma AcceptedAlikeExactly(upTo: Collation, task: PlanTask, result: PlanResult)
    requires Checked(task, result) && UniqueInput(task, result) && RuntimeAccepts(upTo, task, result)
    ensures ControlAccepts(task, result) <==>
      TextIds(PlansOf(result)) && LimitsKept(BriefOf(task), PlansOf(result))
  {
    hide UniqueKeys, StepIssues, AllowedTools, ControlStepAccepted, IdsDiffer, Member, BriefOf, CoversOnce, NoRepeats;
    hide ProducedIds, StepsOf, Count, Within, PlanAccepted;
    var (brief, plans) := (BriefOf(task), PlansOf(result));
    StepsAgree(upTo, task, result);
    if TextIds(plans) {
      SameCoverage(plans, brief.claims.Keys);
      SameSteps(plans);
      CountsAreLimits(brief, plans);
    } else {
      var plan :| plan in plans && !(plan.Obj? && Member(plan.fields, "claim_id").Str?);
      PlanIsObject(brief, plan);
      OtherIdsRejected(plans, plan);
      var id :| id in ControlIds(plans) && !id.Str?;
      assert id in Occurring(ControlIds(plans)) && id !in Texts(brief.claims.Keys);
    }
  }

  /** A limit that both enforce, or neither. */
  predicate EnforcedAlike(limit: Json) {
    if limit.Num? then limit.n > 0 else !limit.Bool?
  }

  /** With positive limits, or none, and texts for claim ids, what the Runtime accepts the Control API accepts. */
  lemma RuntimePlanImpliesControl(upTo: Collation, task: PlanTask, result: PlanResult)
    requires UniqueInput(task, result) && RuntimeAccepts(upTo, task, result)
    requires result.payload.Obj? ==> TextIds(PlansOf(result))
    requires EnforcedAlike(BriefOf(task).maxPerClaim) && EnforcedAlike(BriefOf(task).maxTotal)
    ensures ControlAccepts(task, result)
  {
    hide UniqueKeys, StepIssues, IdsDiffer, Member, BriefOf, CoversOnce, StepsOf, TextIds, ControlAccepts;
    if Checked(task, result) {
      AcceptedAlikeExactly(upTo, task, result);
      var (brief, plans) := (BriefOf(task), PlansOf(result));
      forall i | 0 <= i < |plans| && StepsOf(Members(plans[i])) != []
        ensures Within(brief.maxPerClaim, |StepsOf(Members(plans[i]))|)
      {
        assert PlanAccepted(brief, Members(plans[i]));
      }
    } else {
      NotChecked(task, result);
    }
  }

  lemma NotChecked(task: PlanTask, result: PlanResult)
    requires !Checked(task, result)
    ensures ControlAccepts(task, result)
  {
  }

  // ---- A limit that only the Control API enforces ----

  const NEGATIVE_LIMIT_TASK := PlanTask(
    "EVIDENCE_PLAN",
    Obj([Field("planning_constraints", Obj([Field("max_total_actions", Num(-1))]))]),
    Arr([]))

  const EMPTY_PLAN := PlanResult("COMPLETE", Obj([]))

  /** A plan without actions and a negative limit: the Runtime ignores the limit, the Control API does not. */
  lemma NegativeLimitDiverges(upTo: Collation)
    ensures RuntimeAccepts(upTo, NEGATIVE_LIMIT_TASK, EMPTY_PLAN)
    ensures !ControlAccepts(NEGATIVE_LIMIT_TASK, EMPTY_PLAN)
  {
    var task, result := NEGATIVE_LIMIT_TASK, EMPTY_PLAN;
    assert PlansOf(result) == [];
    assert BriefOf(task).claims == map[];
    assert BriefOf(task).maxTotal == Num(-1);
    AcceptedAlikeExactly(upTo, task, result);
  }
}
