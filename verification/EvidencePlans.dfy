/** The two services' checks of an evidence plan, and exactly when a plan that the Runtime accepts is
    accepted by the Control API. */
module EvidencePlans {
  import opened Json
  import opened ReferenceCollectors
  import opened CollatedJson
  import opened Sorting

  datatype PlanTask = PlanTask(taskType: string, payload: Json, toolCatalog: Json)

  datatype PlanResult = PlanResult(status: string, payload: Json)

  datatype Issue =
    | CLAIM_COVERAGE_INVALID
    | SUPPORT_ACTION_REQUIRED
    | COUNTEREVIDENCE_ACTION_REQUIRED
    | ACTION_LIMIT_EXCEEDED
    | OUTPUT_ID_NOT_IN_POOL
    | TOOL_NOT_ALLOWED
    | ACTION_CONTEXT_MISMATCH
    | ACTION_DUPLICATED

  // ---- What both read ----

  /** The claims by id, a later one winning. */
  function ClaimsOf(items: seq<Json>): map<string, Fields> {
    if items == [] then map[]
    else
      var rest, claim := ClaimsOf(items[..|items| - 1]), Members(items[|items| - 1]);
      if Member(claim, "claim_id").Str? then rest[Member(claim, "claim_id").s := claim] else rest
  }

  /** The pinned tool versions by name, a later one winning. */
  function CatalogOf(items: seq<Json>): map<string, string> {
    if items == [] then map[]
    else
      var rest, tool := CatalogOf(items[..|items| - 1]), Members(items[|items| - 1]);
      if Member(tool, "tool_name").Str? && Member(tool, "tool_version").Str? then
        rest[Member(tool, "tool_name").s := Member(tool, "tool_version").s]
      else rest
  }

  datatype Brief = Brief(
    claims: map<string, Fields>, tools: set<string>, pool: set<string>, catalog: map<string, string>,
    maxPerClaim: Json, maxTotal: Json)

  function BriefOf(task: PlanTask): Brief {
    var payload := Members(task.payload);
    var constraints := Members(Member(payload, "planning_constraints"));
    Brief(
      ClaimsOf(Elements(Member(payload, "claims"))),
      Strings(Member(constraints, "allowed_tools")),
      Strings(Member(payload, "action_id_pool")),
      CatalogOf(Elements(task.toolCatalog)),
      Member(constraints, "max_actions_per_claim"),
      Member(constraints, "max_total_actions"))
  }

  /** An action with the plan that it belongs to and the polarity of its list. */
  datatype Step = Step(plan: Fields, action: Json, polarity: string)

  function StepsFrom(plan: Fields, actions: seq<Json>, polarity: string): seq<Step> {
    seq(|actions|, i requires 0 <= i < |actions| => Step(plan, actions[i], polarity))
  }

  function StepsOf(plan: Fields): seq<Step> {
    StepsFrom(plan, Elements(Member(plan, "support_actions")), "SUPPORT")
    + StepsFrom(plan, Elements(Member(plan, "counter_actions")), "COUNTER")
  }

  function AllSteps(plans: seq<Json>): seq<Step> {
    if plans == [] then []
    else AllSteps(plans[..|plans| - 1]) + StepsOf(Members(plans[|plans| - 1]))
  }

  function PlansOf(result: PlanResult): seq<Json> {
    Elements(Member(Members(result.payload), "claim_plans"))
  }

  /** `typeof limit === 'number' ? limit : 0`. */
  function RuntimeLimit(limit: Json): int {
    if limit.Num? then limit.n else 0
  }

  // ---- The Runtime's check ----

  /** The texts among the plans' claim ids. */
  function ProducedIds(plans: seq<Json>): seq<string> {
    if plans == [] then []
    else
      var rest, id := ProducedIds(plans[..|plans| - 1]), Member(Members(plans[|plans| - 1]), "claim_id");
      if id.Str? then rest + [id.s] else rest
  }

  predicate CoversOnce(ids: seq<string>, claims: set<string>) {
    NoRepeats(ids) && |ids| == |claims| && forall id | id in ids :: id in claims
  }

  predicate InPool(brief: Brief, s: Step) {
    var id := Member(Members(s.action), "action_id");
    id.Str? && id.s in brief.pool
  }

  /** The tool is allowed, and its version is the pinned one, or neither is there. */
  predicate ToolPinned(brief: Brief, s: Step) {
    var name, version := Member(Members(s.action), "tool_name"), Get(Members(s.action), "tool_version");
    && name.Str? && name.s in brief.tools
    && version == if name.s in brief.catalog then Some(Str(brief.catalog[name.s])) else None
  }

  predicate InContext(brief: Brief, upTo: Collation, s: Step) {
    var id, action := Get(s.plan, "claim_id"), Members(s.action);
    && Get(action, "claim_id") == id
    && Member(action, "polarity") == Str(s.polarity)
    && id.Some? && id.value.Str? && id.value.s in brief.claims
    && SameJson(upTo, Get(action, "scope_constraints"), Get(brief.claims[id.value.s], "geographic_scope"))
  }

  function StepIssues(brief: Brief, upTo: Collation, s: Step): seq<Issue> {
    (if InPool(brief, s) then [] else [OUTPUT_ID_NOT_IN_POOL])
    + (if ToolPinned(brief, s) then [] else [TOOL_NOT_ALLOWED])
    + (if InContext(brief, upTo, s) then [] else [ACTION_CONTEXT_MISMATCH])
  }

  predicate PlanAccepted(brief: Brief, plan: Fields) {
    && (Member(plan, "route") != Str("SQL") ==>
          && Elements(Member(plan, "support_actions")) != []
          && Elements(Member(plan, "counter_actions")) != [])
    && (RuntimeLimit(brief.maxPerClaim) > 0 ==> |StepsOf(plan)| <= RuntimeLimit(brief.maxPerClaim))
  }

  function ActionId(s: Step): Json {
    Member(Members(s.action), "action_id")
  }

  /** No two actions have one id. */
  predicate IdsDiffer(steps: seq<Step>) {
    forall i, j | 0 <= i < j < |steps| :: ActionId(steps[i]) != ActionId(steps[j])
  }

  predicate RuntimeAccepts(upTo: Collation, task: PlanTask, result: PlanResult) {
    task.taskType == "EVIDENCE_PLAN" && result.payload.Obj? ==>
      var (brief, plans) := (BriefOf(task), PlansOf(result));
      && (result.status == "COMPLETE" ==> CoversOnce(ProducedIds(plans), brief.claims.Keys))
      && (forall plan | plan in plans :: PlanAccepted(brief, Members(plan)))
      && (forall s | s in AllSteps(plans) :: StepIssues(brief, upTo, s) == [])
      && IdsDiffer(AllSteps(plans))
      && (RuntimeLimit(brief.maxTotal) > 0 ==> |AllSteps(plans)| <= RuntimeLimit(brief.maxTotal))
  }

  // ---- The Runtime's loops ----

  /** The ids of the actions that are in the pool, in order. */
  function PooledIds(brief: Brief, steps: seq<Step>): seq<string> {
    if steps == [] then []
    else
      var rest, s := PooledIds(brief, steps[..|steps| - 1]), steps[|steps| - 1];
      if InPool(brief, s) then rest + [ActionId(s).s] else rest
  }

  method CheckActions(brief: Brief, upTo: Collation, steps: seq<Step>) returns (issues: seq<Issue>, actionIds: seq<string>)
    ensures issues == [] <==> forall s | s in steps :: StepIssues(brief, upTo, s) == []
    ensures actionIds == PooledIds(brief, steps)
  {
    issues, actionIds := [], [];
    for i := 0 to |steps|
      invariant issues == [] <==> forall s | s in steps[..i] :: StepIssues(brief, upTo, s) == []
      invariant actionIds == PooledIds(brief, steps[..i])
    {
      assert steps[..i + 1] == steps[..i] + [steps[i]];
      assert steps[..i + 1][..i] == steps[..i];
      issues := issues + StepIssues(brief, upTo, steps[i]);
      if InPool(brief, steps[i]) {
        actionIds := actionIds + [ActionId(steps[i]).s];
      }
    }
    assert steps[..|steps|] == steps;
  }

  method CheckPlan(brief: Brief, plan: Fields) returns (issues: seq<Issue>)
    ensures issues == [] <==> PlanAccepted(brief, plan)
  {
    var support, counter := Elements(Member(plan, "support_actions")), Elements(Member(plan, "counter_actions"));
    issues := [];
    if Member(plan, "route") != Str("SQL") && |support| == 0 {
      issues := issues + [SUPPORT_ACTION_REQUIRED];
    }
    if Member(plan, "route") != Str("SQL") && |counter| == 0 {
      issues := issues + [COUNTEREVIDENCE_ACTION_REQUIRED];
    }
    var limit := RuntimeLimit(brief.maxPerClaim);
    if limit > 0 && |support| + |counter| > limit {
      issues := issues + [ACTION_LIMIT_EXCEEDED];
    }
  }

  method CollectProducedIds(plans: seq<Json>) returns (ids: seq<string>)
    ensures ids == ProducedIds(plans)
  {
    ids := [];
    for i := 0 to |plans|
      invariant ids == ProducedIds(plans[..i])
    {
      assert plans[..i + 1][..i] == plans[..i];
      var id := Member(Members(plans[i]), "claim_id");
      if id.Str? {
        ids := ids + [id.s];
      }
    }
    assert plans[..|plans|] == plans;
  }

  lemma {:induction false} PooledConcat(brief: Brief, steps: seq<Step>, more: seq<Step>)
    ensures PooledIds(brief, steps + more) == PooledIds(brief, steps) + PooledIds(brief, more)
  {
    hide InPool, ActionId;
    if more == [] {
      assert steps + more == steps;
    } else {
      PooledConcat(brief, steps, more[..|more| - 1]);
      assert (steps + more)[..|steps + more| - 1] == steps + more[..|more| - 1];
    }
  }

  /** When every action is in the pool, the ids collected are all the ids. */
  lemma {:induction false} AllPooled(brief: Brief, steps: seq<Step>)
    requires forall s | s in steps :: InPool(brief, s)
    ensures |PooledIds(brief, steps)| == |steps|
    ensures forall i | 0 <= i < |steps| :: ActionId(steps[i]) == Str(PooledIds(brief, steps)[i])
  {
    hide InPool, ActionId;
    if steps != [] {
      var rest := steps[..|steps| - 1];
      assert forall s | s in rest :: s in steps;
      AllPooled(brief, rest);
      PooledText(brief, steps[|steps| - 1]);
    }
  }

  lemma PooledText(brief: Brief, s: Step)
    requires InPool(brief, s)
    ensures ActionId(s).Str?
  {
  }

  method ValidateEvidencePlanSemantics(upTo: Collation, task: PlanTask, result: PlanResult) returns (issues: seq<Issue>)
    ensures issues == [] <==> RuntimeAccepts(upTo, task, result)
  {
    hide StepIssues, PlanAccepted, PooledIds, CoversOnce, StepsOf, BriefOf, InPool, ProducedIds, RuntimeLimit;
    hide NoRepeats, IdsDiffer;
    if task.taskType != "EVIDENCE_PLAN" || !result.payload.Obj? {
      return [];
    }
    var brief, plans := BriefOf(task), PlansOf(result);
    issues := [];
    if result.status == "COMPLETE" {
      var ids := CollectProducedIds(plans);
      if !CoversOnce(ids, brief.claims.Keys) {
        issues := [CLAIM_COVERAGE_INVALID];
      }
    }
    ghost var covered := issues == [];
    var actionIds: seq<string>, total := [], 0;
    NoSteps(brief);
    for i := 0 to |plans|
      invariant issues == [] <==>
        && covered
        && (forall plan | plan in plans[..i] :: PlanAccepted(brief, Members(plan)))
        && (forall s | s in AllSteps(plans[..i]) :: StepIssues(brief, upTo, s) == [])
      invariant actionIds == PooledIds(brief, AllSteps(plans[..i]))
      invariant total == |AllSteps(plans[..i])|
    {
      assert plans[..i + 1] == plans[..i] + [plans[i]] && plans[..i + 1][..i] == plans[..i];
      var plan := Members(plans[i]);
      var planIssues := CheckPlan(brief, plan);
      var stepIssues, ids := CheckActions(brief, upTo, StepsOf(plan));
      PooledConcat(brief, AllSteps(plans[..i]), StepsOf(plan));
      issues := issues + planIssues + stepIssues;
      actionIds := actionIds + ids;
      total := total + |StepsOf(plan)|;
    }
    assert plans[..|plans|] == plans;
    if issues == [] {
      Pooled(brief, upTo, AllSteps(plans));
    }
    if !NoRepeats(actionIds) {
      issues := issues + [ACTION_DUPLICATED];
    }
    if RuntimeLimit(brief.maxTotal) > 0 && total > RuntimeLimit(brief.maxTotal) {
      issues := issues + [ACTION_LIMIT_EXCEEDED];
    }
  }

  lemma NoSteps(brief: Brief)
    ensures AllSteps([]) == [] && PooledIds(brief, []) == []
  {
  }

  /** Without issues of single actions, the collected ids repeat exactly when the actions' ids do. */
  lemma Pooled(brief: Brief, upTo: Collation, steps: seq<Step>)
    requires forall s | s in steps :: StepIssues(brief, upTo, s) == []
    ensures NoRepeats(PooledIds(brief, steps)) <==> IdsDiffer(steps)
  {
    hide ToolPinned, InContext, PooledIds, InPool, ActionId;
    forall s | s in steps ensures InPool(brief, s) {
      assert StepIssues(brief, upTo, s) == [];
    }
    AllPooled(brief, steps);
    var ids := PooledIds(brief, steps);
    forall i, j | 0 <= i < j < |steps| ensures ActionId(steps[i]) == ActionId(steps[j]) <==> ids[i] == ids[j] {
    }
  }
}
