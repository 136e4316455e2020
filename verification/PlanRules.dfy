/** The conditions that an evidence plan has to meet, said of its plans and actions by their numbers, and that each
    service accepts exactly the plans that meet its own.
  */
module PlanRules {
  import opened Json
  import opened Positions
  import opened ReferenceCollectors
  import opened CollatedJson
  import opened EvidencePlans
  import opened EvidencePlanGates
  import opened Sorting

  // ---- Plans, actions, claims and tools by number ----

  datatype Side = Support | Counter

  /** Action `number` of one list of plan `plan`. */
  datatype Label = Label(plan: nat, side: Side, number: nat)

  function Items(v: Option<Json>): seq<Json> {
    if v.Some? && v.value.Arr? then v.value.items else []
  }

  function Plans(result: PlanResult): seq<Json> {
    Items(In(result.payload, "claim_plans"))
  }

  function Actions(plan: Json, side: Side): seq<Json> {
    Items(In(plan, if side == Support then "support_actions" else "counter_actions"))
  }

  predicate Labels(plans: seq<Json>, l: Label) {
    l.plan < |plans| && l.number < |Actions(plans[l.plan], l.side)|
  }

  function ActionAt(plans: seq<Json>, l: Label): Json
    requires Labels(plans, l)
  {
    Actions(plans[l.plan], l.side)[l.number]
  }

  /** The labels of all actions. */
  function AllLabels(plans: seq<Json>): set<Label> {
    set i, side, j | 0 <= i < |plans| && side in {Support, Counter} && 0 <= j < |Actions(plans[i], side)| :: Label(i, side, j)
  }

  function Claims(task: PlanTask): seq<Json> {
    Items(In(task.payload, "claims"))
  }

  /** The last claim with the id. */
  predicate LastClaim(claims: seq<Json>, k: int, id: string) {
    && 0 <= k < |claims| && In(claims[k], "claim_id") == Some(Str(id))
    && forall m | k < m < |claims| :: In(claims[m], "claim_id") != Some(Str(id))
  }

  predicate IsClaim(claims: seq<Json>, id: string) {
    exists k | 0 <= k < |claims| :: In(claims[k], "claim_id") == Some(Str(id))
  }

  predicate Pins(tool: Json, name: string) {
    In(tool, "tool_name") == Some(Str(name)) && In(tool, "tool_version").Some? && In(tool, "tool_version").value.Str?
  }

  /** The last catalog entry that pins a version of the tool. */
  predicate LastPin(catalog: seq<Json>, k: int, name: string) {
    0 <= k < |catalog| && Pins(catalog[k], name) && forall m | k < m < |catalog| :: !Pins(catalog[m], name)
  }

  predicate Pinned(catalog: seq<Json>, name: string) {
    exists k | 0 <= k < |catalog| :: Pins(catalog[k], name)
  }

  // ---- What is read before ----

  lemma ItemsOf(v: Json, k: string)
    ensures Elements(Member(Members(v), k)) == Items(In(v, k))
  {
    hide Get;
    NoMembers();
  }

  lemma MemberIn(v: Json, k: string, text: string)
    ensures Member(Members(v), k) == Str(text) <==> In(v, k) == Some(Str(text))
    ensures Member(Members(v), k).Str? <==> In(v, k).Some? && In(v, k).value.Str?
    ensures Get(Members(v), k) == In(v, k)
  {
    hide Get;
    NoMembers();
  }

  lemma {:induction false} ClaimsExactly(claims: seq<Json>, id: string)
    ensures id in ClaimsOf(claims) <==> IsClaim(claims, id)
    ensures forall k | LastClaim(claims, k, id) :: id in ClaimsOf(claims) && ClaimsOf(claims)[id] == Members(claims[k])
  {
    hide In, Member, Members;
    if claims != [] {
      var (rest, last) := (claims[..|claims| - 1], claims[|claims| - 1]);
      ClaimsExactly(rest, id);
      MemberIn(last, "claim_id", id);
      assert forall k | 0 <= k < |rest| :: claims[k] == rest[k];
      forall k | LastClaim(claims, k, id)
        ensures id in ClaimsOf(claims) && ClaimsOf(claims)[id] == Members(claims[k]) {
        if k < |rest| {
          assert LastClaim(rest, k, id);
        }
      }
    }
  }

  lemma {:induction false} CatalogExactly(catalog: seq<Json>, name: string)
    ensures name in CatalogOf(catalog) <==> Pinned(catalog, name)
    ensures forall k | LastPin(catalog, k, name) ::
      name in CatalogOf(catalog) && Some(Str(CatalogOf(catalog)[name])) == In(catalog[k], "tool_version")
  {
    hide In, Member, Members;
    if catalog != [] {
      var (rest, last) := (catalog[..|catalog| - 1], catalog[|catalog| - 1]);
      CatalogExactly(rest, name);
      MemberIn(last, "tool_name", name);
      MemberText(last, "tool_version");
      assert forall k | 0 <= k < |rest| :: catalog[k] == rest[k];
      forall k | LastPin(catalog, k, name)
        ensures name in CatalogOf(catalog) && Some(Str(CatalogOf(catalog)[name])) == In(catalog[k], "tool_version") {
        if k < |rest| {
          assert LastPin(rest, k, name);
        }
      }
    }
  }

  lemma MemberText(v: Json, k: string)
    ensures Member(Members(v), k).Str? <==> In(v, k).Some? && In(v, k).value.Str?
    ensures Member(Members(v), k).Str? ==> In(v, k) == Some(Member(Members(v), k))
  {
    hide Get;
    NoMembers();
  }

  // ---- The actions in the order of the loops ----

  function PlanLabels(plan: Json, i: nat): seq<Label> {
    seq(|Actions(plan, Support)|, j requires 0 <= j => Label(i, Support, j))
    + seq(|Actions(plan, Counter)|, j requires 0 <= j => Label(i, Counter, j))
  }

  function LabelList(plans: seq<Json>): seq<Label> {
    if plans == [] then []
    else LabelList(plans[..|plans| - 1]) + PlanLabels(plans[|plans| - 1], |plans| - 1)
  }

  function StepAt(plans: seq<Json>, l: Label): Step
    requires Labels(plans, l)
  {
    Step(Members(plans[l.plan]), ActionAt(plans, l), if l.side == Support then "SUPPORT" else "COUNTER")
  }

  /** The steps of the loops are the actions of the labels, one after the other. */
  ghost predicate Follows(plans: seq<Json>, labels: seq<Label>, steps: seq<Step>) {
    && |labels| == |steps| && NoRepeats(labels)
    && forall p | 0 <= p < |labels| :: Labels(plans, labels[p]) && steps[p] == StepAt(plans, labels[p])
  }

  lemma LabelsStay(rest: seq<Json>, plan: Json, l: Label)
    requires Labels(rest, l)
    ensures Labels(rest + [plan], l) && StepAt(rest + [plan], l) == StepAt(rest, l)
  {
    assert (rest + [plan])[l.plan] == rest[l.plan];
  }

  lemma PlanFollows(plans: seq<Json>, i: nat)
    requires i < |plans|
    ensures Follows(plans, PlanLabels(plans[i], i), StepsOf(Members(plans[i])))
    ensures forall l :: l in PlanLabels(plans[i], i) <==> Labels(plans, l) && l.plan == i
  {
    hide Members, Member, In, Elements, Items;
    ItemsOf(plans[i], "support_actions");
    ItemsOf(plans[i], "counter_actions");
    var (labels, n) := (PlanLabels(plans[i], i), |Actions(plans[i], Support)|);
    forall l | Labels(plans, l) && l.plan == i ensures l in labels {
      if l.side == Support {
        assert labels[l.number] == l;
      } else {
        assert labels[n + l.number] == l;
      }
    }
  }

  lemma Joined(plans: seq<Json>, a: seq<Label>, s: seq<Step>, b: seq<Label>, t: seq<Step>)
    requires Follows(plans, a, s) && Follows(plans, b, t) && forall l | l in b :: l !in a
    ensures Follows(plans, a + b, s + t)
  {
    hide StepAt, Labels;
    var c := a + b;
    forall i, j | 0 <= i < j < |c| ensures c[i] != c[j] {
      if j < |a| {
        assert c[i] == a[i] && c[j] == a[j];
      } else if i < |a| {
        assert c[i] == a[i] && c[j] == b[j - |a|] && b[j - |a|] in b;
      } else {
        assert c[i] == b[i - |a|] && c[j] == b[j - |a|];
      }
    }
  }

  lemma FollowsLonger(rest: seq<Json>, plan: Json, labels: seq<Label>, steps: seq<Step>)
    requires Follows(rest, labels, steps)
    ensures Follows(rest + [plan], labels, steps)
  {
    hide StepAt, Labels;
    forall p | 0 <= p < |labels| ensures Labels(rest + [plan], labels[p]) && steps[p] == StepAt(rest + [plan], labels[p]) {
      LabelsStay(rest, plan, labels[p]);
    }
  }

  lemma {:induction false} ListFollows(plans: seq<Json>)
    ensures Follows(plans, LabelList(plans), AllSteps(plans))
    ensures forall l :: l in LabelList(plans) <==> Labels(plans, l)
  {
    hide Follows, StepsOf, PlanLabels, Actions;
    if plans == [] {
      NothingFollows();
    } else {
      var (n, rest, plan) := (|plans| - 1, plans[..|plans| - 1], plans[|plans| - 1]);
      assert plans == rest + [plan];
      ListFollows(rest);
      FollowsLonger(rest, plan, LabelList(rest), AllSteps(rest));
      PlanFollows(plans, n);
      assert forall l | Labels(plans, l) && l.plan < n :: Labels(rest, l);
      forall l | Labels(rest, l) ensures Labels(plans, l) && l.plan < n {
        LabelsStay(rest, plan, l);
      }
      Joined(plans, LabelList(rest), AllSteps(rest), PlanLabels(plan, n), StepsOf(Members(plan)));
    }
  }

  lemma NothingFollows()
    ensures Follows([], [], []) && AllSteps([]) == [] && LabelList([]) == []
  {
  }

  // ---- Conditions on all steps as conditions on all labels ----

  function IdAt(plans: seq<Json>, l: Label): Option<Json>
    requires Labels(plans, l)
  {
    In(ActionAt(plans, l), "action_id")
  }

  lemma Counted(labels: seq<Label>, all: set<Label>)
    requires NoRepeats(labels) && forall l :: l in labels <==> l in all
    ensures |labels| == |all|
  {
    CountOccurring(labels);
    assert Occurring(labels) == all;
  }

  /** No two steps have one id: no two labels. */
  lemma IdsDifferExactly(plans: seq<Json>, labels: seq<Label>, steps: seq<Step>)
    requires Follows(plans, labels, steps)
    ensures IdsDiffer(steps) <==>
      forall l, m | l in labels && m in labels && l != m :: ActionId(StepAt(plans, l)) != ActionId(StepAt(plans, m))
  {
    hide StepAt, ActionId, Labels;
    if IdsDiffer(steps) {
      forall l, m | l in labels && m in labels && l != m ensures ActionId(StepAt(plans, l)) != ActionId(StepAt(plans, m)) {
        var i :| 0 <= i < |labels| && labels[i] == l;
        var j :| 0 <= j < |labels| && labels[j] == m;
        assert steps[i] == StepAt(plans, l) && steps[j] == StepAt(plans, m);
        assert i < j || j < i;
      }
    } else {
      var i, j :| 0 <= i < j < |steps| && ActionId(steps[i]) == ActionId(steps[j]);
      assert labels[i] in labels && labels[j] in labels && labels[i] != labels[j];
    }
  }

  lemma StepsExactly(plans: seq<Json>, labels: seq<Label>, steps: seq<Step>, s: Step)
    requires Follows(plans, labels, steps)
    ensures s in steps <==> exists l | l in labels :: Labels(plans, l) && s == StepAt(plans, l)
  {
    hide StepAt, Labels;
    if s in steps {
      var i :| 0 <= i < |steps| && steps[i] == s;
      assert labels[i] in labels;
    }
  }

  // ---- The Runtime's conditions ----

  function TextOf(v: Option<Json>): Option<string> {
    match v
    case Some(Str(s)) => Some(s)
    case _ => None
  }

  function Constraints(task: PlanTask): Json {
    match In(task.payload, "planning_constraints")
    case Some(v) => v
    case None => Null
  }

  /** The claims are the claim ids of the plans, each of one plan. */
  ghost predicate EachClaimOnce(task: PlanTask, plans: seq<Json>) {
    && (forall i, j | 0 <= i < j < |plans| && TextOf(In(plans[i], "claim_id")).Some? ::
          In(plans[j], "claim_id") != In(plans[i], "claim_id"))
    && (forall id :: IsClaim(Claims(task), id) <==> PlannedId(plans, id))
  }

  predicate PlannedId(plans: seq<Json>, id: string) {
    exists i | 0 <= i < |plans| :: In(plans[i], "claim_id") == Some(Str(id))
  }

  /** Support and counter-evidence unless the route is SQL, and no more actions than a positive limit. */
  predicate RuntimePlanRule(constraints: Json, plan: Json) {
    && (In(plan, "route") != Some(Str("SQL")) ==> |Actions(plan, Support)| >= 1 && |Actions(plan, Counter)| >= 1)
    && (match In(constraints, "max_actions_per_claim")
        case Some(Num(n)) => n > 0 ==> |Actions(plan, Support)| + |Actions(plan, Counter)| <= n
        case _ => true)
  }

  predicate PooledRule(task: PlanTask, action: Json) {
    var id := TextOf(In(action, "action_id"));
    id.Some? && Lists(In(task.payload, "action_id_pool"), id.value)
  }

  /** An allowed tool, in the version that the catalog pins last, or in none. */
  predicate RuntimeToolRule(task: PlanTask, action: Json) {
    var tool, catalog := TextOf(In(action, "tool_name")), Items(Some(task.toolCatalog));
    && tool.Some? && Lists(In(Constraints(task), "allowed_tools"), tool.value)
    && (forall k | 0 <= k < |catalog| && LastPin(catalog, k, tool.value) ::
          In(action, "tool_version") == In(catalog[k], "tool_version"))
    && (!Pinned(catalog, tool.value) ==> In(action, "tool_version") == None)
  }

  /** The claim of its plan, the polarity of its list, and the scope of that claim. */
  predicate RuntimeContextRule(upTo: Collation, task: PlanTask, plan: Json, action: Json, polarity: string) {
    var id, claims := TextOf(In(plan, "claim_id")), Claims(task);
    && In(action, "claim_id") == In(plan, "claim_id") && In(action, "polarity") == Some(Str(polarity))
    && id.Some? && IsClaim(claims, id.value)
    && forall k | 0 <= k < |claims| && LastClaim(claims, k, id.value) ::
         SameJson(upTo, In(action, "scope_constraints"), In(claims[k], "geographic_scope"))
  }

  predicate RuntimeActionRule(upTo: Collation, task: PlanTask, plans: seq<Json>, l: Label)
    requires Labels(plans, l)
  {
    var action := ActionAt(plans, l);
    && PooledRule(task, action) && RuntimeToolRule(task, action)
    && RuntimeContextRule(upTo, task, plans[l.plan], action, if l.side == Support then "SUPPORT" else "COUNTER")
  }

  ghost predicate RuntimeRules(upTo: Collation, task: PlanTask, result: PlanResult) {
    task.taskType == "EVIDENCE_PLAN" && result.payload.Obj? ==>
      var plans := Plans(result);
      && (result.status == "COMPLETE" ==> EachClaimOnce(task, plans))
      && (forall i | 0 <= i < |plans| :: RuntimePlanRule(Constraints(task), plans[i]))
      && (forall l | Labels(plans, l) :: RuntimeActionRule(upTo, task, plans, l))
      && (forall l, m | Labels(plans, l) && Labels(plans, m) && l != m :: IdAt(plans, l) != IdAt(plans, m))
      && (match In(Constraints(task), "max_total_actions")
          case Some(Num(n)) => n > 0 ==> |AllLabels(plans)| <= n
          case _ => true)
  }

  // ---- The Runtime accepts exactly what meets them ----

  lemma {:induction false} ProducedExactly(plans: seq<Json>)
    ensures forall id :: id in ProducedIds(plans) <==> PlannedId(plans, id)
    ensures NoRepeats(ProducedIds(plans)) <==>
      forall i, j | 0 <= i < j < |plans| && TextOf(In(plans[i], "claim_id")).Some? ::
        In(plans[j], "claim_id") != In(plans[i], "claim_id")
  {
    hide In, Member, Members, NoRepeats;
    if plans == [] {
      NoneProduced();
    } else {
      var (n, rest, plan) := (|plans| - 1, plans[..|plans| - 1], plans[|plans| - 1]);
      ProducedExactly(rest);
      MemberText(plan, "claim_id");
      assert forall i | 0 <= i < n :: plans[i] == rest[i];
      if In(plan, "claim_id").Some? && In(plan, "claim_id").value.Str? {
        OneMoreId(ProducedIds(rest), In(plan, "claim_id").value.s);
      }
    }
  }

  lemma NoneProduced()
    ensures ProducedIds([]) == [] && NoRepeats(ProducedIds([]))
  {
  }

  lemma OneMoreId(ids: seq<string>, id: string)
    ensures NoRepeats(ids + [id]) <==> NoRepeats(ids) && id !in ids
  {
    var more := ids + [id];
    assert more[|ids|] == id && forall i | 0 <= i < |ids| :: more[i] == ids[i];
    if id in ids {
      var i :| 0 <= i < |ids| && ids[i] == id;
      assert more[i] == more[|ids|];
    }
  }

  lemma CoverageExactly(task: PlanTask, plans: seq<Json>)
    ensures CoversOnce(ProducedIds(plans), BriefOf(task).claims.Keys) <==> EachClaimOnce(task, plans)
  {
    hide ProducedIds, NoRepeats, IsClaim, PlannedId, ClaimsOf, In, Member, Members, Elements;
    var (ids, claims) := (ProducedIds(plans), BriefOf(task).claims.Keys);
    ProducedExactly(plans);
    ItemsOf(task.payload, "claims");
    forall id ensures id in claims <==> IsClaim(Claims(task), id) {
      ClaimsExactly(Claims(task), id);
    }
    if NoRepeats(ids) {
      CountOccurring(ids);
      if CoversOnce(ids, claims) {
        CoversAll(ids, claims);
      }
      if Occurring(ids) == claims {
        assert |ids| == |claims|;
      }
    }
  }

  lemma ConstraintsOf(task: PlanTask)
    ensures Members(Member(Members(task.payload), "planning_constraints")) == Members(Constraints(task))
  {
    hide Get;
    NoMembers();
  }

  lemma ListsText(v: Json, k: string, text: string)
    ensures text in Strings(Member(Members(v), k)) <==> Lists(In(v, k), text)
  {
    hide Get;
    NoMembers();
  }

  lemma PooledExactly(task: PlanTask, s: Step)
    ensures InPool(BriefOf(task), s) <==> PooledRule(task, s.action)
  {
    hide In, Member, Members, Lists, Strings, ClaimsOf, CatalogOf, Elements;
    MemberText(s.action, "action_id");
    if In(s.action, "action_id").Some? && In(s.action, "action_id").value.Str? {
      ListsText(task.payload, "action_id_pool", In(s.action, "action_id").value.s);
    }
  }

  lemma SomePin(catalog: seq<Json>, name: string) returns (k: int)
    requires Pinned(catalog, name)
    ensures LastPin(catalog, k, name)
  {
    hide Pins;
    k := |catalog| - 1;
    while !Pins(catalog[k], name)
      invariant 0 <= k < |catalog| && forall m | k < m < |catalog| :: !Pins(catalog[m], name)
      decreases k
    {
      var p :| 0 <= p < |catalog| && Pins(catalog[p], name);
      assert p < k;
      k := k - 1;
    }
  }

  lemma SomeClaim(claims: seq<Json>, id: string) returns (k: int)
    requires IsClaim(claims, id)
    ensures LastClaim(claims, k, id)
  {
    hide In;
    k := |claims| - 1;
    while In(claims[k], "claim_id") != Some(Str(id))
      invariant 0 <= k < |claims| && forall m | k < m < |claims| :: In(claims[m], "claim_id") != Some(Str(id))
      decreases k
    {
      var p :| 0 <= p < |claims| && In(claims[p], "claim_id") == Some(Str(id));
      assert p < k;
      k := k - 1;
    }
  }

  /** The version that the brief has for a tool is that of the last entry. */
  lemma VersionExactly(task: PlanTask, action: Json, name: string)
    ensures
      var catalog, brief := Items(Some(task.toolCatalog)), BriefOf(task);
      (In(action, "tool_version") == if name in brief.catalog then Some(Str(brief.catalog[name])) else None) <==>
      && (forall k | 0 <= k < |catalog| && LastPin(catalog, k, name) ::
            In(action, "tool_version") == In(catalog[k], "tool_version"))
      && (!Pinned(catalog, name) ==> In(action, "tool_version") == None)
  {
    hide In, CatalogOf, ClaimsOf, Pinned, LastPin, Member, Members;
    var catalog := Items(Some(task.toolCatalog));
    assert catalog == Elements(task.toolCatalog);
    CatalogExactly(catalog, name);
    if Pinned(catalog, name) {
      var k := SomePin(catalog, name);
      PinIndex(catalog, k, name);
    }
  }

  lemma PinIndex(catalog: seq<Json>, k: int, name: string)
    requires LastPin(catalog, k, name)
    ensures 0 <= k < |catalog|
  {
  }

  lemma ToolExactly(task: PlanTask, s: Step)
    ensures ToolPinned(BriefOf(task), s) <==> RuntimeToolRule(task, s.action)
  {
    hide In, Member, Members, Lists, Strings, ClaimsOf, CatalogOf, Elements, Pinned, LastPin, Constraints, Items;
    MemberText(s.action, "tool_name");
    MemberIn(s.action, "tool_version", "");
    ConstraintsOf(task);
    if In(s.action, "tool_name").Some? && In(s.action, "tool_name").value.Str? {
      var name := In(s.action, "tool_name").value.s;
      VersionExactly(task, s.action, name);
      ListsText(Constraints(task), "allowed_tools", name);
    }
  }

  /** The scope that the brief has for a claim is that of the last claim with the id. */
  lemma ScopeExactly(upTo: Collation, task: PlanTask, action: Json, id: string)
    requires id in BriefOf(task).claims
    ensures IsClaim(Claims(task), id)
    ensures var claims := Claims(task);
      SameJson(upTo, In(action, "scope_constraints"), Get(BriefOf(task).claims[id], "geographic_scope")) <==>
      forall k | 0 <= k < |claims| && LastClaim(claims, k, id) ::
        SameJson(upTo, In(action, "scope_constraints"), In(claims[k], "geographic_scope"))
  {
    hide In, ClaimsOf, CatalogOf, IsClaim, LastClaim, Member, Members, SameJson, Get;
    ItemsOf(task.payload, "claims");
    ClaimsExactly(Claims(task), id);
    var k := SomeClaim(Claims(task), id);
    ClaimIndex(Claims(task), k, id);
    forall m | 0 <= m < |Claims(task)| && LastClaim(Claims(task), m, id)
      ensures Get(BriefOf(task).claims[id], "geographic_scope") == In(Claims(task)[m], "geographic_scope") {
      MemberIn(Claims(task)[m], "geographic_scope", "");
    }
  }

  lemma ClaimIndex(claims: seq<Json>, k: int, id: string)
    requires LastClaim(claims, k, id)
    ensures 0 <= k < |claims|
  {
  }

  lemma ContextExactly(upTo: Collation, task: PlanTask, plan: Json, action: Json, polarity: string)
    ensures InContext(BriefOf(task), upTo, Step(Members(plan), action, polarity)) <==>
      RuntimeContextRule(upTo, task, plan, action, polarity)
  {
    hide In, ClaimsOf, CatalogOf, IsClaim, LastClaim, Member, Members, SameJson, Get;
    MemberIn(plan, "claim_id", "");
    MemberIn(action, "claim_id", "");
    MemberIn(action, "scope_constraints", "");
    MemberIn(action, "polarity", polarity);
    ItemsOf(task.payload, "claims");
    if In(plan, "claim_id").Some? && In(plan, "claim_id").value.Str? {
      var id := In(plan, "claim_id").value.s;
      ClaimsExactly(Claims(task), id);
      if id in BriefOf(task).claims {
        ScopeExactly(upTo, task, action, id);
      }
    }
  }

  lemma ActionExactly(upTo: Collation, task: PlanTask, plans: seq<Json>, l: Label)
    requires Labels(plans, l)
    ensures StepIssues(BriefOf(task), upTo, StepAt(plans, l)) == [] <==> RuntimeActionRule(upTo, task, plans, l)
  {
    hide InPool, ToolPinned, InContext, PooledRule, RuntimeToolRule, RuntimeContextRule, BriefOf, Members, ActionAt;
    var s := StepAt(plans, l);
    PooledExactly(task, s);
    ToolExactly(task, s);
    ContextExactly(upTo, task, plans[l.plan], s.action, s.polarity);
  }

  lemma PlanExactly(task: PlanTask, plan: Json)
    ensures PlanAccepted(BriefOf(task), Members(plan)) <==> RuntimePlanRule(Constraints(task), plan)
  {
    hide In, ClaimsOf, CatalogOf, Member, Members, Elements, Items;
    MemberIn(plan, "route", "SQL");
    ItemsOf(plan, "support_actions");
    ItemsOf(plan, "counter_actions");
    LimitExactly(task, "max_actions_per_claim");
  }

  lemma LimitExactly(task: PlanTask, k: string)
    ensures var limit := Member(Members(Member(Members(task.payload), "planning_constraints")), k);
      match In(Constraints(task), k)
      case Some(v) => limit == v
      case None => limit == Null
  {
    hide Get;
    NoMembers();
  }

  lemma IdExactly(plans: seq<Json>, l: Label)
    requires Labels(plans, l)
    ensures ActionId(StepAt(plans, l)) == match IdAt(plans, l) case Some(v) => v case None => Null
  {
    hide Get;
    NoMembers();
  }

  /** The Runtime accepts a plan if and only if it meets the Runtime's conditions. */
  lemma RuntimeExactly(upTo: Collation, task: PlanTask, result: PlanResult)
    ensures RuntimeAccepts(upTo, task, result) <==> RuntimeRules(upTo, task, result)
  {
    hide BriefOf, StepIssues, PlanAccepted, RuntimeActionRule, RuntimePlanRule, EachClaimOnce, CoversOnce, IdsDiffer;
    hide Labels, StepAt, AllSteps, Follows, In, Constraints, AllLabels, Member, Members, Elements, Items;
    if task.taskType == "EVIDENCE_PLAN" && result.payload.Obj? {
      var (plans, steps, labels) := (Plans(result), AllSteps(Plans(result)), LabelList(Plans(result)));
      ItemsOf(result.payload, "claim_plans");
      CoverageExactly(task, plans);
      forall i | 0 <= i < |plans|
        ensures PlanAccepted(BriefOf(task), Members(plans[i])) <==> RuntimePlanRule(Constraints(task), plans[i]) {
        PlanExactly(task, plans[i]);
      }
      ActionsExactly(upTo, task, plans);
      TotalExactly(task, plans);
      assert PlansOf(result) == plans;
    }
  }

  lemma ActionsExactly(upTo: Collation, task: PlanTask, plans: seq<Json>)
    ensures
      && (forall s | s in AllSteps(plans) :: StepIssues(BriefOf(task), upTo, s) == []) && IdsDiffer(AllSteps(plans)) <==>
      && (forall l | Labels(plans, l) :: RuntimeActionRule(upTo, task, plans, l))
      && (forall l, m | Labels(plans, l) && Labels(plans, m) && l != m :: IdAt(plans, l) != IdAt(plans, m))
  {
    hide BriefOf, StepIssues, RuntimeActionRule, IdsDiffer, Labels, StepAt, AllSteps, LabelList, IdAt, ActionId, Follows;
    var (steps, labels) := (AllSteps(plans), LabelList(plans));
    ListFollows(plans);
    forall l | Labels(plans, l)
      ensures StepAt(plans, l) in steps
      ensures StepIssues(BriefOf(task), upTo, StepAt(plans, l)) == [] <==> RuntimeActionRule(upTo, task, plans, l)
      ensures ActionId(StepAt(plans, l)) == match IdAt(plans, l) case Some(v) => v case None => Null
      ensures RuntimeActionRule(upTo, task, plans, l) ==> IdAt(plans, l).Some?
    {
      ActionExactly(upTo, task, plans, l);
      IdExactly(plans, l);
      StepsExactly(plans, labels, steps, StepAt(plans, l));
      if RuntimeActionRule(upTo, task, plans, l) {
        PooledHasId(upTo, task, plans, l);
      }
    }
    forall s | s in steps ensures exists l | Labels(plans, l) :: s == StepAt(plans, l) {
      StepsExactly(plans, labels, steps, s);
    }
    IdsDifferExactly(plans, labels, steps);
  }

  lemma PooledHasId(upTo: Collation, task: PlanTask, plans: seq<Json>, l: Label)
    requires Labels(plans, l) && RuntimeActionRule(upTo, task, plans, l)
    ensures IdAt(plans, l).Some?
  {
    hide RuntimeToolRule, RuntimeContextRule;
  }

  lemma TotalExactly(task: PlanTask, plans: seq<Json>)
    ensures |AllLabels(plans)| == |AllSteps(plans)|
    ensures RuntimeLimit(BriefOf(task).maxTotal) ==
      match In(Constraints(task), "max_total_actions") case Some(Num(n)) => n case _ => 0
  {
    hide LabelList, AllSteps, In, Constraints, ClaimsOf, CatalogOf, Actions;
    LimitExactly(task, "max_total_actions");
    ListFollows(plans);
    LabelsAre(plans);
    Counted(LabelList(plans), AllLabels(plans));
  }

  lemma LabelsAre(plans: seq<Json>)
    ensures forall l :: l in AllLabels(plans) <==> Labels(plans, l)
  {
    hide Actions;
    forall l ensures l in AllLabels(plans) <==> Labels(plans, l) {
      if Labels(plans, l) {
        assert l.side.Support? || l.side.Counter?;
        assert l.side in {Support, Counter} && l == Label(l.plan, l.side, l.number);
        assert l in AllLabels(plans);
      }
    }
  }

  // ---- The Control API's conditions ----

  /** The actions that the Control API looks at: objects, of the plans that are objects with a text for a claim id. */
  predicate Looked(plans: seq<Json>, l: Label) {
    Labels(plans, l) && TextOf(In(plans[l.plan], "claim_id")).Some? && ActionAt(plans, l).Obj?
  }

  function LookedLabels(plans: seq<Json>): set<Label> {
    set l | l in AllLabels(plans) && Looked(plans, l)
  }

  /** An absent member is read as null. */
  function OrNull(v: Option<Json>): Json {
    match v
    case Some(x) => x
    case None => Null
  }

  /** The plans' claim ids, of those that are objects, are the claims, each once. */
  ghost predicate ControlCoverage(task: PlanTask, plans: seq<Json>) {
    && (forall i, j | 0 <= i < j < |plans| && plans[i].Obj? && plans[j].Obj? ::
          OrNull(In(plans[i], "claim_id")) != OrNull(In(plans[j], "claim_id")))
    && (forall id :: IsClaim(Claims(task), id) ==> PlannedId(plans, id))
    && (forall i | 0 <= i < |plans| && plans[i].Obj? ::
          TextOf(In(plans[i], "claim_id")).Some? && IsClaim(Claims(task), TextOf(In(plans[i], "claim_id")).value))
  }

  /** `name in set(allowed)`: an element of a list, a character of a text, a key of an object. */
  predicate InSet(allowed: Option<Json>, name: Json) {
    match allowed
    case Some(Arr(items)) => exists i | 0 <= i < |items| :: items[i] == name
    case Some(Str(s)) => exists i | 0 <= i < |s| :: name == Str([s[i]])
    case Some(Obj(fields)) => exists i | 0 <= i < |fields| :: name == Str(fields[i].key)
    case _ => false
  }

  predicate ControlToolRule(task: PlanTask, action: Json) {
    var name, version := OrNull(In(action, "tool_name")), OrNull(In(action, "tool_version"));
    var catalog := Items(Some(task.toolCatalog));
    && InSet(In(Constraints(task), "allowed_tools"), name)
    && if name.Str? && Pinned(catalog, name.s) then
         forall k | 0 <= k < |catalog| && LastPin(catalog, k, name.s) :: Some(version) == In(catalog[k], "tool_version")
       else version == Null
  }

  predicate ControlContextRule(task: PlanTask, plan: Json, action: Json, polarity: string) {
    var id, claims := TextOf(In(plan, "claim_id")), Claims(task);
    && OrNull(In(action, "claim_id")) == OrNull(In(plan, "claim_id")) && In(action, "polarity") == Some(Str(polarity))
    && id.Some? && IsClaim(claims, id.value)
    && forall k | 0 <= k < |claims| && LastClaim(claims, k, id.value) ::
         Same(OrNull(In(action, "scope_constraints")), OrNull(In(claims[k], "geographic_scope")))
  }

  predicate ControlActionRule(task: PlanTask, plans: seq<Json>, l: Label)
    requires Labels(plans, l)
  {
    var action := ActionAt(plans, l);
    && ControlToolRule(task, action)
    && ControlContextRule(task, plans[l.plan], action, if l.side == Support then "SUPPORT" else "COUNTER")
  }

  /** A number, or a boolean as one and zero, is a limit. */
  predicate Kept(limit: Option<Json>, n: nat) {
    match limit
    case Some(Num(most)) => n <= most
    case Some(Bool(b)) => n <= if b then 1 else 0
    case _ => true
  }

  ghost predicate ControlRules(task: PlanTask, result: PlanResult) {
    task.taskType == "EVIDENCE_PLAN" && result.status == "COMPLETE" && task.payload.Obj? && result.payload.Obj? ==>
      var plans := Plans(result);
      && ControlCoverage(task, plans)
      && (forall l | Looked(plans, l) :: ControlActionRule(task, plans, l))
      && (forall l, m | Looked(plans, l) && Looked(plans, m) && l != m ::
            OrNull(IdAt(plans, l)) != OrNull(IdAt(plans, m)))
      && Kept(In(Constraints(task), "max_total_actions"), |LookedLabels(plans)|)
      && (forall i | 0 <= i < |plans| && OfPlan(plans, i) != {} ::
            Kept(In(Constraints(task), "max_actions_per_claim"), |OfPlan(plans, i)|))
  }

  /** The actions of one plan that the Control API looks at. */
  function OfPlan(plans: seq<Json>, i: nat): set<Label> {
    set l | l in AllLabels(plans) && Looked(plans, l) && l.plan == i
  }

  // ---- The Control API accepts exactly what meets them ----

  lemma NullIfAbsent(v: Json, k: string)
    ensures Member(Members(v), k) == OrNull(In(v, k))
  {
    hide Get;
    NoMembers();
  }

  /** Of steps that follow their labels, those on objects follow theirs. */
  lemma {:induction false} ObjectsFollow(plans: seq<Json>, labels: seq<Label>, steps: seq<Step>) returns (kept: seq<Label>)
    requires Follows(plans, labels, steps)
    ensures Follows(plans, kept, ObjectSteps(steps))
    ensures forall l :: l in kept <==> l in labels && Labels(plans, l) && ActionAt(plans, l).Obj?
  {
    hide Labels, ActionAt, Members;
    kept := [];
    if steps != [] {
      var (n, rest, fewer) := (|steps| - 1, labels[..|steps| - 1], steps[..|steps| - 1]);
      assert labels == rest + [labels[n]];
      kept := ObjectsFollow(plans, rest, fewer);
      if steps[n].action.Obj? {
        assert forall i | 0 <= i < n :: labels[i] != labels[n];
        OneFollows(plans, labels[n]);
        Joined(plans, kept, ObjectSteps(fewer), [labels[n]], [steps[n]]);
        kept := kept + [labels[n]];
      }
    }
  }

  lemma OneFollows(plans: seq<Json>, l: Label)
    requires Labels(plans, l)
    ensures Follows(plans, [l], [StepAt(plans, l)])
  {
  }

  lemma {:induction false} ControlFollows(plans: seq<Json>) returns (labels: seq<Label>)
    ensures Follows(plans, labels, ControlSteps(plans))
    ensures forall l :: l in labels <==> Looked(plans, l)
  {
    hide Follows, StepsOf, Actions, Members, Member, In, ObjectSteps, ActionAt;
    labels := [];
    if plans == [] {
      NothingFollows();
    } else {
      var (n, rest, plan) := (|plans| - 1, plans[..|plans| - 1], plans[|plans| - 1]);
      assert plans == rest + [plan];
      var before := ControlFollows(rest);
      FollowsLonger(rest, plan, before, ControlSteps(rest));
      forall l | Labels(rest, l) ensures Labels(plans, l) && ActionAt(plans, l) == ActionAt(rest, l) {
        ActionStays(rest, plan, l);
      }
      assert forall l | Labels(plans, l) && l.plan < n :: Labels(rest, l);
      labels := before;
      ObjectMember(plan);
      if plan.Obj? && Member(plan.fields, "claim_id").Str? {
        PlanFollows(plans, n);
        var more := ObjectsFollow(plans, PlanLabels(plan, n), StepsOf(plan.fields));
        Joined(plans, before, ControlSteps(rest), more, ObjectSteps(StepsOf(plan.fields)));
        labels := before + more;
      }
    }
  }

  lemma ActionStays(rest: seq<Json>, plan: Json, l: Label)
    requires Labels(rest, l)
    ensures Labels(rest + [plan], l) && ActionAt(rest + [plan], l) == ActionAt(rest, l)
  {
    assert (rest + [plan])[l.plan] == rest[l.plan];
  }

  lemma ObjectMember(plan: Json)
    ensures plan.Obj? && Member(plan.fields, "claim_id").Str? <==> TextOf(In(plan, "claim_id")).Some?
    ensures plan.Obj? ==> Members(plan) == plan.fields
  {
  }

  lemma {:induction false} ControlIdsExactly(plans: seq<Json>)
    ensures forall v :: v in ControlIds(plans) <==> HasId(plans, v)
    ensures NoRepeats(ControlIds(plans)) <==>
      forall i, j | 0 <= i < j < |plans| && plans[i].Obj? && plans[j].Obj? ::
        OrNull(In(plans[i], "claim_id")) != OrNull(In(plans[j], "claim_id"))
  {
    hide In, Member, Members, NoRepeats, OrNull;
    if plans == [] {
      NoControlIds();
    } else {
      var (n, rest, plan) := (|plans| - 1, plans[..|plans| - 1], plans[|plans| - 1]);
      ControlIdsExactly(rest);
      NullIfAbsent(plan, "claim_id");
      ObjectMember(plan);
      assert forall i | 0 <= i < n :: plans[i] == rest[i];
      if plan.Obj? {
        OneMoreValue(ControlIds(rest), OrNull(In(plan, "claim_id")));
      }
    }
  }

  /** An object among the plans has the claim id. */
  predicate HasId(plans: seq<Json>, v: Json) {
    exists i | 0 <= i < |plans| :: plans[i].Obj? && OrNull(In(plans[i], "claim_id")) == v
  }

  lemma NoControlIds()
    ensures ControlIds([]) == [] && NoRepeats(ControlIds([]))
  {
  }

  lemma OneMoreValue(ids: seq<Json>, id: Json)
    ensures NoRepeats(ids + [id]) <==> NoRepeats(ids) && id !in ids
  {
    var more := ids + [id];
    assert more[|ids|] == id && forall i | 0 <= i < |ids| :: more[i] == ids[i];
    if id in ids {
      var i :| 0 <= i < |ids| && ids[i] == id;
      assert more[i] == more[|ids|];
    }
  }

  lemma ControlCoverageExactly(task: PlanTask, plans: seq<Json>)
    ensures NoRepeats(ControlIds(plans)) && Occurring(ControlIds(plans)) == Texts(BriefOf(task).claims.Keys) <==>
      ControlCoverage(task, plans)
  {
    hide ControlIds, NoRepeats, IsClaim, ClaimsOf, CatalogOf, In, Member, Members, Elements;
    var (ids, claims) := (ControlIds(plans), BriefOf(task).claims.Keys);
    ControlIdsExactly(plans);
    ItemsOf(task.payload, "claims");
    forall id ensures id in claims <==> IsClaim(Claims(task), id) {
      ClaimsExactly(Claims(task), id);
    }
    forall id ensures PlannedId(plans, id) <==> Str(id) in ids {
      PlannedHas(plans, id);
    }
    CoverageIds(task, plans, Occurring(ids), claims);
  }

  lemma CoverageIds(task: PlanTask, plans: seq<Json>, ids: set<Json>, claims: set<string>)
    requires (forall v :: v in ids <==> HasId(plans, v)) && forall id :: id in claims <==> IsClaim(Claims(task), id)
    requires forall id :: PlannedId(plans, id) <==> Str(id) in ids
    ensures ids == Texts(claims) <==>
      && (forall id :: IsClaim(Claims(task), id) ==> PlannedId(plans, id))
      && (forall i | 0 <= i < |plans| && plans[i].Obj? ::
            TextOf(In(plans[i], "claim_id")).Some? && IsClaim(Claims(task), TextOf(In(plans[i], "claim_id")).value))
  {
    hide IsClaim, PlannedId, In;
    if ids == Texts(claims) {
      forall i | 0 <= i < |plans| && plans[i].Obj?
        ensures TextOf(In(plans[i], "claim_id")).Some? && IsClaim(Claims(task), TextOf(In(plans[i], "claim_id")).value) {
        assert OrNull(In(plans[i], "claim_id")) in ids;
      }
      forall id | IsClaim(Claims(task), id) ensures PlannedId(plans, id) {
        assert Str(id) in Texts(claims);
      }
    }
  }

  lemma PlannedHas(plans: seq<Json>, id: string)
    ensures PlannedId(plans, id) <==> HasId(plans, Str(id))
  {
  }

  lemma ControlToolExactly(task: PlanTask, s: Step)
    ensures ControlToolAllowed(BriefOf(task), AllowedTools(task), s) <==> ControlToolRule(task, s.action)
  {
    hide In, Member, Members, ClaimsOf, CatalogOf, Elements, Pinned, LastPin, Constraints, SetOf, InSet;
    NullIfAbsent(s.action, "tool_name");
    NullIfAbsent(s.action, "tool_version");
    NullIfAbsent(Constraints(task), "allowed_tools");
    ConstraintsOf(task);
    var name, catalog := OrNull(In(s.action, "tool_name")), Items(Some(task.toolCatalog));
    InSetExactly(In(Constraints(task), "allowed_tools"), name);
    assert catalog == Elements(task.toolCatalog) by { CatalogItems(task.toolCatalog); }
    if name.Str? {
      CatalogExactly(catalog, name.s);
      if Pinned(catalog, name.s) {
        var k := SomePin(catalog, name.s);
        PinIndex(catalog, k, name.s);
      }
    }
  }

  lemma CatalogItems(v: Json)
    ensures Items(Some(v)) == Elements(v)
  {
  }

  lemma InSetExactly(allowed: Option<Json>, name: Json)
    ensures name in SetOf(OrNull(allowed)) <==> InSet(allowed, name)
  {
  }

  lemma ControlContextExactly(task: PlanTask, plan: Json, action: Json, polarity: string)
    ensures ControlInContext(BriefOf(task), Step(Members(plan), action, polarity)) <==>
      ControlContextRule(task, plan, action, polarity)
  {
    hide In, ClaimsOf, CatalogOf, IsClaim, LastClaim, Member, Members, Same, Get;
    NullIfAbsent(plan, "claim_id");
    NullIfAbsent(action, "claim_id");
    NullIfAbsent(action, "scope_constraints");
    MemberIn(action, "polarity", polarity);
    ItemsOf(task.payload, "claims");
    if In(plan, "claim_id").Some? && In(plan, "claim_id").value.Str? {
      var id := In(plan, "claim_id").value.s;
      ClaimsExactly(Claims(task), id);
      if id in BriefOf(task).claims {
        ControlScopeExactly(task, action, id);
      }
    }
  }

  lemma ControlScopeExactly(task: PlanTask, action: Json, id: string)
    requires id in BriefOf(task).claims
    ensures var claims := Claims(task);
      Same(OrNull(In(action, "scope_constraints")), Member(BriefOf(task).claims[id], "geographic_scope")) <==>
      forall k | 0 <= k < |claims| && LastClaim(claims, k, id) ::
        Same(OrNull(In(action, "scope_constraints")), OrNull(In(claims[k], "geographic_scope")))
  {
    hide In, ClaimsOf, CatalogOf, IsClaim, LastClaim, Member, Members, Same, Get;
    ItemsOf(task.payload, "claims");
    ClaimsExactly(Claims(task), id);
    var k := SomeClaim(Claims(task), id);
    ClaimIndex(Claims(task), k, id);
    forall m | 0 <= m < |Claims(task)| && LastClaim(Claims(task), m, id)
      ensures Member(BriefOf(task).claims[id], "geographic_scope") == OrNull(In(Claims(task)[m], "geographic_scope")) {
      NullIfAbsent(Claims(task)[m], "geographic_scope");
    }
  }

  lemma ControlActionExactly(task: PlanTask, plans: seq<Json>, l: Label)
    requires Labels(plans, l)
    ensures ControlStepAccepted(BriefOf(task), AllowedTools(task), StepAt(plans, l)) <==> ControlActionRule(task, plans, l)
  {
    hide ControlToolAllowed, ControlInContext, ControlToolRule, ControlContextRule, BriefOf, Members, ActionAt, AllowedTools;
    var s := StepAt(plans, l);
    ControlToolExactly(task, s);
    ControlContextExactly(task, plans[l.plan], s.action, s.polarity);
  }

  lemma KeptExactly(task: PlanTask, k: string, n: nat)
    ensures Within(Member(Members(Member(Members(task.payload), "planning_constraints")), k), n) <==>
      Kept(In(Constraints(task), k), n)
  {
    hide In, Member, Members, Constraints;
    ConstraintsOf(task);
    NullIfAbsent(Constraints(task), k);
  }

  /** The labels of the actions of plans with the claim id. */
  function Chosen(plans: seq<Json>, labels: seq<Label>, id: Json): set<Label> {
    set l | l in labels && Labels(plans, l) && ClaimId(StepAt(plans, l)) == id
  }

  lemma ChosenGrows(plans: seq<Json>, rest: seq<Label>, l: Label, id: Json)
    requires l !in rest && Labels(plans, l)
    ensures |Chosen(plans, rest + [l], id)| == |Chosen(plans, rest, id)| + if ClaimId(StepAt(plans, l)) == id then 1 else 0
  {
    hide Labels, StepAt, ClaimId;
    assert Chosen(plans, rest + [l], id) ==
      Chosen(plans, rest, id) + if ClaimId(StepAt(plans, l)) == id then {l} else {};
  }

  lemma {:induction false} CountLabels(plans: seq<Json>, labels: seq<Label>, steps: seq<Step>, id: Json)
    requires Follows(plans, labels, steps)
    ensures Count(steps, id) == |Chosen(plans, labels, id)|
  {
    hide Labels, StepAt, ClaimId, Chosen;
    if steps == [] {
      NoneChosen(plans, id);
      assert labels == [];
    } else {
      var (n, rest, fewer) := (|steps| - 1, labels[..|steps| - 1], steps[..|steps| - 1]);
      assert labels == rest + [labels[n]];
      assert forall i | 0 <= i < n :: labels[i] != labels[n];
      CountLabels(plans, rest, fewer, id);
      ChosenGrows(plans, rest, labels[n], id);
    }
  }

  lemma NoneChosen(plans: seq<Json>, id: Json)
    ensures Chosen(plans, [], id) == {}
  {
  }

  lemma LookedPlan(plans: seq<Json>, l: Label)
    requires Looked(plans, l)
    ensures plans[l.plan].Obj? && ClaimId(StepAt(plans, l)) == OrNull(In(plans[l.plan], "claim_id"))
  {
    hide Get;
    NoMembers();
  }

  /** With claim ids that differ, the steps counted for a claim are the labels of its plan. */
  lemma CountOfLabel(task: PlanTask, plans: seq<Json>, labels: seq<Label>, steps: seq<Step>, l: Label)
    requires Follows(plans, labels, steps) && (forall m :: m in labels <==> Looked(plans, m))
    requires ControlCoverage(task, plans) && Looked(plans, l)
    ensures Count(steps, ClaimId(StepAt(plans, l))) == |OfPlan(plans, l.plan)|
  {
    hide Looked, StepAt, ClaimId, IsClaim, PlannedId, AllLabels, ActionAt, Follows;
    LookedLabel(plans, l);
    var id := ClaimId(StepAt(plans, l));
    CountLabels(plans, labels, steps, id);
    LabelsAre(plans);
    forall m | Looked(plans, m) ensures Labels(plans, m) && (ClaimId(StepAt(plans, m)) == id <==> m.plan == l.plan) {
      LookedPlan(plans, l);
      LookedPlan(plans, m);
      LookedLabel(plans, m);
      DifferentPlans(task, plans, l.plan, m.plan);
    }
    assert Chosen(plans, labels, id) == OfPlan(plans, l.plan);
  }

  lemma LookedLabel(plans: seq<Json>, l: Label)
    requires Looked(plans, l)
    ensures Labels(plans, l)
  {
  }

  lemma DifferentPlans(task: PlanTask, plans: seq<Json>, i: nat, j: nat)
    requires ControlCoverage(task, plans) && i < |plans| && j < |plans| && plans[i].Obj? && plans[j].Obj?
    ensures OrNull(In(plans[i], "claim_id")) == OrNull(In(plans[j], "claim_id")) <==> i == j
  {
    hide In, IsClaim, PlannedId;
  }

  lemma FromPlan(plans: seq<Json>, i: nat, l: Label)
    requires l in OfPlan(plans, i)
    ensures Looked(plans, l) && l.plan == i
  {
    hide Looked;
  }

  lemma LabelCounts(task: PlanTask, plans: seq<Json>, labels: seq<Label>, l: Label)
    requires Follows(plans, labels, ControlSteps(plans)) && (forall m :: m in labels <==> Looked(plans, m))
    requires ControlCoverage(task, plans) && Looked(plans, l)
    ensures Labels(plans, l) && StepAt(plans, l) in ControlSteps(plans) && l in OfPlan(plans, l.plan) && l.plan < |plans|
    ensures Count(ControlSteps(plans), ClaimId(StepAt(plans, l))) == |OfPlan(plans, l.plan)|
  {
    hide Looked, StepAt, ClaimId, Follows, ControlCoverage, ControlSteps, Count, Labels;
    LookedLabel(plans, l);
    LabelsAre(plans);
    PlanNumber(plans, l);
    StepsExactly(plans, labels, ControlSteps(plans), StepAt(plans, l));
    CountOfLabel(task, plans, labels, ControlSteps(plans), l);
  }

  predicate PlansWithin(plans: seq<Json>, limit: Json) {
    forall i | 0 <= i < |plans| && OfPlan(plans, i) != {} :: Within(limit, |OfPlan(plans, i)|)
  }

  predicate StepsWithin(steps: seq<Step>, limit: Json) {
    forall s | s in steps :: Within(limit, Count(steps, ClaimId(s)))
  }

  lemma CountsExactly(task: PlanTask, plans: seq<Json>, labels: seq<Label>, limit: Json)
    requires Follows(plans, labels, ControlSteps(plans)) && (forall m :: m in labels <==> Looked(plans, m))
    requires ControlCoverage(task, plans)
    ensures StepsWithin(ControlSteps(plans), limit) <==> PlansWithin(plans, limit)
  {
    hide Looked, StepAt, ClaimId, Follows, Within, ControlCoverage, ControlSteps, Count, Labels, OfPlan;
    var steps := ControlSteps(plans);
    if PlansWithin(plans, limit) {
      forall s | s in steps ensures Within(limit, Count(steps, ClaimId(s))) {
        StepsExactly(plans, labels, steps, s);
        var l :| l in labels && Labels(plans, l) && s == StepAt(plans, l);
        LabelCounts(task, plans, labels, l);
      }
    }
    if StepsWithin(steps, limit) {
      forall i | 0 <= i < |plans| && OfPlan(plans, i) != {} ensures Within(limit, |OfPlan(plans, i)|) {
        var l :| l in OfPlan(plans, i);
        FromPlan(plans, i, l);
        LabelCounts(task, plans, labels, l);
      }
    }
  }

  lemma PlanNumber(plans: seq<Json>, l: Label)
    requires Labels(plans, l)
    ensures l.plan < |plans|
  {
  }

  /** The Control API accepts a plan if and only if it meets the Control API's conditions. */
  lemma ControlExactly(task: PlanTask, result: PlanResult)
    ensures ControlAccepts(task, result) <==> ControlRules(task, result)
  {
    hide BriefOf, ControlStepAccepted, ControlActionRule, ControlCoverage, IdsDiffer, Within, Kept, Count, NoRepeats, ClaimId;
    hide Labels, StepAt, ControlSteps, ControlIds, Follows, In, Constraints, OfPlan, LookedLabels, Looked, Member, Members;
    hide Elements, Items, Texts, Occurring, AllowedTools;
    if Checked(task, result) {
      var plans := Plans(result);
      ItemsOf(result.payload, "claim_plans");
      ControlCoverageExactly(task, plans);
      var labels := ControlFollows(plans);
      LookedExactly(task, plans, labels);
      LimitsRead(task);
      KeptExactly(task, "max_total_actions", |LookedLabels(plans)|);
      if ControlCoverage(task, plans) {
        CountsExactly(task, plans, labels, BriefOf(task).maxPerClaim);
        forall i | 0 <= i < |plans|
          ensures Within(BriefOf(task).maxPerClaim, |OfPlan(plans, i)|) <==>
            Kept(In(Constraints(task), "max_actions_per_claim"), |OfPlan(plans, i)|) {
          KeptExactly(task, "max_actions_per_claim", |OfPlan(plans, i)|);
        }
      }
      assert PlansOf(result) == plans;
    }
  }

  lemma LimitsRead(task: PlanTask)
    ensures var constraints := Members(Member(Members(task.payload), "planning_constraints"));
      && BriefOf(task).maxTotal == Member(constraints, "max_total_actions")
      && BriefOf(task).maxPerClaim == Member(constraints, "max_actions_per_claim")
  {
    hide Member, Members, ClaimsOf, CatalogOf, Strings, Elements;
  }

  lemma LookedExactly(task: PlanTask, plans: seq<Json>, labels: seq<Label>)
    requires Follows(plans, labels, ControlSteps(plans)) && forall m :: m in labels <==> Looked(plans, m)
    ensures forall l | Looked(plans, l) :: Labels(plans, l)
    ensures |ControlSteps(plans)| == |LookedLabels(plans)|
    ensures (forall s | s in ControlSteps(plans) :: ControlStepAccepted(BriefOf(task), AllowedTools(task), s)) <==>
      forall l | Looked(plans, l) :: ControlActionRule(task, plans, l)
    ensures IdsDiffer(ControlSteps(plans)) <==>
      forall l, m | Looked(plans, l) && Looked(plans, m) && l != m :: OrNull(IdAt(plans, l)) != OrNull(IdAt(plans, m))
  {
    hide BriefOf, ControlStepAccepted, ControlActionRule, IdsDiffer, Labels, StepAt, ControlSteps, Looked, IdAt, ActionId;
    hide AllowedTools;
    var steps := ControlSteps(plans);
    LabelsAre(plans);
    forall l | Looked(plans, l)
      ensures Labels(plans, l) && StepAt(plans, l) in steps && ActionId(StepAt(plans, l)) == OrNull(IdAt(plans, l))
      ensures ControlStepAccepted(BriefOf(task), AllowedTools(task), StepAt(plans, l)) <==> ControlActionRule(task, plans, l)
    {
      LookedLabel(plans, l);
      ControlActionExactly(task, plans, l);
      IdExactly(plans, l);
      StepsExactly(plans, labels, steps, StepAt(plans, l));
    }
    forall s | s in steps ensures exists l | Looked(plans, l) :: Labels(plans, l) && s == StepAt(plans, l) {
      StepsExactly(plans, labels, steps, s);
    }
    IdsDifferExactly(plans, labels, steps);
    Counted(labels, LookedLabels(plans));
  }
}
