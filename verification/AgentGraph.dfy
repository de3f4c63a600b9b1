/** The per-sample agent graph: what its nodes do to the control state, for
    every reply a model or a tool can give. */
module AgentGraph {
  const REFLECT_MAX := 3
  const REPLAN_AFTER_CONSECUTIVE_FAILS := 2
  const PLAN_MAX := 3
  const RECURSION_LIMIT := 200

  datatype Action =
    | Goto | Click | Type | Screenshot | ScreenshotAll | VisitEachLink | Scroll | ScrollTo
    | Search | GotoSearchResult | VisualDo | Annotate | ClickMark | TypeMark | Extract | Finish
    | Unknown

  /** A planner may emit steps that are not JSON objects. */
  datatype PlanStep = Object(action: Action) | NotAnObject

  datatype Status =
    | Pending | Acting | Verifying | Extracting | Judging | Replanning | Done | Failed

  datatype Verdict = Pass | Fail | Uncertain | Other

  /** `Ended` is the graph's END; `Crashed` is an exception out of a node. */
  datatype Node = Classify | Plan | Act | Observe | Verify | ExtractData | Judge | Ended | Crashed

  datatype State = State(
    node: Node, plan: seq<PlanStep>, stepIndex: nat, reflectCount: nat, consecutiveFails: nat,
    planCount: nat, toolError: bool, status: Status, verdict: Verdict)

  /** What the outside world answers while a node runs. */
  datatype Reply =
    | Classified
    | CachedPlan(plan: seq<PlanStep>)
    | PlannedSteps(plan: seq<PlanStep>)
    | PlanUnusable
    | ToolOk
    | ToolError
    | SnapshotOk
    | SnapshotError
    | Verified(ok: bool)
    | Extracted
    | Judged(verdict: Verdict)
    | Raises

  /** Actions the verifier trusts without asking a model. */
  predicate NonDomChanging(action: Action) {
    action in {Screenshot, ScreenshotAll, VisitEachLink, Scroll, ScrollTo, Extract, Search, Annotate}
  }

  // --- nodes ---

  function Install(s: State, plan: seq<PlanStep>): State {
    s.(plan := plan, stepIndex := 0, status := Acting, reflectCount := 0, consecutiveFails := 0,
       planCount := s.planCount + 1)
  }

  function PlanNode(s: State, r: Reply): State {
    if s.planCount + 1 > PLAN_MAX then s.(status := Failed, planCount := s.planCount + 1)
    else if r.CachedPlan? && s.planCount == 0 then Install(s, r.plan)
    else if r.PlannedSteps? && r.plan != [] then Install(s, r.plan)
    else s.(status := Failed, planCount := s.planCount + 1)
  }

  function ActNode(s: State, r: Reply): State {
    if s.stepIndex >= |s.plan| then s.(status := Extracting)
    else
      match s.plan[s.stepIndex]
      case NotAnObject => s.(status := Verifying, toolError := true, consecutiveFails := s.consecutiveFails + 1)
      case Object(Finish) => s.(status := Extracting)
      case Object(Unknown) => s.(status := Failed)
      case Object(_) =>
        if r.ToolError? then s.(status := Verifying, toolError := true, consecutiveFails := s.consecutiveFails + 1)
        else s.(status := Verifying)
  }

  function ObserveNode(s: State, r: Reply): State {
    if r.SnapshotError? then s.(status := Failed) else s
  }

  function StepPassed(s: State): State {
    s.(stepIndex := s.stepIndex + 1, status := Acting, consecutiveFails := 0, toolError := false)
  }

  /** Reflect, replan or give up. */
  function StepFailed(s: State): State {
    if s.reflectCount + 1 >= REFLECT_MAX then s.(status := Failed)
    else if s.consecutiveFails + 1 >= REPLAN_AFTER_CONSECUTIVE_FAILS then
      s.(status := Replanning, reflectCount := s.reflectCount + 1, consecutiveFails := 0)
    else
      s.(status := Acting, reflectCount := s.reflectCount + 1, consecutiveFails := s.consecutiveFails + 1)
  }

  /** The verifier passes the step: trusted action or model verdict, and no
      tool error on record. */
  predicate Passes(s: State, r: Reply) {
    !s.toolError &&
    ((s.stepIndex < |s.plan| && s.plan[s.stepIndex].Object? && NonDomChanging(s.plan[s.stepIndex].action))
     || r == Verified(true))
  }

  /** `current_step.get` raises on a step that is not an object. */
  predicate VerifyRaises(s: State) {
    s.stepIndex < |s.plan| && s.plan[s.stepIndex].NotAnObject?
  }

  function VerifyNode(s: State, r: Reply): State {
    if Passes(s, r) then StepPassed(s) else StepFailed(s)
  }

  function JudgeNode(s: State, r: Reply): State {
    var verdict := if r.Judged? then r.verdict else Uncertain;
    if verdict in {Fail, Uncertain} && s.reflectCount < REFLECT_MAX then
      s.(verdict := verdict, reflectCount := s.reflectCount + 1, status := Extracting)
    else
      s.(verdict := verdict, status := Done)
  }

  // --- the graph: each node, then its router ---

  function Step(s: State, r: Reply): State {
    if r.Raises? || (s.node.Verify? && VerifyRaises(s)) then
      if s.node.Ended? then s else s.(node := Crashed)
    else
      match s.node
      case Classify => s.(node := Plan)
      case Plan =>
        var t := PlanNode(s, r);
        t.(node := if t.status == Failed then Ended else Act)
      case Act =>
        var t := ActNode(s, r);
        t.(node := if t.status == Failed then Ended
                   else if t.status == Extracting then ExtractData else Observe)
      case Observe => ObserveNode(s, r).(node := Verify)
      case Verify =>
        var t := VerifyNode(s, r);
        t.(node := if t.status == Failed then Ended
                   else if t.status == Replanning then Plan
                   else if t.stepIndex >= |t.plan| then ExtractData else Act)
      case ExtractData => s.(status := Judging, node := Judge)
      case Judge =>
        var t := JudgeNode(s, r);
        t.(node := if t.status == Extracting then ExtractData else Ended)
      case Ended => s
      case Crashed => s
  }

  predicate Running(s: State) { !s.node.Ended? && !s.node.Crashed? }

  function Run(s: State, replies: seq<Reply>): State {
    if replies == [] then s else Step(Run(s, replies[..|replies| - 1]), replies[|replies| - 1])
  }

  /** The replies are consumed one per node visit, up to the end of the graph. */
  predicate Visits(s: State, replies: seq<Reply>) {
    forall k :: 0 <= k < |replies| ==> Running(Run(s, replies[..k]))
  }

  /** No plan has more than `limit` steps. */
  predicate PlansWithin(replies: seq<Reply>, limit: nat) {
    forall r <- replies :: (r.CachedPlan? || r.PlannedSteps?) ==> |r.plan| <= limit
  }

  /** Where a sample starts. Counters and the error flag may be left over from
      an earlier invocation of the same thread. */
  predicate Starts(s: State) { s.node.Classify? && s.status == Pending }

  // --- termination ---

  /** What may still follow the current plan episode. */
  function AfterEpisode(planCount: nat, limit: nat): nat {
    if planCount == 0 then 9 * limit + 19
    else if planCount == 1 then 6 * limit + 15
    else if planCount == 2 then 3 * limit + 11
    else 1
  }

  function ActBudget(s: State, limit: nat): int {
    3 * (limit - s.stepIndex) + 3 * (2 - s.reflectCount) +
    (if s.planCount >= PLAN_MAX then 4 else AfterEpisode(s.planCount, limit) - 3)
  }

  /** An upper bound on the node visits still to come. */
  function VisitsLeft(s: State, limit: nat): int {
    match s.node
    case Classify => 1 + AfterEpisode(s.planCount, limit)
    case Plan => AfterEpisode(s.planCount, limit)
    case Act => ActBudget(s, limit)
    case Observe => ActBudget(s, limit) - 1
    case Verify => ActBudget(s, limit) - 2
    case ExtractData => 2 * (REFLECT_MAX + 1 - s.reflectCount)
    case Judge => 2 * (REFLECT_MAX + 1 - s.reflectCount) - 1
    case _ => 0
  }

  predicate InEpisode(s: State) { s.node.Act? || s.node.Observe? || s.node.Verify? }

  /** What holds at every node of every run. */
  predicate Shape(s: State, limit: nat) {
    && (InEpisode(s) ==>
          && 1 <= s.planCount <= PLAN_MAX && s.reflectCount <= 2 && |s.plan| <= limit
          && s.stepIndex <= |s.plan|
          && (s.stepIndex == |s.plan| ==> s.node.Act? && |s.plan| == 0 && s.reflectCount == 0))
    && (s.node.ExtractData? || s.node.Judge? ==> s.reflectCount <= REFLECT_MAX)
  }

  lemma PlanVisit(s: State, r: Reply, limit: nat)
    requires s.node.Classify? || s.node.Plan?
    requires (r.CachedPlan? || r.PlannedSteps?) ==> |r.plan| <= limit
    ensures Shape(Step(s, r), limit)
    ensures 0 <= VisitsLeft(Step(s, r), limit) < VisitsLeft(s, limit)
  {
  }

  lemma ActVisit(s: State, r: Reply, limit: nat)
    requires (s.node.Act? || s.node.Observe?) && Shape(s, limit)
    ensures Shape(Step(s, r), limit)
    ensures 0 <= VisitsLeft(Step(s, r), limit) < VisitsLeft(s, limit)
  {
  }

  lemma VerifyVisit(s: State, r: Reply, limit: nat)
    requires s.node.Verify? && Shape(s, limit)
    ensures Shape(Step(s, r), limit)
    ensures 0 <= VisitsLeft(Step(s, r), limit) < VisitsLeft(s, limit)
  {
    if !(r.Raises? || VerifyRaises(s)) && Passes(s, r) {
      assert s.stepIndex + 1 <= |s.plan| <= limit;
    }
  }

  lemma JudgeVisit(s: State, r: Reply, limit: nat)
    requires (s.node.ExtractData? || s.node.Judge?) && Shape(s, limit)
    ensures Shape(Step(s, r), limit)
    ensures 0 <= VisitsLeft(Step(s, r), limit) < VisitsLeft(s, limit)
  {
  }

  lemma StepKeepsShape(s: State, r: Reply, limit: nat)
    requires Shape(s, limit)
    requires (r.CachedPlan? || r.PlannedSteps?) ==> |r.plan| <= limit
    ensures Shape(Step(s, r), limit)
    ensures Running(s) ==> 0 <= VisitsLeft(Step(s, r), limit) < VisitsLeft(s, limit)
  {
    if s.node.Classify? || s.node.Plan? {
      PlanVisit(s, r, limit);
    } else if s.node.Act? || s.node.Observe? {
      ActVisit(s, r, limit);
    } else if s.node.Verify? {
      VerifyVisit(s, r, limit);
    } else if s.node.ExtractData? || s.node.Judge? {
      JudgeVisit(s, r, limit);
    }
  }

  lemma {:induction false} RunKeepsShape(s: State, replies: seq<Reply>, limit: nat)
    requires Shape(s, limit) && PlansWithin(replies, limit)
    ensures Shape(Run(s, replies), limit)
  {
    if replies != [] {
      RunKeepsShape(s, replies[..|replies| - 1], limit);
      StepKeepsShape(Run(s, replies[..|replies| - 1]), replies[|replies| - 1], limit);
    }
  }

  lemma {:induction false} VisitsAreBudgeted(s: State, replies: seq<Reply>, limit: nat)
    requires Starts(s) && PlansWithin(replies, limit) && Visits(s, replies)
    ensures Shape(Run(s, replies), limit)
    ensures |replies| + VisitsLeft(Run(s, replies), limit) <= VisitsLeft(s, limit)
    ensures VisitsLeft(Run(s, replies), limit) >= 0
  {
    RunKeepsShape(s, replies, limit);
    if replies != [] {
      var front := replies[..|replies| - 1];
      forall k | 0 <= k < |front| ensures Running(Run(s, front[..k])) {
        assert front[..k] == replies[..k];
      }
      VisitsAreBudgeted(s, front, limit);
      StepKeepsShape(Run(s, front), replies[|replies| - 1], limit);
    }
  }

  /** Whatever the models and tools answer, a sample whose plans have at most
      `limit` steps makes at most 9 * limit + 20 node visits. */
  lemma GraphTerminates(s: State, replies: seq<Reply>, limit: nat)
    requires Starts(s) && PlansWithin(replies, limit) && Visits(s, replies)
    ensures |replies| <= 9 * limit + 20
    ensures limit <= 20 ==> |replies| <= RECURSION_LIMIT
  {
    VisitsAreBudgeted(s, replies, limit);
  }

  // --- the bound is met ---

  const NEW_THREAD := State(Classify, [], 0, 0, 0, 0, false, Pending, Other)

  function Gotos(limit: nat): seq<PlanStep> { seq(limit, _ => Object(Goto)) }

  /** The verifier that costs most: in the first two plans the last step fails
      twice; in the third, the first two steps fail once each. */
  predicate WorstFails(s: State, limit: nat) {
    if s.planCount < PLAN_MAX then s.stepIndex + 1 == limit
    else (s.stepIndex == 0 && s.reflectCount == 0) || (s.stepIndex == 1 && s.reflectCount == 1)
  }

  function WorstReply(s: State, limit: nat): Reply {
    match s.node
    case Plan => PlannedSteps(Gotos(limit))
    case Act => ToolOk
    case Observe => SnapshotOk
    case Verify => Verified(!WorstFails(s, limit))
    case Judge => Judged(Fail)
    case _ => Classified
  }

  /** The states that verifier leads through. */
  predicate OnWorstPath(s: State, limit: nat) {
    && !s.toolError
    && (s.node.Classify? ==> s.planCount == 0)
    && (s.node.Plan? ==> s.planCount < PLAN_MAX)
    && (s.node.ExtractData? || s.node.Judge? ==> s.reflectCount <= REFLECT_MAX)
    && (InEpisode(s) ==>
          && s.plan == Gotos(limit) && s.stepIndex < limit && 1 <= s.planCount <= PLAN_MAX
          && s.consecutiveFails <= 1
          && (if s.planCount < PLAN_MAX then
                s.reflectCount == s.consecutiveFails && (s.stepIndex + 1 < limit ==> s.reflectCount == 0)
              else
                s.reflectCount == s.consecutiveFails + (if s.stepIndex > 2 then 2 else s.stepIndex) &&
                s.reflectCount <= 2))
  }

  lemma WorstVerify(s: State, limit: nat)
    requires limit >= 2 && OnWorstPath(s, limit) && s.node.Verify?
    ensures var t := Step(s, WorstReply(s, limit));
            VisitsLeft(t, limit) == VisitsLeft(s, limit) - 1 && OnWorstPath(t, limit) && Running(t)
  {
    assert s.plan[s.stepIndex] == Object(Goto);
    var r := WorstReply(s, limit);
    assert Passes(s, r) <==> !WorstFails(s, limit);
    if WorstFails(s, limit) {
      assert s.reflectCount <= 1;
      assert Step(s, r).node == if s.consecutiveFails == 1 then Plan else Act;
    } else {
      assert Step(s, r).stepIndex == s.stepIndex + 1;
    }
  }

  lemma WorstAct(s: State, limit: nat)
    requires limit >= 2 && OnWorstPath(s, limit) && (s.node.Act? || s.node.Observe?)
    ensures var t := Step(s, WorstReply(s, limit));
            VisitsLeft(t, limit) == VisitsLeft(s, limit) - 1 && OnWorstPath(t, limit) && Running(t)
  {
    assert s.plan[s.stepIndex] == Object(Goto);
  }

  /** Along that path the bound on the visits left falls by exactly one. */
  lemma WorstStep(s: State, limit: nat)
    requires limit >= 2 && OnWorstPath(s, limit) && Running(s)
    ensures var t := Step(s, WorstReply(s, limit));
            && VisitsLeft(t, limit) == VisitsLeft(s, limit) - 1
            && (Running(t) ==> OnWorstPath(t, limit))
  {
    if s.node.Verify? {
      WorstVerify(s, limit);
    } else if s.node.Act? || s.node.Observe? {
      WorstAct(s, limit);
    }
  }

  lemma {:induction false} PlansWithinMore(replies: seq<Reply>, r: Reply, limit: nat)
    requires PlansWithin(replies, limit) && ((r.CachedPlan? || r.PlannedSteps?) ==> |r.plan| <= limit)
    ensures PlansWithin(replies + [r], limit)
  {
  }

  lemma VisitsOneMore(s: State, replies: seq<Reply>, r: Reply)
    requires Visits(s, replies) && Running(Run(s, replies))
    ensures Visits(s, replies + [r])
    ensures Run(s, replies + [r]) == Step(Run(s, replies), r)
  {
    assert (replies + [r])[..|replies|] == replies;
    forall k | 0 <= k < |replies + [r]| ensures Running(Run(s, (replies + [r])[..k])) {
      if k < |replies| {
        assert (replies + [r])[..k] == replies[..k];
      }
    }
  }

  lemma {:induction false} WorstRun(replies: seq<Reply>, limit: nat) returns (all: seq<Reply>)
    requires limit >= 2 && Visits(NEW_THREAD, replies) && PlansWithin(replies, limit)
    requires var t := Run(NEW_THREAD, replies);
             (Running(t) ==> OnWorstPath(t, limit)) && VisitsLeft(t, limit) >= 0
    ensures Visits(NEW_THREAD, all) && PlansWithin(all, limit)
    ensures |all| == |replies| + VisitsLeft(Run(NEW_THREAD, replies), limit)
    decreases VisitsLeft(Run(NEW_THREAD, replies), limit)
  {
    var t := Run(NEW_THREAD, replies);
    if Running(t) {
      var r := WorstReply(t, limit);
      WorstStep(t, limit);
      VisitsOneMore(NEW_THREAD, replies, r);
      PlansWithinMore(replies, r, limit);
      assert VisitsLeft(t, limit) >= 1;
      all := WorstRun(replies + [r], limit);
    } else {
      all := replies;
    }
  }

  /** The bound is exact: for every limit of two or more steps some run of a
      fresh thread makes 9 * limit + 20 visits. */
  lemma BoundIsMet(limit: nat) returns (replies: seq<Reply>)
    requires limit >= 2
    ensures Visits(NEW_THREAD, replies) && PlansWithin(replies, limit)
    ensures |replies| == 9 * limit + 20
  {
    replies := WorstRun([], limit);
  }

  /** The recursion limit of 200 is out of reach exactly up to twenty steps. */
  lemma RecursionLimitIsSafeIff(limit: nat)
    ensures limit <= 20 <==>
            forall s, replies | Starts(s) && PlansWithin(replies, limit) && Visits(s, replies) ::
              |replies| <= RECURSION_LIMIT
  {
    if limit <= 20 {
      forall s, replies | Starts(s) && PlansWithin(replies, limit) && Visits(s, replies)
        ensures |replies| <= RECURSION_LIMIT
      {
        GraphTerminates(s, replies, limit);
      }
    } else {
      var replies := BoundIsMet(limit);
      assert Starts(NEW_THREAD) && |replies| > RECURSION_LIMIT;
    }
  }

  // --- extraction is earned ---

  function VerifiedNext(before: seq<nat>, t: State, r: Reply): seq<nat> {
    if t.node.Plan? && Step(t, r).node.Act? then []
    else if t.node.Verify? && !r.Raises? && !VerifyRaises(t) && Passes(t, r) then before + [t.stepIndex]
    else before
  }

  /** The step indices that passed verification since the current plan was
      installed, in order. */
  function VerifiedSteps(s: State, replies: seq<Reply>): seq<nat> {
    if replies == [] then []
    else
      var front := replies[..|replies| - 1];
      VerifiedNext(VerifiedSteps(s, front), Run(s, front), replies[|replies| - 1])
  }

  function Upto(n: nat): seq<nat> { seq(n, i => i) }

  predicate OnTrack(t: State) { InEpisode(t) || t.node.ExtractData? || t.node.Judge? }

  lemma StepVerifiesInOrder(t: State, r: Reply, before: seq<nat>)
    requires OnTrack(t) ==> before == Upto(t.stepIndex)
    ensures OnTrack(Step(t, r)) ==> VerifiedNext(before, t, r) == Upto(Step(t, r).stepIndex)
  {
    if t.node.Verify? && Passes(t, r) {
      assert Upto(t.stepIndex) + [t.stepIndex] == Upto(t.stepIndex + 1);
    }
  }

  lemma {:induction false} VerifiedInOrder(s: State, replies: seq<Reply>)
    requires Starts(s)
    ensures OnTrack(Run(s, replies)) ==> VerifiedSteps(s, replies) == Upto(Run(s, replies).stepIndex)
  {
    if replies != [] {
      var front := replies[..|replies| - 1];
      VerifiedInOrder(s, front);
      StepVerifiesInOrder(Run(s, front), replies[|replies| - 1], VerifiedSteps(s, front));
    }
  }

  function LongestPlan(replies: seq<Reply>): nat {
    if replies == [] then 0
    else
      var r, rest := replies[|replies| - 1], LongestPlan(replies[..|replies| - 1]);
      var n := if r.CachedPlan? || r.PlannedSteps? then |r.plan| else 0;
      if n > rest then n else rest
  }

  lemma {:induction false} LongestPlanBounds(replies: seq<Reply>)
    ensures PlansWithin(replies, LongestPlan(replies))
  {
    if replies != [] {
      LongestPlanBounds(replies[..|replies| - 1]);
    }
  }

  /** Extraction starts only at a `done` step, on an empty plan, or when every
      step of the current plan passed verification exactly once, in order,
      however many retries and replans came before. */
  lemma ExtractionIsEarned(s: State, replies: seq<Reply>, r: Reply)
    requires Starts(s)
    requires !Run(s, replies).node.Judge? && !Run(s, replies).node.ExtractData?
    requires Run(s, replies + [r]).node.ExtractData?
    ensures var t := Run(s, replies);
            || (t.node.Act? && t.plan == [])
            || (t.node.Act? && t.stepIndex < |t.plan| && t.plan[t.stepIndex] == Object(Finish))
            || (t.node.Verify? && VerifiedSteps(s, replies + [r]) == Upto(|t.plan|))
  {
    assert (replies + [r])[..|replies|] == replies;
    LongestPlanBounds(replies);
    RunKeepsShape(s, replies, LongestPlan(replies));
    VerifiedInOrder(s, replies + [r]);
  }

  // --- whole-run budgets ---

  function Installs(s: State, replies: seq<Reply>): nat {
    if replies == [] then 0
    else
      var t := Run(s, replies[..|replies| - 1]);
      Installs(s, replies[..|replies| - 1]) +
      (if t.node.Plan? && Step(t, replies[|replies| - 1]).node.Act? then 1 else 0)
  }

  function JudgeVisits(s: State, replies: seq<Reply>): nat {
    if replies == [] then 0
    else
      JudgeVisits(s, replies[..|replies| - 1]) +
      (if Run(s, replies[..|replies| - 1]).node.Judge? && !replies[|replies| - 1].Raises? then 1 else 0)
  }

  predicate Closing(s: State) { s.node.ExtractData? || s.node.Judge? || s.node.Ended? || s.node.Crashed? }

  /** From extract or judge there is no way back to act or plan. */
  lemma {:induction false} NoWayBack(s: State, replies: seq<Reply>)
    requires Closing(s)
    ensures Closing(Run(s, replies))
  {
    if replies != [] {
      NoWayBack(s, replies[..|replies| - 1]);
    }
  }

  ghost predicate WithinBudgets(s: State, t: State, installs: nat, visits: nat) {
    && installs + s.planCount <= t.planCount
    && (installs > 0 ==> installs + s.planCount <= PLAN_MAX)
    && (if installs > 0 then t.reflectCount <= REFLECT_MAX else t.reflectCount == s.reflectCount)
    && (if t.node.ExtractData? || t.node.Judge? then
          installs > 0 && visits <= t.reflectCount && t.status != Done
        else if Closing(t) then visits <= REFLECT_MAX + 1
        else visits == 0)
    && (visits == 0 ==> t.status != Done && t.verdict == s.verdict)
    && (t.node.Ended? && visits > 0 ==> t.status == Done)
    && (InEpisode(t) ==> installs > 0)
  }

  lemma StepKeepsBudgets(s: State, t: State, r: Reply, installs: nat, visits: nat, limit: nat)
    requires WithinBudgets(s, t, installs, visits) && Shape(t, limit)
    ensures WithinBudgets(s, Step(t, r),
                          installs + (if t.node.Plan? && Step(t, r).node.Act? then 1 else 0),
                          visits + (if t.node.Judge? && !r.Raises? then 1 else 0))
  {
  }

  lemma {:induction false} RunKeepsBudgets(s: State, replies: seq<Reply>)
    requires Starts(s)
    ensures WithinBudgets(s, Run(s, replies), Installs(s, replies), JudgeVisits(s, replies))
  {
    if replies != [] {
      var front := replies[..|replies| - 1];
      RunKeepsBudgets(s, front);
      LongestPlanBounds(front);
      RunKeepsShape(s, front, LongestPlan(front));
      StepKeepsBudgets(s, Run(s, front), replies[|replies| - 1], Installs(s, front), JudgeVisits(s, front),
                       LongestPlan(front));
    }
  }

  /** Of one invocation: at most three plans, four judge visits, and three
      reflections once a plan is installed; without one the count left over by
      an earlier invocation stands. */
  lemma RunsStayInBudget(s: State, replies: seq<Reply>)
    requires Starts(s)
    ensures Installs(s, replies) + s.planCount <= (if s.planCount > PLAN_MAX then s.planCount else PLAN_MAX)
    ensures JudgeVisits(s, replies) <= REFLECT_MAX + 1
    ensures if Installs(s, replies) > 0 then Run(s, replies).reflectCount <= REFLECT_MAX
            else Run(s, replies).reflectCount == s.reflectCount
    ensures Installs(s, replies) == 0 ==> JudgeVisits(s, replies) == 0
  {
    RunKeepsBudgets(s, replies);
    NoPlanNoVerdict(s, replies);
  }

  /** Without a plan the judge is not reached. */
  lemma {:induction false} NoPlanNoVerdict(s: State, replies: seq<Reply>)
    requires Starts(s)
    ensures Installs(s, replies) == 0 ==>
              JudgeVisits(s, replies) == 0 && !InEpisode(Run(s, replies)) &&
              !Run(s, replies).node.ExtractData? && !Run(s, replies).node.Judge?
  {
    if replies != [] {
      NoPlanNoVerdict(s, replies[..|replies| - 1]);
    }
  }

  /** What `_worker` tests to choose between ack and nack. */
  predicate Acked(t: State) { t.verdict == Pass || t.status == Done }

  /** A sample that ends without an exception is done exactly when this
      invocation reached the judge. It is acknowledged exactly then, whatever
      the verdict, or when the thread was left with a passing one. */
  lemma AckedIffJudged(s: State, replies: seq<Reply>)
    requires Starts(s) && Run(s, replies).node.Ended?
    ensures Run(s, replies).status == Done <==> JudgeVisits(s, replies) > 0
    ensures Acked(Run(s, replies)) <==> JudgeVisits(s, replies) > 0 || s.verdict == Pass
  {
    RunKeepsBudgets(s, replies);
  }

  // --- what the judge decides ---

  /** The verdicts the judge gave, in order; an answer that cannot be read is an
      uncertain one. */
  function Verdicts(s: State, replies: seq<Reply>): seq<Verdict> {
    if replies == [] then []
    else
      var front, r := replies[..|replies| - 1], replies[|replies| - 1];
      Verdicts(s, front) +
      (if Run(s, front).node.Judge? && !r.Raises? then [if r.Judged? then r.verdict else Uncertain] else [])
  }

  predicate InDoubt(v: Verdict) { v == Fail || v == Uncertain }

  ghost predicate JudgedSoFar(t: State, given: seq<Verdict>) {
    given != [] ==>
      && t.verdict == given[|given| - 1] && Closing(t)
      && (forall i :: 0 <= i < |given| - 1 ==> InDoubt(given[i]))
      && (t.node.Ended? ==> !InDoubt(t.verdict) || t.reflectCount >= REFLECT_MAX)
      && (!t.node.Ended? ==> InDoubt(t.verdict))
  }

  lemma StepKeepsJudged(t: State, r: Reply, given: seq<Verdict>)
    requires JudgedSoFar(t, given)
    ensures var more := if t.node.Judge? && !r.Raises? then [if r.Judged? then r.verdict else Uncertain] else [];
            JudgedSoFar(Step(t, r), given + more)
  {
  }

  /** Over every run the verdict is the last the judge gave. While it fails the
      sample or is uncertain the graph goes back to extract, until the reflections
      are used up; any other verdict ends the run at once. So a run that ends in
      doubt has made all its reflections, and every earlier verdict was in doubt. */
  lemma {:induction false} JudgeEndsIff(s: State, replies: seq<Reply>)
    requires Starts(s)
    ensures JudgedSoFar(Run(s, replies), Verdicts(s, replies))
    ensures |Verdicts(s, replies)| == JudgeVisits(s, replies)
    ensures var t := Run(s, replies);
            t.node.Ended? && t.status == Done && InDoubt(t.verdict) ==> t.reflectCount >= REFLECT_MAX
  {
    RunKeepsBudgets(s, replies);
    if replies != [] {
      var front := replies[..|replies| - 1];
      JudgeEndsIff(s, front);
      StepKeepsJudged(Run(s, front), replies[|replies| - 1], Verdicts(s, front));
    }
  }

  /** One judge visit in doubt sends the graph back exactly while there are
      reflections left, and uses one. */
  lemma JudgeGoesBackIff(t: State, r: Reply)
    requires t.node.Judge? && !r.Raises?
    ensures Step(t, r).node.ExtractData? <==>
            t.reflectCount < REFLECT_MAX && (r == Judged(Fail) || r == Judged(Uncertain) || !r.Judged?)
    ensures Step(t, r).node.ExtractData? ==> Step(t, r).reflectCount == t.reflectCount + 1
    ensures !Step(t, r).node.ExtractData? ==>
              Step(t, r).node.Ended? && Step(t, r).status == Done && Step(t, r).reflectCount == t.reflectCount
  {
  }

  // --- what the other nodes decide ---

  /** A plan is installed exactly while there are plans left and the planner gave
      steps, or the cache did and no plan was made before; every other answer ends
      the sample. Either way one plan is used up. */
  lemma PlanInstallsIff(t: State, r: Reply)
    requires t.node.Plan? && !r.Raises?
    ensures var t' := Step(t, r);
            && (t'.node.Act? <==>
                  t.planCount < PLAN_MAX &&
                  ((r.CachedPlan? && t.planCount == 0) || (r.PlannedSteps? && r.plan != [])))
            && (t'.node.Act? ==> t'.plan == r.plan && t'.stepIndex == t'.reflectCount == t'.consecutiveFails == 0)
            && (!t'.node.Act? ==> t'.node.Ended? && t'.status == Failed)
            && t'.planCount == t.planCount + 1 && t'.toolError == t.toolError && t'.verdict == t.verdict
  {
  }

  /** An unknown action ends the sample, `done` and the end of the plan go to
      extract, and everything else is observed and verified. */
  lemma ActGoesTo(t: State, r: Reply)
    requires t.node.Act? && !r.Raises?
    ensures var t', past := Step(t, r), t.stepIndex >= |t.plan|;
            && (t'.node.Ended? <==> !past && t.plan[t.stepIndex] == Object(Unknown))
            && (t'.node.ExtractData? <==> past || t.plan[t.stepIndex] == Object(Finish))
            && (t'.node.Ended? || t'.node.ExtractData? || t'.node.Observe?)
            && (t'.toolError <==>
                  t.toolError || (t'.node.Observe? && (r.ToolError? || t.plan[t.stepIndex].NotAnObject?)))
            && t'.stepIndex == t.stepIndex && t'.plan == t.plan && t'.reflectCount == t.reflectCount
  {
  }

  /** A step that only looks at the page is passed without asking the model, every
      other one exactly when the model says so, and none after a tool error. */
  lemma StepIsPassedIff(t: State, r: Reply)
    requires t.node.Verify? && !r.Raises? && t.stepIndex < |t.plan| && t.plan[t.stepIndex].Object?
    ensures var t', action := Step(t, r), t.plan[t.stepIndex].action;
            var trusted :=
              action in {Screenshot, ScreenshotAll, VisitEachLink, Scroll, ScrollTo, Extract, Search, Annotate};
            && (t'.stepIndex == t.stepIndex + 1 <==> !t.toolError && (trusted || r == Verified(true)))
            && (t'.stepIndex == t.stepIndex + 1 || t'.stepIndex == t.stepIndex)
            && (t'.stepIndex == t.stepIndex + 1 ==>
                  t'.node == (if t'.stepIndex < |t.plan| then Act else ExtractData) && t'.consecutiveFails == 0)
  {
    assert !VerifyRaises(t);
    assert VerifyNode(t, r) == if Passes(t, r) then StepPassed(t) else StepFailed(t);
  }

  /** A step that is not passed is tried again once; the second failure in a row
      asks for another plan, and the third reflection ends the sample. */
  lemma FailedStepGoesTo(t: State, r: Reply)
    requires t.node.Verify? && !r.Raises? && !VerifyRaises(t) && t.stepIndex < |t.plan|
    requires Step(t, r).stepIndex == t.stepIndex
    ensures var t' := Step(t, r);
            if t.reflectCount + 1 >= REFLECT_MAX then t'.node.Ended? && t'.status == Failed
            else
              && t'.reflectCount == t.reflectCount + 1
              && (t'.node.Plan? <==> t.consecutiveFails >= 1) && (t'.node.Act? <==> t.consecutiveFails == 0)
              && t'.consecutiveFails == (if t'.node.Plan? then 0 else 1)
  {
    assert !Passes(t, r);
  }

  // --- all attempts of one sample ---

  /** `initial` resets the status; every other count, the verdict and the error
      flag come from the checkpoint of the thread. */
  function Again(t: State): State { t.(node := Classify, status := Pending) }

  /** The thread after its attempts so far; an attempt may end anywhere. */
  function Thread(attempts: seq<seq<Reply>>): State {
    if attempts == [] then NEW_THREAD
    else Run(Again(Thread(attempts[..|attempts| - 1])), attempts[|attempts| - 1])
  }

  /** An attempt that dies at once leaves the thread as it was, plans, counts,
      verdict and error flag included, but at the start of the graph. */
  lemma AttemptStartsWhereTheLastEnded(attempts: seq<seq<Reply>>)
    ensures Thread(attempts + [[]]) == Thread(attempts).(node := Classify, status := Pending)
  {
    assert (attempts + [[]])[..|attempts|] == attempts;
  }

  function AllInstalls(attempts: seq<seq<Reply>>): nat {
    if attempts == [] then 0
    else
      var front := attempts[..|attempts| - 1];
      AllInstalls(front) + Installs(Again(Thread(front)), attempts[|attempts| - 1])
  }

  function AllJudgeVisits(attempts: seq<seq<Reply>>): nat {
    if attempts == [] then 0
    else
      var front := attempts[..|attempts| - 1];
      AllJudgeVisits(front) + JudgeVisits(Again(Thread(front)), attempts[|attempts| - 1])
  }

  /** Over all attempts of a sample, retried and resumed: three plans, and four
      judge visits per plan. */
  lemma {:induction false} ThreadStaysInBudget(attempts: seq<seq<Reply>>)
    ensures AllInstalls(attempts) <= Thread(attempts).planCount
    ensures AllInstalls(attempts) <= PLAN_MAX
    ensures AllJudgeVisits(attempts) <= (REFLECT_MAX + 1) * AllInstalls(attempts)
  {
    if attempts != [] {
      var front, last := attempts[..|attempts| - 1], attempts[|attempts| - 1];
      ThreadStaysInBudget(front);
      RunKeepsBudgets(Again(Thread(front)), last);
      RunsStayInBudget(Again(Thread(front)), last);
    }
  }

  /** So a thread that has used its three plans is never judged again: its
      retries end without a plan, and are acknowledged only if an earlier
      attempt left a passing verdict. */
  lemma SpentThreadIsNotJudged(s: State, replies: seq<Reply>)
    requires Starts(s) && s.planCount >= PLAN_MAX
    ensures Installs(s, replies) == 0 && JudgeVisits(s, replies) == 0
    ensures Run(s, replies).node.Ended? ==> (Acked(Run(s, replies)) <==> s.verdict == Pass)
  {
    RunsStayInBudget(s, replies);
    RunKeepsBudgets(s, replies);
  }

  /** A run to the end of the graph that is acknowledged and reached no judge. */
  ghost predicate AckedUnjudged(s: State, replies: seq<Reply>) {
    && Visits(s, replies) && Run(s, replies).node.Ended?
    && Acked(Run(s, replies)) && JudgeVisits(s, replies) == 0
  }

  /** Whatever its counters, a thread can be acknowledged without judging exactly
      when an earlier attempt left it a passing verdict - it passed, and then the
      process died or the audit log refused. It takes a planner without a plan. */
  lemma AckedWithoutJudging(s: State)
    requires Starts(s)
    ensures (exists replies :: AckedUnjudged(s, replies)) <==> s.verdict == Pass
    ensures s.verdict == Pass ==> AckedUnjudged(s, [Classified, PlanUnusable])
  {
    forall replies | AckedUnjudged(s, replies) ensures s.verdict == Pass {
      AckedIffJudged(s, replies);
    }
    if s.verdict == Pass {
      VisitsOneMore(s, [], Classified);
      assert [] + [Classified] == [Classified];
      VisitsOneMore(s, [Classified], PlanUnusable);
      assert [Classified] + [PlanUnusable] == [Classified, PlanUnusable];
      AckedIffJudged(s, [Classified, PlanUnusable]);
      assert AckedUnjudged(s, [Classified, PlanUnusable]);
    }
  }

  /** Such a thread exists: one plan, one step, judged and passed. */
  lemma PassedThreadExists() returns (replies: seq<Reply>)
    ensures Visits(NEW_THREAD, replies)
    ensures var s := Again(Run(NEW_THREAD, replies));
            Starts(s) && s.verdict == Pass && s.planCount == 1
  {
    var plan := [Object(Finish)];
    replies := [];
    var s := NEW_THREAD;
    replies, s := Visit(replies, s, Classified);
    replies, s := Visit(replies, s, PlannedSteps(plan));
    assert s == Install(NEW_THREAD, plan).(node := Act);
    replies, s := Visit(replies, s, ToolOk);
    assert s.node.ExtractData? && s.planCount == 1;
    replies, s := Visit(replies, s, Extracted);
    replies, s := Visit(replies, s, Judged(Pass));
  }

  lemma Visit(replies: seq<Reply>, s: State, r: Reply) returns (more: seq<Reply>, t: State)
    requires Visits(NEW_THREAD, replies) && s == Run(NEW_THREAD, replies) && Running(s)
    ensures Visits(NEW_THREAD, more) && t == Run(NEW_THREAD, more) && t == Step(s, r)
    ensures more == replies + [r]
  {
    VisitsOneMore(NEW_THREAD, replies, r);
    more, t := replies + [r], Step(s, r);
  }

  // --- tool errors ---

  /** A tool error is cleared only by a passed verification, which it prevents:
      the flag stays, and the step index never grows again. */
  lemma {:induction false} ToolErrorSticks(s: State, replies: seq<Reply>)
    requires s.toolError
    ensures Run(s, replies).toolError && Run(s, replies).stepIndex <= s.stepIndex
  {
    if replies != [] {
      ToolErrorSticks(s, replies[..|replies| - 1]);
    }
  }

  /** It sticks to the thread too: no retry of the sample starts without it. */
  lemma {:induction false} ToolErrorOutlivesAttempts(attempts: seq<seq<Reply>>, n: nat)
    requires n <= |attempts| && Thread(attempts[..n]).toolError
    ensures Thread(attempts).toolError
    decreases |attempts|
  {
    if n < |attempts| {
      var front := attempts[..|attempts| - 1];
      assert front[..n] == attempts[..n];
      ToolErrorOutlivesAttempts(front, n);
      ToolErrorSticks(Again(Thread(front)), attempts[|attempts| - 1]);
    } else {
      assert attempts[..n] == attempts;
    }
  }

  /** After a tool error, extraction can start only where a plan says `done` or
      has no step left, never by verification. */
  lemma AfterToolErrorOnlyDoneExtracts(s: State, replies: seq<Reply>, r: Reply, limit: nat)
    requires s.toolError && Shape(s, limit) && PlansWithin(replies, limit)
    requires !Closing(Run(s, replies)) && Step(Run(s, replies), r).node.ExtractData?
    ensures var t := Run(s, replies);
            t.node.Act? && (t.stepIndex >= |t.plan| || t.plan[t.stepIndex] == Object(Finish))
  {
    ToolErrorSticks(s, replies);
    RunKeepsShape(s, replies, limit);
  }

  /** A tool error is counted by act and again by verify, so the step is not
      retried: the sample replans at once, or fails on its last reflection. */
  lemma ToolErrorReplansAtOnce(s: State, snapshot: Reply, verify: Reply)
    requires s.node.Act? && s.stepIndex < |s.plan| && s.plan[s.stepIndex].Object?
    requires s.plan[s.stepIndex].action !in {Finish, Unknown}
    requires !snapshot.Raises? && !verify.Raises?
    ensures var t := Step(Step(Step(s, ToolError), snapshot), verify);
            if s.reflectCount + 1 < REFLECT_MAX
            then t.node.Plan? && t.reflectCount == s.reflectCount + 1
            else t.node.Ended? && t.status == Failed
  {
    var t1 := Step(s, ToolError);
    assert t1 == s.(node := Observe, status := Verifying, toolError := true,
                    consecutiveFails := s.consecutiveFails + 1);
    var t2 := Step(t1, snapshot);
    assert t2 == t1.(node := Verify, status := t2.status);
    assert !Passes(t2, verify) && VerifyNode(t2, verify) == StepFailed(t2);
  }

  /** A failed snapshot is overwritten by the verifier: it changes nothing. */
  lemma SnapshotErrorIsInvisible(s: State, r: Reply)
    requires s.node.Observe? && !VerifyRaises(s) && !r.Raises?
    ensures Step(Step(s, SnapshotError), r) == Step(Step(s, SnapshotOk), r)
  {
  }

  /** A step that is not an object reaches the verifier, which raises: the
      replan that act's message asks for never happens. */
  lemma BadStepCrashes(s: State, act: Reply, snapshot: Reply, verify: Reply)
    requires s.node.Act? && VerifyRaises(s)
    ensures Step(Step(Step(s, act), snapshot), verify).node.Crashed?
  {
  }
}
