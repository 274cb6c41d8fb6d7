/** A whole run in which a step is completed with the result of another step. */
module StaleRun {
  import opened Common
  import opened Text
  import opened AgentModel
  import opened AgentLoop
  import opened AgentNodes
  import opened AgentEngine
  import opened AgentRuns

  const CALLING := Decision("t", ToolCall, None, 0, Some("tool"), "")
  const FIRST_PLAN := [RawStep("", "old"), RawStep("", "more")]
  const SECOND_PLAN := [RawStep("", "new")]

  /** The first step is finished, the second one overturns the plan. In the new plan the only step
      calls a tool that fails, and its subagent overturns at once. */
  function StaleWorld(): World {
    World(Inputs((pos: nat) =>
                   Turn(Parsed(if pos == 0 then FINISHING else if pos == 2 then CALLING else OVERTURN),
                        Observed(Some("e"), true)),
                 {"tool"}),
          (k: nat) => Planned(if k == 0 then FIRST_PLAN else SECOND_PLAN),
          (s: AgentState) => Ok("done"))
  }

  /** What a planner pass that starts afresh does. */
  lemma PlanGives(w: World, s: AgentState, steps: seq<RawStep>) returns (s': AgentState)
    requires ShouldPlan(s) && Nonblank(s.question) && w.plans(s.plansRead) == Planned(steps)
    requires 1 <= |steps| <= MAX_PLAN_STEPS
    requires ModeOf(s).Initial? || (ModeOf(s).Replan? && s.replanSignal == Some(Overturning))
    ensures Iterate(RealNodes(w), s).Executed? && s' == Iterate(RealNodes(w), s).state
    ensures s'.plan == Some(RestorePlan(steps, 1, false)) && s'.plannerMode == Some(Initial)
    ensures s'.plansRead == s.plansRead + 1 && s'.stepResults == s.stepResults && s'.question == s.question
    ensures s'.replanCount == s.replanCount && s'.turnsRead == s.turnsRead && s'.failedTools == s.failedTools
  {
    hide Nonblank, AdoptPlan, StepReplanStart, RestorePlan;
    var asked := s.(plansRead := s.plansRead + 1);
    s' := Plan(w, s);
    assert s' == AdoptPlan(asked, ModeOf(s), 0, steps);
    Adopted(asked, ModeOf(s), 0, steps);
    AdoptCounts(asked, ModeOf(s), 0, steps);
    AdoptHistory(asked, ModeOf(s), 0, steps);
  }

  /** What the work on the first pending step does, seen through its loop. */
  lemma StepGives(w: World, s: AgentState) returns (s': AgentState)
    requires !ShouldPlan(s) && Prefix(s) < |PlanOf(s)| && PlanOf(s)[Prefix(s)].stepId != ""
    requires !LoopOf(w, s, PlanOf(s)[Prefix(s)]).ending.Failed?
    ensures Iterate(RealNodes(w), s).Executed? && s' == Iterate(RealNodes(w), s).state
    ensures var k := Prefix(s);
            var end := LoopOf(w, s, PlanOf(s)[k]);
            && s'.stepResults == end.mem.stepResults && s'.turnsRead == end.read
            && s'.failedTools == end.mem.failedTools && s'.question == s.question && s'.plansRead == s.plansRead
            && (end.ending.Finished? || end.ending.FinishedBySubagent? ==>
                  && s'.plan == Some(PlanOf(s)[k := MarkDone(PlanOf(s)[k], end.ending.answer)])
                  && s'.plannerMode == s.plannerMode && s'.replanCount == s.replanCount)
            && (end.ending.WantsReplan? ==>
                  && s'.plan == s.plan && s'.plannerMode == Some(Replan) && s'.replanSignal == Some(Overturning)
                  && s'.replanCount == s.replanCount + 1)
  {
    hide Loop, FirstPending, MarkDone, StartedEvents, FinishedEvents;
    SelectedOk(s);
    var chosen := Select(s);
    assert LoopOf(w, chosen, PlanOf(s)[Prefix(s)]) == LoopOf(w, s, PlanOf(s)[Prefix(s)]);
    s' := React(w, chosen);
  }

  lemma FinishesAtOnce(env: Inputs, ctx: Context, agent: nat, mem: Memory, pos: nat)
    requires env.turns(pos).reply == Parsed(FINISHING)
    ensures var end := Loop(env, ctx, agent, mem, 0, 0, pos);
            && end.ending == Finished("a") && end.read == pos + 1 && end.mem.failedTools == mem.failedTools
            && end.mem.stepResults == mem.stepResults + [StepResult(ctx.stepId, ctx.task, "a")]
  {
    hide Nonblank;
    Visible();
  }

  lemma OverturnsAtOnce(env: Inputs, ctx: Context, agent: nat, mem: Memory, pos: nat)
    requires env.turns(pos).reply == Parsed(OVERTURN) && ctx.replanCount == 0
    ensures Loop(env, ctx, agent, mem, 0, 0, pos) == LoopEnd(WantsReplan, mem, pos + 1, [])
  {
    hide Nonblank;
    Visible();
  }

  ghost predicate Gets(n: nat, s: AgentState) {
    After(RealNodes(StaleWorld()), InitialState("q"), n) == Some(s)
  }

  lemma GetsNext(n: nat, s: AgentState, s': AgentState)
    requires Gets(n, s) && Iterate(RealNodes(StaleWorld()), s).Executed?
    requires s' == Iterate(RealNodes(StaleWorld()), s).state
    ensures Gets(n + 1, s')
  {
    AfterOneMore(RealNodes(StaleWorld()), InitialState("q"), n);
  }

  function Step(index: nat, task: string): PlanStep {
    PlanStep(StepName(index), task, Pending, None, 0)
  }

  const OLD_RESULT := StepResult(StepName(1), "old", "a")

  lemma ToSecondStep() returns (s: AgentState)
    ensures Gets(2, s) && !ShouldPlan(s) && s.question == "q" && s.plansRead == 1 && s.turnsRead == 1
    ensures s.plan == Some([MarkDone(Step(1, "old"), "a"), Step(2, "more")])
    ensures s.stepResults == [OLD_RESULT] && s.replanCount == 0 && s.failedTools == []
  {
    hide Nonblank, Loop, Iterate, StepName, FirstPending, After;
    var w := StaleWorld();
    var s0 := InitialState("q");
    QuestionVisible();
    var s1 := PlanGives(w, s0, FIRST_PLAN);
    assert Gets(0, s0) by { NoIteration(); }
    GetsNext(0, s0, s1);
    assert RestorePlan(FIRST_PLAN, 1, false) == [Step(1, "old"), Step(2, "more")];
    AtPrefix(s1, 0);
    FinishesAtOnce(w.inputs, ContextOf(s1, Step(1, "old")), 0, MemoryOf(s1), 0);
    s := StepGives(w, s1);
    GetsNext(1, s1, s);
    var done := MarkDone(Step(1, "old"), "a");
    assert [Step(1, "old"), Step(2, "more")][0 := done] == [done, Step(2, "more")];
  }

  lemma NoIteration()
    ensures Gets(0, InitialState("q"))
  {
  }

  lemma QuestionVisible()
    ensures Nonblank("q")
  {
    StripTrimmed("q");
  }

  lemma AtPrefix(s: AgentState, k: nat)
    requires k < |PlanOf(s)| <= 2 && PlanOf(s)[k].status.Pending? && (k == 1 ==> !PlanOf(s)[0].status.Pending?)
    requires PlanOf(s)[k].stepId == StepName(k + 1)
    ensures Prefix(s) == k && PlanOf(s)[k].stepId != ""
  {
    StepNameNonempty(k + 1);
  }

  lemma ToSecondPlan(s: AgentState) returns (s': AgentState)
    requires Gets(2, s) && !ShouldPlan(s) && s.question == "q" && s.plansRead == 1 && s.turnsRead == 1
    requires s.plan == Some([MarkDone(Step(1, "old"), "a"), Step(2, "more")])
    requires s.stepResults == [OLD_RESULT] && s.replanCount == 0 && s.failedTools == []
    ensures Gets(4, s') && !ShouldPlan(s') && s'.turnsRead == 2 && s'.plan == Some([Step(1, "new")])
    ensures s'.stepResults == [OLD_RESULT] && s'.replanCount == 1 && s'.failedTools == []
  {
    hide Nonblank, Loop, Iterate, StepName, FirstPending, After, Gets;
    var w := StaleWorld();
    AtPrefix(s, 1);
    OverturnsAtOnce(w.inputs, ContextOf(s, Step(2, "more")), 1, MemoryOf(s), 1);
    var s3 := StepGives(w, s);
    GetsNext(2, s, s3);
    QuestionVisible();
    s' := PlanGives(w, s3, SECOND_PLAN);
    GetsNext(3, s3, s');
    assert RestorePlan(SECOND_PLAN, 1, false) == [Step(1, "new")];
  }

  /** After five iterations the step "new" is done with the result of the step "old", although no
      decision made for it gave any answer: turns 2 and 3 are a tool call and a request to replan. */
  lemma StaleResultAccepted() returns (s: AgentState)
    ensures After(RealNodes(StaleWorld()), InitialState("q"), 5) == Some(s)
    ensures s.plan == Some([MarkDone(Step(1, "new"), "a")]) && s.turnsRead == 4
    ensures s.stepResults == [StepResult(StepName(1), "old", "a"), StepResult(StepName(1), "new", "a")]
  {
    hide Nonblank, Loop, Iterate, StepName, FirstPending, After;
    var w := StaleWorld();
    var s2 := ToSecondStep();
    var s4 := ToSecondPlan(s2);
    AtPrefix(s4, 0);
    var ctx, mem := ContextOf(s4, Step(1, "new")), MemoryOf(s4);
    assert SubagentAnswer(mem.stepResults, ctx.stepId) == Some("a") by { Visible(); }
    ToolVisible();
    StaleAnswer(w.inputs, ctx, 2, mem, 2, "tool", "a");
    LoopKeeps(w.inputs, ctx, 2, mem, 0, 0, 2);
    s := StepGives(w, s4);
    GetsNext(4, s4, s);
    var done := MarkDone(Step(1, "new"), "a");
    assert [Step(1, "new")][0 := done] == [done];
  }

  lemma ToolVisible()
    ensures Nonblank("tool")
  {
    StripTrimmed("tool");
  }
}
