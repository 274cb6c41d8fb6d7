/** What the planner, the selector and the loop node leave in the agent's state, field by field. */
module AgentTables {
  import opened Common
  import opened Text
  import opened AgentModel
  import opened AgentNodes
  import opened AgentEngine
  import opened AgentRuns
  import opened AgentEvents

  // ----- step names -----

  function DigitsValue(digits: string): nat
    requires forall i :: 0 <= i < |digits| ==> '0' <= digits[i] <= '9'
  {
    if digits == "" then 0 else 10 * DigitsValue(digits[..|digits| - 1]) + (digits[|digits| - 1] as int - 48)
  }

  /** The number in a made-up step name is the decimal numeral of the index, without leading zeros. */
  lemma {:induction false} DecimalValue(n: nat)
    ensures var digits := Decimal(n);
            && digits != "" && (forall i :: 0 <= i < |digits| ==> '0' <= digits[i] <= '9')
            && DigitsValue(digits) == n
            && (n > 0 ==> digits[0] != '0')
  {
    if n >= 10 {
      DecimalValue(n / 10);
      assert Decimal(n)[..|Decimal(n)| - 1] == Decimal(n / 10);
    } else {
      assert Decimal(n)[..0] == "";
    }
  }

  /** Made-up names are distinct. */
  lemma StepNamesDiffer(i: nat, j: nat)
    requires i != j
    ensures StepName(i) != StepName(j)
  {
    hide Decimal;
    DecimalValue(i);
    DecimalValue(j);
    assert StepName(i)[5..] == Decimal(i) && StepName(j)[5..] == Decimal(j);
  }

  // ----- planner -----

  /** The new part of a plan: each step pending, with the task it was given; with its own id in a whole
      plan, unless that is empty; with a made-up one otherwise. */
  ghost predicate Enters(step: PlanStep, raw: RawStep, index: nat, madeUp: bool) {
    && step == PlanStep(step.stepId, raw.task, Pending, None, 0)
    && (if madeUp || raw.stepId == "" then step.stepId == "step_" + Decimal(index) else step.stepId == raw.stepId)
  }

  /** Which replies make a planner pass fail, and with which error. Nothing but the failure and the log
      changes then. */
  ghost predicate Refuses(w: World, s: AgentState, error: PlannerError) {
    var mode := match s.plannerMode
      case None => if s.planRevision > 0 then Replan else Initial
      case Some(m) => m;
    if Blank(s.question) then error == EmptyQuestion
    else if (mode == Replan && s.replanSignal != Some(Overturning))
            || (mode == StepReplan && s.replanSignal != Some(FindingMissing)) then error == WrongReplanSignal
    else
      match w.plans(s.plansRead)
      case NoPlan(message) => error == BadPlannerReply(message)
      case Planned(steps) =>
        if |steps| == 0 then error == EmptySteps
        else if |steps| > 8 then error == TooManySteps
        else mode == StepReplan && StepReplanStart(s) == None && error == NoCurrentStep
  }

  lemma PlanRefuses(w: World, s: AgentState)
    requires !s.failed
    ensures var s' := Plan(w, s);
            && (s'.failed <==> exists error :: Refuses(w, s, error))
            && (s'.failed ==> s'.error.Some? && s'.error.value.PlannerFailed?
                              && Refuses(w, s, s'.error.value.plannerError)
                              && s' == s.(failed := true, error := s'.error, phase := Some(FailedPhase),
                                          logs := s.logs + [LogItem(PlannerNode, PlannerFails)],
                                          plansRead := s'.plansRead))
  {
    hide Nonblank, AdoptPlan, StepReplanStart, Blank;
    BlankQuestion(s.question);
    var mode := ModeOf(s);
    if !Plan(w, s).failed {
      PlanAdopts(w, s);
      assert forall error :: !Refuses(w, s, error);
    } else {
      PlanFailed(w, s);
    }
  }

  lemma BlankQuestion(question: string)
    ensures Nonblank(question) <==> !Blank(question)
  {
    StripBlank(question);
  }

  lemma PlanFailed(w: World, s: AgentState)
    requires Plan(w, s).failed && !s.failed
    ensures var s' := Plan(w, s);
            && s'.error.Some? && s'.error.value.PlannerFailed? && Refuses(w, s, s'.error.value.plannerError)
            && s' == s.(failed := true, error := s'.error, phase := Some(FailedPhase),
                        logs := s.logs + [LogItem(PlannerNode, PlannerFails)], plansRead := s'.plansRead)
  {
    hide Nonblank, StepReplanStart, Blank, AdoptPlan, StepIds, PlanForMode, IndexOfId;
    BlankQuestion(s.question);
    var asked, mode := s.(plansRead := s.plansRead + 1), ModeOf(s);
    match w.plans(s.plansRead)
    case NoPlan(_) =>
    case Planned(steps) =>
      if steps != [] && (mode.StepReplan? ==> StepReplanStart(s).Some?) {
        Adopted(asked, mode, if mode.StepReplan? then StepReplanStart(s).value else 0, steps);
      }
  }

  /** Where a step replan starts: at the cursor if that is in the plan, else at the first step with the
      current id, if there is one. */
  lemma ReplanStarts(s: AgentState)
    ensures var plan := PlanOf(s);
            match StepReplanStart(s)
            case Some(start) =>
              && start < |plan|
              && (s.currentStepIndex == Some(start)
                  || (s.currentStepId == Some(plan[start].stepId)
                      && (forall j :: 0 <= j < start ==> plan[j].stepId != plan[start].stepId)
                      && (s.currentStepIndex.Some? ==> !(0 <= s.currentStepIndex.value < |plan|))))
            case None =>
              && (s.currentStepIndex.Some? ==> !(0 <= s.currentStepIndex.value < |plan|))
              && (s.currentStepId.Some? && s.currentStepId.value != "" ==>
                    forall j :: 0 <= j < |plan| ==> plan[j].stepId != s.currentStepId.value)
  {
    var plan := PlanOf(s);
    if s.currentStepId.Some? {
      var id := s.currentStepId.value;
      NoIdBefore(plan, id);
    }
  }

  lemma {:induction false} NoIdBefore(plan: seq<PlanStep>, id: string)
    ensures forall j :: 0 <= j < IndexOfId(plan, id) ==> plan[j].stepId != id
  {
    if plan != [] && plan[0].stepId != id {
      NoIdBefore(plan[1..], id);
      assert forall j :: 1 <= j < |plan| ==> plan[j] == plan[1..][j - 1];
    }
  }

  /** The changed steps of an update are named by their ids, in order. */
  lemma ChangedSteps(plan: seq<PlanStep>, i: nat)
    requires i < |plan|
    ensures |StepIds(plan)| == |plan| && StepIds(plan)[i] == plan[i].stepId
  {
  }

  /** A pass that does not fail, in full: the kept prefix, the steps of the reply behind it, and the
      bookkeeping. */
  lemma PlanTable(w: World, s: AgentState, steps: seq<RawStep>)
    requires RunInv(s) && ShouldPlan(s) && !Plan(w, s).failed && w.plans(s.plansRead) == Planned(steps)
    ensures var s' := Plan(w, s);
            var stepwise := s.plannerMode == Some(StepReplan);
            var again := s.plan.Some?;
            var start := if stepwise then Prefix(s) else 0;
            && s'.plan.Some? && |PlanOf(s')| == start + |steps| > start && |PlanOf(s)| >= start
            && PlanOf(s')[..start] == PlanOf(s)[..start]
            && (forall i :: 0 <= i < |steps| ==> Enters(PlanOf(s')[start + i], steps[i], start + i + 1, stepwise))
            && s'.plannerMode == Some(Initial) && s'.planRevision == s.planRevision + 1
            && s'.phase == Some(if again then Replanning else Planning)
            && s'.logs == s.logs + [LogItem(PlannerNode, if again then PlanReplanned else PlanCreated)]
            && (again ==> s'.currentStepIndex == Some(start) && s'.currentStepId == Some(PlanOf(s')[start].stepId))
  {
    hide StepIds, PlanForMode, DonePrefix, ResultsMatch, UpdatesOk, AdoptPlan, Plan, StepReplanStart, Decimal;
    hide FirstPending, Enters;
    PlanAdopts(w, s);
    InvMode(s);
    var mode := ModeOf(s);
    var start := if mode.StepReplan? then Prefix(s) else 0;
    var asked := s.(plansRead := s.plansRead + 1);
    NewPlan(asked, mode, start, steps);
    Adopted(asked, mode, start, steps);
    AdoptReports(asked, mode, start, steps);
    NewSteps(asked, mode, start, steps);
  }

  lemma AdoptReports(s: AgentState, mode: PlannerMode, start: nat, steps: seq<RawStep>)
    requires start <= |PlanOf(s)| && steps != []
    requires s.planRevision > 0 <==> !mode.Initial?
    requires mode.StepReplan? || start == 0
    ensures var s' := AdoptPlan(s, mode, start, steps);
            var plan := PlanForMode(s, mode, start, steps);
            && |plan| > start
            && s'.phase == Some(if mode.Initial? then Planning else Replanning)
            && s'.logs == s.logs + [LogItem(PlannerNode, if mode.Initial? then PlanCreated else PlanReplanned)]
            && (!mode.Initial? ==> s'.currentStepIndex == Some(start) && s'.currentStepId == Some(plan[start].stepId))
  {
    hide StepIds, PlanForMode;
    PlanForModeLonger(s, mode, start, steps);
  }

  lemma NewSteps(s: AgentState, mode: PlannerMode, start: nat, steps: seq<RawStep>)
    requires start <= |PlanOf(s)| && (mode.StepReplan? || start == 0)
    ensures var plan := PlanForMode(s, mode, start, steps);
            && |plan| == start + |steps|
            && forall i :: 0 <= i < |steps| ==> Enters(plan[start + i], steps[i], start + i + 1, mode.StepReplan?)
  {
    hide Decimal;
  }

  // ----- selector -----

  /** The first pending step becomes the current one; without one the run is to finish. */
  lemma SelectTable(s: AgentState, index: nat)
    requires index <= |PlanOf(s)| && forall k :: 0 <= k < index ==> PlanOf(s)[k].status != Pending
    requires index < |PlanOf(s)| ==> PlanOf(s)[index].status == Pending
    ensures Select(s) == if index < |PlanOf(s)| then
                           s.(currentStepIndex := Some(index), currentStepId := Some(PlanOf(s)[index].stepId),
                              finishes := false, phase := Some(SelectingStep), failed := false,
                              logs := s.logs + [LogItem(SelectNode, PendingSelected)])
                         else
                           s.(currentStepIndex := Some(index), currentStepId := None,
                              finishes := true, phase := Some(SelectingStep), failed := false,
                              logs := s.logs + [LogItem(SelectNode, NoPendingStep)])
  {
    hide FirstPending;
    assert FirstPending(PlanOf(s)) == index;
  }

  // ----- the loop over a step -----

  /** A cursor that does not point at a step of the plan with the current id fails the node at once. */
  lemma CursorTable(w: World, s: AgentState)
    ensures var plan := PlanOf(s);
            var fits := match (s.currentStepIndex, s.currentStepId)
              case (Some(index), Some(id)) => 0 <= index < |plan| && id != "" && plan[index].stepId == id
              case _ => false;
            !fits ==>
              exists error ::
                React(w, s) == s.(failed := true, error := Some(LoopFailed(error)), phase := Some(FailedPhase),
                                  logs := s.logs + [LogItem(LoopNode, LoopFails)])
  {
    hide Loop;
    var error := CurrentStepError(s);
    if error.Some? {
      assert React(w, s) == LoopFailure(s, error.value);
    }
  }

  /** Every way in which the loop can end, and what becomes of the state. A failure that keeps the memory
      keeps its counters, but not its results. */
  ghost predicate LeavesState(s: AgentState, index: nat, step: PlanStep, end: LoopEnd, s': AgentState) {
    var counted := s.(overthinkCounts := end.mem.overthinkCounts, noFindingCounts := end.mem.noFindingCounts,
                      failedTools := end.mem.failedTools, subagentResults := end.mem.subagentResults,
                      turnsRead := end.read, toolRuns := s.toolRuns + end.runs);
    var kept := counted.(stepResults := end.mem.stepResults, failed := false);
    match end.ending
    case Failed(keepsMemory, error) =>
      s' == (if keepsMemory then counted else s.(turnsRead := end.read, toolRuns := s.toolRuns + end.runs)).(
              failed := true, error := Some(LoopFailed(error)), phase := Some(FailedPhase),
              logs := s.logs + [LogItem(LoopNode, LoopFails)])
    case Finished(answer) =>
      IsCompleted(kept, index, step, answer, s.logs + [LogItem(LoopNode, StepCompleted)], s')
    case FinishedBySubagent(answer) =>
      IsCompleted(kept, index, step, answer, s.logs + [LogItem(LoopNode, StepCompletedBySubagent)], s')
    case WantsReplan =>
      s' == kept.(plannerMode := Some(Replan), replanSignal := Some(Overturning), replanCount := s.replanCount + 1,
                  phase := Some(Replanning), logs := s.logs + [LogItem(LoopNode, ReplanRequested)])
    case WantsStepReplan =>
      s' == kept.(plannerMode := Some(StepReplan), replanSignal := Some(FindingMissing),
                  stepReplanCount := s.stepReplanCount + 1,
                  phase := Some(Replanning), logs := s.logs + [LogItem(LoopNode, StepReplanRequested)])
  }

  /** The step at `index` is done with this result, and nothing else of the plan has changed. */
  ghost predicate IsCompleted(kept: AgentState, index: nat, step: PlanStep, answer: string, logs: seq<LogItem>,
                              s': AgentState) {
    && kept.plan.Some? && index < |kept.plan.value|
    && s' == kept.(plan := Some(kept.plan.value[index := step.(status := Done, result := Some(answer))]),
                   phase := Some(Reacting), logs := logs)
  }

  lemma ReactTable(w: World, s: AgentState, index: nat)
    requires index < |PlanOf(s)| && PlanOf(s)[index].stepId != ""
    requires s.currentStepIndex == Some(index) && s.currentStepId == Some(PlanOf(s)[index].stepId)
    ensures var step := PlanOf(s)[index];
            var mem := Memory(s.stepResults, s.overthinkCounts, s.noFindingCounts, s.failedTools, s.subagentResults, 0);
            var ctx := Context(step.stepId, step.task, s.replanCount, s.stepReplanCount);
            LeavesState(s, index, step, Loop(w.inputs, ctx, s.turnsRead, mem, 0, 0, s.turnsRead), React(w, s))
  {
    hide Loop, ApplyEnding, LeavesState;
    EndingTable(s, index, LoopOf(w, s, PlanOf(s)[index]));
  }

  lemma EndingTable(s: AgentState, index: nat, end: LoopEnd)
    requires index < |PlanOf(s)|
    ensures var applied := ApplyEnding(s, index, end.ending, end.mem);
            LeavesState(s, index, PlanOf(s)[index], end,
                        applied.(turnsRead := end.read, toolRuns := s.toolRuns + end.runs))
  {
  }

  // ----- log items of the real nodes -----

  /** Every node of the agent appends exactly one log item, under its own name. */
  ghost predicate OneItem(before: seq<LogItem>, after: seq<LogItem>, node: NodeName) {
    |after| == |before| + 1 && before == after[..|before|] && after[|before|].node == node
  }

  lemma NodesLogOnce(w: World, s: AgentState)
    ensures OneItem(s.logs, Plan(w, s).logs, PlannerNode)
    ensures OneItem(s.logs, Select(s).logs, SelectNode)
    ensures OneItem(s.logs, React(w, s).logs, LoopNode)
  {
    hide Loop, AdoptPlan, StepReplanStart, Nonblank;
    PlanLogs(w, s);
    ReactLogs(w, s);
  }

  lemma PlanLogs(w: World, s: AgentState)
    ensures OneItem(s.logs, Plan(w, s).logs, PlannerNode)
  {
    hide StepReplanStart, Nonblank, AdoptPlan, ModeOf, OneItem;
    RefusalLogs(s);
    RefusalLogs(s.(plansRead := s.plansRead + 1));
    var asked := s.(plansRead := s.plansRead + 1);
    var reply := w.plans(s.plansRead);
    if reply.Planned? && reply.steps != [] {
      AdoptLogs(asked, ModeOf(s), 0, reply.steps);
      if StepReplanStart(s).Some? {
        AdoptLogs(asked, ModeOf(s), StepReplanStart(s).value, reply.steps);
      }
    }
  }

  lemma RefusalLogs(s: AgentState)
    ensures forall error :: OneItem(s.logs, PlannerFailure(s, error).logs, PlannerNode)
  {
  }

  lemma AdoptLogs(s: AgentState, mode: PlannerMode, start: nat, steps: seq<RawStep>)
    requires start <= |PlanOf(s)| && steps != []
    ensures OneItem(s.logs, AdoptPlan(s, mode, start, steps).logs, PlannerNode)
  {
    hide StepIds, RestorePlan;
  }

  lemma ReactLogs(w: World, s: AgentState)
    ensures OneItem(s.logs, React(w, s).logs, LoopNode)
  {
    hide Loop, ApplyEnding;
    if CurrentStepError(s) == None {
      StepAtHand(s);
      var index: nat := s.currentStepIndex.value;
      var end := LoopOf(w, s, PlanOf(s)[index]);
      EndingLogs(s, index, end.ending, end.mem);
    }
  }

  lemma EndingLogs(s: AgentState, index: nat, ending: Ending, mem: Memory)
    requires index < |PlanOf(s)|
    ensures OneItem(s.logs, ApplyEnding(s, index, ending, mem).logs, LoopNode)
  {
    hide MarkDone, PlanOf;
  }

  /** So the log events of a run of the agent are exactly the items in its state's log, one for every
      node that ran. */
  lemma RunLogs(w: World, question: string, n: nat)
    ensures match After(RealNodes(w), InitialState(question), n)
            case Some(s) => LogsOf(Legacy(RealNodes(w), InitialState(question), n).events) == s.logs
            case None => true
  {
    hide Legacy, After, LogsOf, Plan, Select, React;
    forall s: AgentState ensures s.logs <= Plan(w, s).logs && s.logs <= Select(s).logs && s.logs <= React(w, s).logs {
      NodesLogOnce(w, s);
    }
    if After(RealNodes(w), InitialState(question), n).Some? {
      LogsOnce(RealNodes(w), InitialState(question), n);
    }
  }
}
