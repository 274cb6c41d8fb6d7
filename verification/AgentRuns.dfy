/** Whole runs of the agent: what holds at every outer iteration, and why a run ends. */
module AgentRuns {
  import opened Common
  import opened Text
  import opened AgentModel
  import opened AgentLoop
  import opened AgentNodes
  import opened AgentEngine

  /** The nodes of the real agent. What they emit while they run is left to the engine's lemmas. */
  function RealNodes(w: World): Nodes {
    Nodes(s => Ran(Plan(w, s), []), s => Ran(Select(s), []), s => Ran(React(w, s), []), w.answers)
  }

  // ----- the invariant -----

  /** A finished prefix of `k` steps, and pending steps behind it. */
  ghost predicate DonePrefix(plan: seq<PlanStep>, k: nat) {
    && k <= |plan|
    && (forall i :: 0 <= i < k ==> plan[i].status.Done? && plan[i].result.Some?)
    && (forall i :: k <= i < |plan| ==> plan[i].status.Pending?)
    && (forall i :: 0 <= i < |plan| ==> plan[i].stepId != "")
  }

  /** The recorded results end with exactly the steps of the prefix. */
  ghost predicate ResultsMatch(plan: seq<PlanStep>, k: nat, results: seq<StepResult>)
    requires DonePrefix(plan, k)
  {
    && k <= |results|
    && forall i :: 0 <= i < k ==>
         results[|results| - k + i] == StepResult(plan[i].stepId, plan[i].task, plan[i].result.value)
  }

  function Prefix(s: AgentState): nat {
    FirstPending(PlanOf(s))
  }

  function PendingSteps(s: AgentState): nat {
    |PlanOf(s)| - Prefix(s)
  }

  /** One update per planner pass after the first, numbered from 2 on. */
  ghost predicate UpdatesOk(updates: seq<PlanUpdate>, revision: nat) {
    && |updates| == (if revision == 0 then 0 else revision - 1)
    && forall i :: 0 <= i < |updates| ==> updates[i].revision == i + 2
  }

  ghost predicate RunInv(s: AgentState) {
    && !s.failed
    && DonePrefix(PlanOf(s), Prefix(s)) && ResultsMatch(PlanOf(s), Prefix(s), s.stepResults)
    && PendingSteps(s) <= MAX_PLAN_STEPS
    && s.replanCount <= MAX_REPLAN_COUNT && s.stepReplanCount <= MAX_STEP_REPLAN_COUNT
    && s.planRevision == s.plansRead && UpdatesOk(s.planUpdates, s.planRevision)
    && s.plansRead == (if ShouldPlan(s) then 0 else 1) + s.replanCount + s.stepReplanCount
    && (s.plan.Some? <==> s.planRevision > 0) && (s.plan.Some? <==> s.plannerMode.Some?)
    && (s.plannerMode == Some(Replan) ==> s.replanSignal == Some(Overturning))
    && (s.plannerMode == Some(StepReplan) ==>
          s.replanSignal == Some(FindingMissing) && s.currentStepIndex == Some(Prefix(s)) && Prefix(s) < |PlanOf(s)|)
  }

  lemma {:induction false} PrefixIsFirstPending(plan: seq<PlanStep>, k: nat)
    requires DonePrefix(plan, k)
    ensures FirstPending(plan) == k
  {
    if k > 0 {
      PrefixIsFirstPending(plan[1..], k - 1);
    }
  }

  lemma AppendPending(plan: seq<PlanStep>, k: nat, tail: seq<PlanStep>)
    requires DonePrefix(plan, k) && DonePrefix(tail, 0)
    ensures DonePrefix(plan[..k] + tail, k)
  {
  }

  lemma StepNameNonempty(index: nat)
    ensures StepName(index) != ""
  {
    hide Decimal;
  }

  lemma RestoredPending(steps: seq<RawStep>, startIndex: nat, force: bool)
    ensures DonePrefix(RestorePlan(steps, startIndex, force), 0)
  {
    hide StepName;
    var plan := RestorePlan(steps, startIndex, force);
    forall i | 0 <= i < |plan| ensures plan[i].status.Pending? && plan[i].stepId != "" {
      StepNameNonempty(startIndex + i);
      assert plan[i] == Restore(steps[i], startIndex + i, force);
    }
  }

  /** The plan made by a pass: the kept prefix, if any, and one pending step per new one. */
  lemma NewPlan(s: AgentState, mode: PlannerMode, start: nat, steps: seq<RawStep>)
    requires DonePrefix(PlanOf(s), Prefix(s)) && start <= Prefix(s)
    requires mode.StepReplan? || start == 0
    ensures var plan := PlanForMode(s, mode, start, steps);
            && DonePrefix(plan, start) && FirstPending(plan) == start
            && |plan| == start + |steps| && plan[..start] == PlanOf(s)[..start]
  {
    hide Restore, DonePrefix;
    if mode.StepReplan? {
      RestoredPending(steps, start + 1, true);
      ShorterPrefix(PlanOf(s), Prefix(s), start);
      AppendPending(PlanOf(s)[..start], start, RestorePlan(steps, start + 1, true));
      assert PlanOf(s)[..start][..start] == PlanOf(s)[..start];
    } else {
      RestoredPending(steps, 1, false);
    }
    PrefixIsFirstPending(PlanForMode(s, mode, start, steps), start);
  }

  lemma ShorterPrefix(plan: seq<PlanStep>, k: nat, start: nat)
    requires DonePrefix(plan, k) && start <= k
    ensures DonePrefix(plan[..start], start)
  {
  }

  /** A planner pass that does not fail. A step replan keeps exactly the finished prefix; any other
      pass starts afresh. In both cases one to eight pending steps follow and nothing recorded is
      lost. */
  lemma PlanKeeps(w: World, s: AgentState)
    requires RunInv(s) && ShouldPlan(s) && !Plan(w, s).failed
    ensures var s' := Plan(w, s);
            && RunInv(s') && !ShouldPlan(s')
            && s'.plansRead == s.plansRead + 1
            && s'.stepResults == s.stepResults
            && s'.replanCount == s.replanCount && s'.stepReplanCount == s.stepReplanCount
            && 1 <= PendingSteps(s') <= MAX_PLAN_STEPS
            && Prefix(s') == (if s.plannerMode == Some(StepReplan) then Prefix(s) else 0)
            && PlanOf(s')[..Prefix(s')] == PlanOf(s)[..Prefix(s')]
            && (s.plan.Some? ==> s'.planUpdates == s.planUpdates
                                 + [PlanUpdate(s'.planRevision, StepIds(PlanOf(s')[Prefix(s')..]))])
  {
    hide StepIds, PlanForMode, DonePrefix, ResultsMatch, UpdatesOk, AdoptPlan, Plan, StepReplanStart;
    PlanAdopts(w, s);
    InvMode(s);
    var mode := ModeOf(s);
    var start := if mode.StepReplan? then Prefix(s) else 0;
    var steps := w.plans(s.plansRead).steps;
    var asked := s.(plansRead := s.plansRead + 1);
    NewPlan(asked, mode, start, steps);
    Adopted(asked, mode, start, steps);
    AdoptUpdates(asked, mode, start, steps);
    ResultsOfPrefix(PlanOf(s), Prefix(s), PlanForMode(asked, mode, start, steps), start, s.stepResults);
  }

  /** A pass that does not fail adopts the plan it was given. */
  lemma PlanAdopts(w: World, s: AgentState)
    requires !Plan(w, s).failed
    ensures var reply := w.plans(s.plansRead);
            var mode := ModeOf(s);
            && reply.Planned? && reply.steps != [] && |reply.steps| <= MAX_PLAN_STEPS
            && (mode.StepReplan? ==> StepReplanStart(s).Some?)
            && Plan(w, s) == AdoptPlan(s.(plansRead := s.plansRead + 1), mode,
                                       if mode.StepReplan? then StepReplanStart(s).value else 0, reply.steps)
  {
    hide Nonblank, AdoptPlan, StepReplanStart;
  }

  lemma InvMode(s: AgentState)
    requires RunInv(s) && ShouldPlan(s)
    ensures ModeOf(s).Initial? <==> s.plan.None?
    ensures ModeOf(s).Initial? ==> s.replanCount + s.stepReplanCount == 0
    ensures ModeOf(s).StepReplan? <==> s.plannerMode == Some(StepReplan)
    ensures ModeOf(s).StepReplan? ==> StepReplanStart(s) == Some(Prefix(s))
  {
    hide DonePrefix, ResultsMatch, UpdatesOk, FirstPending, IndexOfId;
  }

  lemma Adopted(s: AgentState, mode: PlannerMode, start: nat, steps: seq<RawStep>)
    requires start <= |PlanOf(s)| && steps != []
    ensures var s' := AdoptPlan(s, mode, start, steps);
            var plan := PlanForMode(s, mode, start, steps);
            var again := !mode.Initial? || s.planRevision > 0;
            && s'.plan == Some(plan) && s'.plannerMode == Some(Initial) && !s'.failed
            && s'.plansRead == s.plansRead && s'.stepResults == s.stepResults
            && s'.replanCount == s.replanCount && s'.stepReplanCount == s.stepReplanCount
            && s'.planRevision == (if again then s.planRevision + 1 else 1)
            && s'.planUpdates == s.planUpdates
                 + (if !again then []
                    else [PlanUpdate(s'.planRevision, StepIds(if mode.StepReplan? then plan[start..] else plan))])
  {
    hide StepIds, PlanForMode;
    assert s.planUpdates + [] == s.planUpdates;
    PlanForModeLonger(s, mode, start, steps);
  }

  lemma PlanForModeLonger(s: AgentState, mode: PlannerMode, start: nat, steps: seq<RawStep>)
    requires start <= |PlanOf(s)| && steps != []
    ensures |PlanForMode(s, mode, start, steps)| > if mode.StepReplan? then start else 0
  {
    hide Restore;
  }

  lemma AdoptUpdates(s: AgentState, mode: PlannerMode, start: nat, steps: seq<RawStep>)
    requires UpdatesOk(s.planUpdates, s.planRevision) && start <= |PlanOf(s)| && steps != []
    requires s.planRevision > 0 <==> !mode.Initial?
    ensures var s' := AdoptPlan(s, mode, start, steps);
            UpdatesOk(s'.planUpdates, s'.planRevision)
  {
    hide StepIds, PlanForMode;
  }

  lemma ResultsOfPrefix(plan: seq<PlanStep>, k: nat, plan': seq<PlanStep>, start: nat, results: seq<StepResult>)
    requires DonePrefix(plan, k) && ResultsMatch(plan, k, results)
    requires DonePrefix(plan', start) && start <= k && plan'[..start] == plan[..start]
    requires start == k || start == 0
    ensures ResultsMatch(plan', start, results)
  {
    forall i | 0 <= i < start
      ensures results[|results| - start + i] == StepResult(plan'[i].stepId, plan'[i].task, plan'[i].result.value)
    {
      assert plan'[i] == plan'[..start][i] == plan[i];
    }
  }

  lemma SelectKeeps(s: AgentState)
    requires RunInv(s) && !ShouldPlan(s)
    ensures var s' := Select(s);
            && RunInv(s') && !ShouldPlan(s')
            && PlanOf(s') == PlanOf(s) && s' == s'.(stepResults := s.stepResults, turnsRead := s.turnsRead)
            && s'.replanCount == s.replanCount && s'.stepReplanCount == s.stepReplanCount
            && s'.plansRead == s.plansRead && s'.planUpdates == s.planUpdates
            && s'.currentStepIndex == Some(Prefix(s))
            && (s'.finishes <==> PendingSteps(s) == 0)
            && (PendingSteps(s) > 0 ==> CurrentStepError(s') == None)
  {
    hide Nonblank;
  }

  /** The ways in which a step that did not fail can have gone. */
  ghost predicate StepDone(s: AgentState, s': AgentState) {
    && PendingSteps(s') == PendingSteps(s) - 1 && Prefix(s') == Prefix(s) + 1 && !ShouldPlan(s')
    && |s'.stepResults| == |s.stepResults| + 1
    && s'.replanCount == s.replanCount && s'.stepReplanCount == s.stepReplanCount
  }

  ghost predicate StepReplanned(s: AgentState, s': AgentState) {
    && ShouldPlan(s') && PlanOf(s') == PlanOf(s) && s'.stepResults == s.stepResults
    && s'.replanCount + s'.stepReplanCount == s.replanCount + s.stepReplanCount + 1
  }

  lemma MarkKeeps(plan: seq<PlanStep>, k: nat, results: seq<StepResult>, answer: string)
    requires DonePrefix(plan, k) && k < |plan| && ResultsMatch(plan, k, results)
    ensures var plan' := plan[k := MarkDone(plan[k], answer)];
            && DonePrefix(plan', k + 1)
            && ResultsMatch(plan', k + 1, results + [StepResult(plan[k].stepId, plan[k].task, answer)])
            && FirstPending(plan') == k + 1
  {
    var plan' := plan[k := MarkDone(plan[k], answer)];
    PrefixIsFirstPending(plan', k + 1);
  }

  lemma ReactKeeps(w: World, s: AgentState)
    requires RunInv(s) && !ShouldPlan(s) && PendingSteps(s) > 0
    requires s.currentStepIndex == Some(Prefix(s)) && CurrentStepError(s) == None && !React(w, s).failed
    ensures var s' := React(w, s);
            && RunInv(s') && s'.plansRead == s.plansRead
            && (StepDone(s, s') || StepReplanned(s, s'))
  {
    hide Loop, Nonblank, DonePrefix, ResultsMatch, UpdatesOk, ApplyEnding, RunInv, StepDone, StepReplanned;
    var k := Prefix(s);
    var step := PlanOf(s)[k];
    var end := LoopOf(w, s, step);
    LoopKeeps(w.inputs, ContextOf(s, step), s.turnsRead, MemoryOf(s), 0, 0, s.turnsRead);
    var applied := ApplyEnding(s, k, end.ending, end.mem);
    assert !applied.failed;
    HistoryIgnored(s, applied, end.read, s.toolRuns + end.runs);
    match end.ending
    case Finished(answer) => DoneKeeps(s, end.ending, answer, end.mem);
    case FinishedBySubagent(answer) => DoneKeeps(s, end.ending, answer, end.mem);
    case Failed(_, _) => ApplyFailure(s, end.ending, end.mem);
    case WantsReplan => ReplanKeeps(s, end.ending, end.mem);
    case WantsStepReplan => ReplanKeeps(s, end.ending, end.mem);
  }

  lemma ApplyFailure(s: AgentState, ending: Ending, mem: Memory)
    requires ending.Failed? && Prefix(s) < |PlanOf(s)|
    ensures ApplyEnding(s, Prefix(s), ending, mem).failed
  {
    hide FirstPending;
  }

  lemma DoneKeeps(s: AgentState, ending: Ending, answer: string, mem: Memory)
    requires RunInv(s) && !ShouldPlan(s) && PendingSteps(s) > 0
    requires ending == Finished(answer) || ending == FinishedBySubagent(answer)
    requires var step := PlanOf(s)[Prefix(s)];
             mem.stepResults == s.stepResults + [StepResult(step.stepId, step.task, answer)]
    ensures var s' := ApplyEnding(s, Prefix(s), ending, mem);
            RunInv(s') && StepDone(s, s') && s'.plansRead == s.plansRead
  {
    hide DonePrefix, ResultsMatch, UpdatesOk, FirstPending, MarkDone;
    MarkKeeps(PlanOf(s), Prefix(s), s.stepResults, answer);
  }

  lemma ReplanKeeps(s: AgentState, ending: Ending, mem: Memory)
    requires RunInv(s) && !ShouldPlan(s) && PendingSteps(s) > 0 && s.currentStepIndex == Some(Prefix(s))
    requires mem.stepResults == s.stepResults
    requires (ending.WantsReplan? && s.replanCount < MAX_REPLAN_COUNT)
             || (ending.WantsStepReplan? && s.stepReplanCount < MAX_STEP_REPLAN_COUNT)
    ensures var s' := ApplyEnding(s, Prefix(s), ending, mem);
            RunInv(s') && StepReplanned(s, s') && s'.plansRead == s.plansRead
  {
    hide DonePrefix, ResultsMatch, UpdatesOk, FirstPending;
  }

  lemma HistoryIgnored(s: AgentState, s': AgentState, read: nat, runs: seq<ToolRun>)
    ensures var later := s'.(turnsRead := read, toolRuns := runs);
            && (RunInv(s') ==> RunInv(later)) && (StepDone(s, s') ==> StepDone(s, later))
            && (StepReplanned(s, s') ==> StepReplanned(s, later))
  {
    hide DonePrefix, ResultsMatch, UpdatesOk, FirstPending;
  }

  // ----- termination of the outer loop -----

  function ReplansLeft(s: AgentState): int {
    MAX_REPLAN_COUNT - s.replanCount + (MAX_STEP_REPLAN_COUNT - s.stepReplanCount)
  }

  /** Iterations that a run may still take: for every replan left nine, for the plan at hand one per
      pending step, or nine if a plan is due, and one to finish. */
  function Measure(s: AgentState): int {
    9 * ReplansLeft(s) + (if ShouldPlan(s) then 9 else PendingSteps(s)) + 1
  }

  /** The ways of one iteration that goes on. */
  ghost predicate Progress(s: AgentState, s': AgentState) {
    if ShouldPlan(s) then
      && !ShouldPlan(s') && 1 <= PendingSteps(s') <= MAX_PLAN_STEPS && s'.plansRead == s.plansRead + 1
      && ReplansLeft(s') == ReplansLeft(s)
    else
      && PendingSteps(s) > 0 && s'.plansRead == s.plansRead
      && if ShouldPlan(s') then ReplansLeft(s') == ReplansLeft(s) - 1
         else PendingSteps(s') == PendingSteps(s) - 1 && ReplansLeft(s') == ReplansLeft(s)
  }

  /** An iteration that goes on keeps the invariant and comes closer to the end. */
  lemma IterationKeeps(w: World, s: AgentState)
    requires RunInv(s)
    ensures match Iterate(RealNodes(w), s)
            case Executed(_, s') => RunInv(s') && Progress(s, s') && Measure(s') < Measure(s)
            case Ended(_, outcome) => !outcome.IterationLimit?
                                      && (PendingSteps(s) == 0 && !ShouldPlan(s) ==>
                                            outcome == Summarized(w.answers(Select(s))))
  {
    hide StartedEvents, FinishedEvents, Plan, Select, React, RunInv;
    if ShouldPlan(s) {
      if !Plan(w, s).failed {
        PlanKeeps(w, s);
      }
    } else {
      SelectKeeps(s);
      var chosen := Select(s);
      SelectedOk(s);
      if PendingSteps(s) > 0 && !React(w, chosen).failed {
        ReactKeeps(w, chosen);
      }
    }
    InvNumbers(s);
  }

  lemma SelectedOk(s: AgentState)
    ensures !Select(s).failed && PlanOf(Select(s)) == PlanOf(s)
  {
  }

  lemma InvNumbers(s: AgentState)
    requires RunInv(s)
    ensures PendingSteps(s) <= MAX_PLAN_STEPS && ReplansLeft(s) >= 0 && Measure(s) >= 1
  {
  }

  /** The state after `n` iterations, if the run got that far. */
  function After(nodes: Nodes, s: AgentState, n: nat): Option<AgentState>
    decreases n
  {
    if n == 0 then Some(s)
    else
      match Iterate(nodes, s)
      case Ended(_, _) => None
      case Executed(_, after) => After(nodes, after, n - 1)
  }

  lemma {:induction false} AfterKeeps(w: World, s: AgentState, n: nat)
    requires RunInv(s)
    ensures match After(RealNodes(w), s, n)
            case Some(s') => RunInv(s') && 1 <= Measure(s') <= Measure(s) - n
            case None => true
    decreases n
  {
    hide RunInv, Iterate;
    InvNumbers(s);
    if n > 0 {
      IterationKeeps(w, s);
      var turn := Iterate(RealNodes(w), s);
      if turn.Executed? {
        AfterKeeps(w, turn.state, n - 1);
      }
    }
  }

  lemma InitialInv(question: string)
    ensures RunInv(InitialState(question)) && Measure(InitialState(question)) == 28
  {
  }

  /** The whole run. At every outer iteration the plan is a finished prefix followed by pending
      steps, the recorded results end with exactly the results of that prefix, and once there is a
      plan its revision is the number of planner passes; and no run takes more than 28 iterations. */
  lemma WholeRun(w: World, question: string, n: nat)
    ensures match After(RealNodes(w), InitialState(question), n)
            case Some(s) =>
              && n <= 27 && !s.failed
              && DonePrefix(PlanOf(s), Prefix(s)) && ResultsMatch(PlanOf(s), Prefix(s), s.stepResults)
              && (s.plan.Some? ==> s.planRevision == s.plansRead >= 1) && UpdatesOk(s.planUpdates, s.planRevision)
            case None => true
    ensures After(RealNodes(w), InitialState(question), 28) == None
  {
    hide Iterate;
    InitialInv(question);
    AfterKeeps(w, InitialState(question), n);
    AfterKeeps(w, InitialState(question), 28);
  }

  // ----- the cap of 27 iterations -----

  lemma {:induction false} AfterOneMore(nodes: Nodes, s: AgentState, n: nat)
    ensures After(nodes, s, n + 1) ==
            match After(nodes, s, n)
            case None => None
            case Some(s') => if Iterate(nodes, s').Executed? then Some(Iterate(nodes, s').state) else None
    decreases n
  {
    hide Iterate;
    if n > 0 {
      var turn := Iterate(nodes, s);
      if turn.Executed? {
        AfterOneMore(nodes, turn.state, n - 1);
      }
    } else {
      var turn := Iterate(nodes, s);
      assert turn.Executed? ==> After(nodes, turn.state, 0) == Some(turn.state);
    }
  }

  lemma {:induction false} LimitMeans(w: World, s: AgentState, n: nat)
    requires RunInv(s)
    ensures Legacy(RealNodes(w), s, n).outcome.IterationLimit? <==> After(RealNodes(w), s, n).Some?
    decreases n
  {
    hide RunInv, Iterate;
    if n > 0 {
      IterationKeeps(w, s);
      var turn := Iterate(RealNodes(w), s);
      if turn.Executed? {
        LimitMeans(w, turn.state, n - 1);
      }
    }
  }

  /** No iteration of a run that the cap stops was better than it had to be: every planner pass gave
      eight pending steps, and every replan came from the last pending one. */
  ghost predicate Slowest(s: AgentState, s': AgentState) {
    if ShouldPlan(s) then PendingSteps(s') == MAX_PLAN_STEPS
    else ShouldPlan(s') ==> PendingSteps(s) == 1
  }

  /** When the cap stops a run, its last state has every planned step done, both replans spent and
      three planner passes made: only the finishing selection is missing, and one more iteration
      would have given the answer. On the way every iteration was of the slowest kind. */
  lemma CapStops(w: World, question: string, i: nat)
    requires Legacy(RealNodes(w), InitialState(question), MAX_ITERATIONS).outcome.IterationLimit?
    requires i < MAX_ITERATIONS
    ensures var s := After(RealNodes(w), InitialState(question), MAX_ITERATIONS);
            && s.Some? && !ShouldPlan(s.value) && PendingSteps(s.value) == 0
            && ReplansLeft(s.value) == 0 && s.value.plansRead == 3
            && Iterate(RealNodes(w), s.value).Ended?
            && Iterate(RealNodes(w), s.value).outcome == Summarized(w.answers(Select(s.value)))
    ensures var a := After(RealNodes(w), InitialState(question), i);
            var b := After(RealNodes(w), InitialState(question), i + 1);
            a.Some? && b.Some? && Slowest(a.value, b.value)
  {
    hide Iterate, RunInv, Legacy, After;
    InitialInv(question);
    var start := InitialState(question);
    LimitMeans(w, start, MAX_ITERATIONS);
    var last := After(RealNodes(w), start, MAX_ITERATIONS).value;
    AfterKeeps(w, start, MAX_ITERATIONS);
    assert Measure(last) == 1;
    InvNumbers(last);
    PassCount(last);
    IterationKeeps(w, last);
    Earlier(RealNodes(w), start, i + 1, MAX_ITERATIONS);
    Earlier(RealNodes(w), start, i, i + 1);
    var a := After(RealNodes(w), start, i).value;
    var b := After(RealNodes(w), start, i + 1).value;
    AfterOneMore(RealNodes(w), start, i);
    AfterKeeps(w, start, i);
    IterationKeeps(w, a);
    AfterFrom(RealNodes(w), start, i + 1, MAX_ITERATIONS - (i + 1));
    AfterKeeps(w, b, MAX_ITERATIONS - (i + 1));
    InvNumbers(a);
    InvNumbers(b);
  }

  /** `n` iterations in a row of the slowest kind. */
  ghost predicate SlowestRun(nodes: Nodes, s: AgentState, n: nat)
    decreases n
  {
    n == 0
    || match Iterate(nodes, s)
       case Ended(_, _) => false
       case Executed(_, s') => Slowest(s, s') && SlowestRun(nodes, s', n - 1)
  }

  /** An iteration lowers the measure by one exactly if it is of the slowest kind. */
  lemma SlowestMeasure(s: AgentState, s': AgentState)
    requires RunInv(s) && RunInv(s') && Progress(s, s')
    ensures Measure(s') == Measure(s) - 1 <==> Slowest(s, s')
  {
    hide RunInv, ShouldPlan, PendingSteps;
    InvNumbers(s);
    InvNumbers(s');
  }

  lemma {:induction false} SlowestRunMeasure(w: World, s: AgentState, n: nat)
    requires RunInv(s) && After(RealNodes(w), s, n).Some?
    ensures Measure(After(RealNodes(w), s, n).value) == Measure(s) - n <==> SlowestRun(RealNodes(w), s, n)
    decreases n
  {
    hide RunInv, Iterate, Measure, Slowest, Progress;
    if n > 0 {
      IterationKeeps(w, s);
      var turn := Iterate(RealNodes(w), s);
      SlowestMeasure(s, turn.state);
      AfterKeeps(w, turn.state, n - 1);
      SlowestRunMeasure(w, turn.state, n - 1);
    }
  }

  /** Only the finishing selection is missing, and nothing is left to replan. */
  ghost predicate AllButFinished(s: AgentState) {
    !ShouldPlan(s) && PendingSteps(s) == 0 && ReplansLeft(s) == 0
  }

  /** The cap exactly: it stops a run if and only if the run gets, by slowest iterations alone, to a
      state in which all steps are done and both replans are spent. */
  lemma CapStopsExactly(w: World, question: string)
    ensures var start := InitialState(question);
            Legacy(RealNodes(w), start, MAX_ITERATIONS).outcome.IterationLimit?
            <==> exists n: nat :: SlowestRun(RealNodes(w), start, n) && After(RealNodes(w), start, n).Some?
                                  && AllButFinished(After(RealNodes(w), start, n).value)
  {
    hide Iterate, RunInv, Legacy, After, SlowestRun;
    var start := InitialState(question);
    InitialInv(question);
    LimitMeans(w, start, MAX_ITERATIONS);
    if After(RealNodes(w), start, MAX_ITERATIONS).Some? {
      AfterKeeps(w, start, MAX_ITERATIONS);
      SlowestRunMeasure(w, start, MAX_ITERATIONS);
      InvNumbers(After(RealNodes(w), start, MAX_ITERATIONS).value);
    }
    if n: nat :| SlowestRun(RealNodes(w), start, n) && After(RealNodes(w), start, n).Some?
                 && AllButFinished(After(RealNodes(w), start, n).value) {
      SlowestRunMeasure(w, start, n);
    }
  }

  lemma PassCount(s: AgentState)
    requires RunInv(s) && !ShouldPlan(s)
    ensures s.plansRead == 3 - ReplansLeft(s)
  {
  }

  /** A run that reached iteration `m` reached every earlier one. */
  lemma {:induction false} Earlier(nodes: Nodes, s: AgentState, n: nat, m: nat)
    requires n <= m && After(nodes, s, m).Some?
    ensures After(nodes, s, n).Some?
    decreases n
  {
    hide Iterate;
    if n > 0 {
      var turn := Iterate(nodes, s);
      assert turn.Executed?;
      Earlier(nodes, turn.state, n - 1, m - 1);
    }
  }

  lemma {:induction false} AfterFrom(nodes: Nodes, s: AgentState, n: nat, m: nat)
    requires After(nodes, s, n).Some?
    ensures After(nodes, s, n + m) == After(nodes, After(nodes, s, n).value, m)
    decreases n
  {
    hide Iterate;
    if n > 0 {
      var turn := Iterate(nodes, s);
      assert turn.Executed?;
      AfterFrom(nodes, turn.state, n - 1, m);
    }
  }

  // ----- the cap does stop a run that was all but finished -----

  const FINISHING := Decision("t", Finish, None, 0, None, "a")
  const FRUITLESS := Decision("t", Think, None, 1, None, "")

  /** Every plan has eight steps; the eighth step of the first plan overturns it, the eighth step of
      the second plan finds nothing three times, all other steps finish at once. */
  function SlowWorld(): World {
    World(Inputs((pos: nat) =>
                   Turn(Parsed(if pos == 7 then OVERTURN else if 15 <= pos <= 17 then FRUITLESS else FINISHING),
                        Raised("")),
                 {}),
          (k: nat) => Planned(seq(8, i => RawStep("s", "t"))),
          (s: AgentState) => Ok("done"))
  }

  function SlowTurn(pos: nat): Decision {
    if pos == 7 then OVERTURN else if 15 <= pos <= 17 then FRUITLESS else FINISHING
  }

  ghost predicate NothingMissedYet(s: AgentState) {
    forall id :: id in s.noFindingCounts ==> s.noFindingCounts[id] == 0
  }

  /** Where the slow run is: a plan is due, or `pending` steps are left. */
  ghost predicate At(s: AgentState, pending: nat, turns: nat, replans: nat, stepReplans: nat) {
    && RunInv(s) && !ShouldPlan(s) && NothingMissedYet(s) && Nonblank(s.question)
    && PendingSteps(s) == pending && s.turnsRead == turns
    && s.replanCount == replans && s.stepReplanCount == stepReplans
  }

  ghost predicate Due(s: AgentState, turns: nat, replans: nat, stepReplans: nat) {
    && RunInv(s) && ShouldPlan(s) && Nonblank(s.question) && (replans + stepReplans == 0 ==> s.noFindingCounts == map[])
    && s.turnsRead == turns && s.replanCount == replans && s.stepReplanCount == stepReplans
  }

  ghost predicate GoesTo(s: AgentState, n: nat, s': AgentState) {
    After(RealNodes(SlowWorld()), s, n) == Some(s')
  }

  lemma GoesOn(s: AgentState, n: nat, middle: AgentState, m: nat, s': AgentState)
    requires GoesTo(s, n, middle) && GoesTo(middle, m, s')
    ensures GoesTo(s, n + m, s')
  {
    AfterFrom(RealNodes(SlowWorld()), s, n, m);
  }

  lemma OneIteration(s: AgentState)
    requires Iterate(RealNodes(SlowWorld()), s).Executed?
    ensures GoesTo(s, 1, Iterate(RealNodes(SlowWorld()), s).state)
  {
    hide Iterate;
    var turn := Iterate(RealNodes(SlowWorld()), s);
    assert After(RealNodes(SlowWorld()), turn.state, 0) == Some(turn.state);
  }

  lemma SlowPlan(s: AgentState, turns: nat, replans: nat, stepReplans: nat) returns (s': AgentState)
    requires Due(s, turns, replans, stepReplans)
    ensures GoesTo(s, 1, s') && At(s', 8, turns, replans, stepReplans)
  {
    hide RunInv, Plan, Nonblank, AdoptPlan, StepReplanStart, RestorePlan;
    var w := SlowWorld();
    var steps := w.plans(s.plansRead).steps;
    assert |steps| == 8 && steps != [];
    InvMode(s);
    PlanGoesWell(w, s);
    PlanAdopts(w, s);
    PlanKeeps(w, s);
    PlanCounts(w, s);
    s' := Plan(w, s);
    OneIteration(s);
  }

  /** When a pass does not fail, and how many steps it leaves to do. */
  lemma PlanGoesWell(w: World, s: AgentState)
    requires RunInv(s) && ShouldPlan(s) && Nonblank(s.question)
    requires w.plans(s.plansRead).Planned? && 1 <= |w.plans(s.plansRead).steps| <= MAX_PLAN_STEPS
    ensures !Plan(w, s).failed && PendingSteps(Plan(w, s)) == |w.plans(s.plansRead).steps|
  {
    hide Nonblank, AdoptPlan, StepReplanStart, PlanForMode, DonePrefix, ResultsMatch, UpdatesOk, FirstPending;
    InvMode(s);
    var mode := ModeOf(s);
    var start := if mode.StepReplan? then Prefix(s) else 0;
    var steps := w.plans(s.plansRead).steps;
    var asked := s.(plansRead := s.plansRead + 1);
    assert Plan(w, s) == AdoptPlan(asked, mode, start, steps);
    Adopted(asked, mode, start, steps);
    NewPlan(asked, mode, start, steps);
  }

  lemma PlanCounts(w: World, s: AgentState)
    requires !Plan(w, s).failed
    ensures var s' := Plan(w, s);
            && s'.question == s.question && s'.turnsRead == s.turnsRead
            && s'.noFindingCounts == if ModeOf(s).Initial? then s.noFindingCounts else map[]
  {
    hide Plan, AdoptPlan, ModeOf, StepReplanStart;
    PlanAdopts(w, s);
    var reply := w.plans(s.plansRead);
    var start := if ModeOf(s).StepReplan? then StepReplanStart(s).value else 0;
    AdoptCounts(s.(plansRead := s.plansRead + 1), ModeOf(s), start, reply.steps);
  }

  lemma AdoptCounts(s: AgentState, mode: PlannerMode, start: nat, steps: seq<RawStep>)
    requires start <= |PlanOf(s)| && steps != []
    ensures var s' := AdoptPlan(s, mode, start, steps);
            && s'.question == s.question && s'.turnsRead == s.turnsRead
            && s'.noFindingCounts == if mode.Initial? then s.noFindingCounts else map[]
  {
    hide StepIds, RestorePlan;
  }

  /** A turn that finishes the step. */
  lemma FinishTurn(ctx: Context, agent: nat, mem: Memory, pos: nat)
    requires SlowTurn(pos) == FINISHING
    ensures Loop(SlowWorld().inputs, ctx, agent, mem, 0, 0, pos)
         == LoopEnd(Finished("a"),
                    mem.(noFindingCounts := mem.noFindingCounts[ctx.stepId := 0],
                         stepResults := mem.stepResults + [StepResult(ctx.stepId, ctx.task, "a")]),
                    pos + 1, [])
  {
    hide Nonblank;
    Visible();
  }

  lemma OverturnTurn(ctx: Context, agent: nat, mem: Memory)
    requires ctx.replanCount == 0
    ensures Loop(SlowWorld().inputs, ctx, agent, mem, 0, 0, 7) == LoopEnd(WantsReplan, mem, 8, [])
  {
    hide Nonblank;
    Visible();
  }

  /** Three fruitless turns in a row. */
  lemma FruitlessTurns(ctx: Context, agent: nat, mem: Memory)
    requires ctx.stepReplanCount == 0 && CountOf(mem.noFindingCounts, ctx.stepId) == 0
    ensures Loop(SlowWorld().inputs, ctx, agent, mem, 0, 0, 15)
         == LoopEnd(WantsStepReplan, mem.(noFindingCounts := mem.noFindingCounts[ctx.stepId := 3]), 18, [])
  {
    hide Nonblank;
    Visible();
    var env := SlowWorld().inputs;
    var m1 := mem.(noFindingCounts := mem.noFindingCounts[ctx.stepId := 1]);
    var m2 := m1.(noFindingCounts := m1.noFindingCounts[ctx.stepId := 2]);
    var m3 := m2.(noFindingCounts := m2.noFindingCounts[ctx.stepId := 3]);
    assert PlayTurn(env, ctx, agent, mem, 0, 15) == Continues(m1, 1, []);
    assert PlayTurn(env, ctx, agent, m1, 1, 16) == Continues(m2, 2, []);
    assert PlayTurn(env, ctx, agent, m2, 2, 17) == Stops(WantsStepReplan, m3, []);
    assert m3 == mem.(noFindingCounts := mem.noFindingCounts[ctx.stepId := 3]);
    hide PlayTurn;
    assert Loop(env, ctx, agent, m2, 2, 2, 17) == LoopEnd(WantsStepReplan, m3, 18, []);
    assert Loop(env, ctx, agent, m1, 1, 1, 16) == LoopEnd(WantsStepReplan, m3, 18, []);
  }

  /** One iteration that works on a step, seen through its loop. */
  lemma SlowStep(s: AgentState, pending: nat, turns: nat, replans: nat, stepReplans: nat) returns (s': AgentState)
    requires At(s, pending, turns, replans, stepReplans) && pending > 0
    requires SlowTurn(turns) == FINISHING || (turns == 7 && replans == 0) || (turns == 15 && stepReplans == 0)
    ensures GoesTo(s, 1, s')
    ensures SlowTurn(turns) == FINISHING ==> At(s', pending - 1, turns + 1, replans, stepReplans)
    ensures turns == 7 ==> Due(s', 8, replans + 1, stepReplans)
    ensures turns == 15 ==> Due(s', 18, replans, stepReplans + 1)
  {
    hide Nonblank, Loop, RunInv, SlowWorld, CountOf, React, ApplyEnding, Select, FirstPending, CurrentStepError;
    var w := SlowWorld();
    var chosen := Select(s);
    SelectKeeps(s);
    SelectedCounts(s);
    SelectedOk(s);
    InvNumbers(s);
    CursorAtPrefix(chosen);
    var step := PlanOf(s)[Prefix(s)];
    var ctx, mem := ContextOf(chosen, step), MemoryOf(chosen);
    NotMissed(chosen, step.stepId);
    if SlowTurn(turns) == FINISHING {
      FinishTurn(ctx, turns, mem, turns);
    } else if turns == 7 {
      OverturnTurn(ctx, turns, mem);
    } else {
      FruitlessTurns(ctx, turns, mem);
    }
    s' := React(w, chosen);
    ReactCounts(w, chosen);
    ReactKeeps(w, chosen);
    OneIteration(s);
  }

  lemma CursorAtPrefix(s: AgentState)
    requires s.currentStepIndex == Some(Prefix(s)) && CurrentStepError(s) == None
    ensures Prefix(s) < |PlanOf(s)|
  {
    hide Prefix, PlanOf;
  }

  /** What a loop that did not fail does to the counters of the state. */
  lemma ReactCounts(w: World, s: AgentState)
    requires CurrentStepError(s) == None && s.currentStepIndex == Some(Prefix(s)) && Prefix(s) < |PlanOf(s)|
    ensures var s' := React(w, s);
            var end := LoopOf(w, s, PlanOf(s)[Prefix(s)]);
            && s'.question == s.question && s'.turnsRead == end.read && s'.failed == end.ending.Failed?
            && (!s'.failed ==>
                  && s'.noFindingCounts == end.mem.noFindingCounts && s'.plan.Some?
                  && s'.replanCount == s.replanCount + (if end.ending.WantsReplan? then 1 else 0)
                  && s'.stepReplanCount == s.stepReplanCount + (if end.ending.WantsStepReplan? then 1 else 0)
                  && s'.plannerMode == if end.ending.WantsReplan? then Some(Replan)
                                       else if end.ending.WantsStepReplan? then Some(StepReplan) else s.plannerMode)
  {
    hide Loop, FirstPending, ApplyEnding;
    var end := LoopOf(w, s, PlanOf(s)[Prefix(s)]);
    ApplyCounts(s, Prefix(s), end.ending, end.mem);
  }

  lemma ApplyCounts(s: AgentState, index: nat, ending: Ending, mem: Memory)
    requires index < |PlanOf(s)|
    ensures var s' := ApplyEnding(s, index, ending, mem);
            && s'.question == s.question && s'.failed == ending.Failed?
            && (!s'.failed ==>
                  && s'.noFindingCounts == mem.noFindingCounts && s'.plan.Some?
                  && s'.replanCount == s.replanCount + (if ending.WantsReplan? then 1 else 0)
                  && s'.stepReplanCount == s.stepReplanCount + (if ending.WantsStepReplan? then 1 else 0)
                  && s'.plannerMode == if ending.WantsReplan? then Some(Replan)
                                       else if ending.WantsStepReplan? then Some(StepReplan) else s.plannerMode)
  {
    hide MarkDone;
  }

  lemma SelectedCounts(s: AgentState)
    ensures var c := Select(s);
            c.noFindingCounts == s.noFindingCounts && c.turnsRead == s.turnsRead && c.question == s.question
  {
  }

  lemma NotMissed(s: AgentState, id: string)
    requires NothingMissedYet(s)
    ensures CountOf(s.noFindingCounts, id) == 0
  {
  }

  /** `n` steps in a row that finish at once. */
  lemma {:induction false} SlowSteps(s: AgentState, pending: nat, turns: nat, replans: nat, stepReplans: nat, n: nat)
    returns (s': AgentState)
    requires At(s, pending, turns, replans, stepReplans) && n <= pending
    requires forall t :: turns <= t < turns + n ==> SlowTurn(t) == FINISHING
    ensures GoesTo(s, n, s') && At(s', pending - n, turns + n, replans, stepReplans)
    decreases n
  {
    hide GoesTo, At, Due;
    if n == 0 {
      Nowhere(s);
      s' := s;
    } else {
      var next := SlowStep(s, pending, turns, replans, stepReplans);
      s' := SlowSteps(next, pending - 1, turns + 1, replans, stepReplans, n - 1);
      GoesOn(s, 1, next, n - 1, s');
    }
  }

  lemma Nowhere(s: AgentState)
    ensures GoesTo(s, 0, s)
  {
  }

  /** The input that the cap stops: 3 planner passes and 24 step executions, none failing, use up the
      27 iterations, although every step of the last plan is done. */
  lemma CapStopsSlowRun()
    ensures Legacy(RealNodes(SlowWorld()), InitialState("q"), MAX_ITERATIONS).outcome == IterationLimit
  {
    hide GoesTo, At, Due, Legacy, RunInv;
    var s0 := InitialState("q");
    SlowInitial();
    var s1 := SlowPlan(s0, 0, 0, 0);
    var s8 := SlowSteps(s1, 8, 0, 0, 0, 7);
    GoesOn(s0, 1, s1, 7, s8);
    var s9 := SlowStep(s8, 1, 7, 0, 0);
    GoesOn(s0, 8, s8, 1, s9);
    var s10 := SlowPlan(s9, 8, 1, 0);
    GoesOn(s0, 9, s9, 1, s10);
    var s17 := SlowSteps(s10, 8, 8, 1, 0, 7);
    GoesOn(s0, 10, s10, 7, s17);
    var s18 := SlowStep(s17, 1, 15, 1, 0);
    GoesOn(s0, 17, s17, 1, s18);
    var s19 := SlowPlan(s18, 18, 1, 1);
    GoesOn(s0, 18, s18, 1, s19);
    var s27 := SlowSteps(s19, 8, 18, 1, 1, 8);
    GoesOn(s0, 19, s19, 8, s27);
    SlowReached(s27);
    LimitMeans(SlowWorld(), s0, MAX_ITERATIONS);
  }

  lemma SlowInitial()
    ensures Due(InitialState("q"), 0, 0, 0) && RunInv(InitialState("q"))
  {
    InitialInv("q");
    StripTrimmed("q");
  }

  lemma SlowReached(s: AgentState)
    requires GoesTo(InitialState("q"), 27, s)
    ensures After(RealNodes(SlowWorld()), InitialState("q"), MAX_ITERATIONS) == Some(s)
  {
  }

  // ----- the step events of an iteration -----

  lemma {:induction false} FirstWithId(plan: seq<PlanStep>, k: nat)
    requires k < |plan|
    ensures var i := IndexOfId(plan, plan[k].stepId);
            i <= k && forall j :: 0 <= j < i ==> plan[j].stepId != plan[k].stepId
  {
    if plan[0].stepId != plan[k].stepId {
      FirstWithId(plan[1..], k - 1);
      assert forall j :: 1 <= j < |plan| ==> plan[j] == plan[1..][j - 1];
    }
  }

  lemma {:induction false} SameIds(plan: seq<PlanStep>, plan': seq<PlanStep>, stepId: string)
    requires |plan| == |plan'| && forall j :: 0 <= j < |plan| ==> plan[j].stepId == plan'[j].stepId
    ensures IndexOfId(plan, stepId) == IndexOfId(plan', stepId)
  {
    if plan != [] {
      SameIds(plan[1..], plan'[1..], stepId);
    }
  }

  lemma ApplyPlan(s: AgentState, index: nat, ending: Ending, mem: Memory)
    requires index < |PlanOf(s)|
    ensures var s' := ApplyEnding(s, index, ending, mem);
            && s'.currentStepId == s.currentStepId
            && |PlanOf(s')| == |PlanOf(s)|
            && (forall j :: 0 <= j < |PlanOf(s)| && j != index ==> PlanOf(s')[j] == PlanOf(s)[j])
            && PlanOf(s')[index].stepId == PlanOf(s)[index].stepId
  {
  }

  /** The events around the work on a step. They are about the step that is worked on if and only if
      no earlier step of the plan has its id. Otherwise they are about the first step that has it: its
      task is announced, and its old result is reported as just finished, even when the step that was
      worked on asked for a new plan. */
  lemma StepEvents(w: World, s: AgentState)
    requires RunInv(s) && !ShouldPlan(s) && PendingSteps(s) > 0
    ensures var plan, k := PlanOf(s), Prefix(s);
            var i := IndexOfId(plan, plan[k].stepId);
            && i <= k && (i == k <==> forall j :: 0 <= j < k ==> plan[j].stepId != plan[k].stepId)
            && StartedEvents(Select(s)) == [StepStarted(plan[k].stepId, plan[i].task)]
            && (!React(w, Select(s)).failed ==>
                  var plan' := PlanOf(React(w, Select(s)));
                  && |plan'| == |plan|
                  && FinishedEvents(React(w, Select(s))) ==
                       if i < k then [StepFinished(plan[k].stepId, plan[i].result)]
                       else if plan'[k].status.Done? then [StepFinished(plan[k].stepId, plan'[k].result)]
                       else [])
  {
    hide React, FirstPending, IndexOfId, ResultsMatch, UpdatesOk;
    SelectKeeps(s);
    var plan, k, chosen := PlanOf(s), Prefix(s), Select(s);
    var id := plan[k].stepId;
    FirstWithId(plan, k);
    assert chosen.currentStepId == Some(id) && id != "";
    if !React(w, chosen).failed {
      ReactPlan(w, chosen, k);
      SameIds(plan, PlanOf(React(w, chosen)), id);
    }
  }

  lemma ReactPlan(w: World, s: AgentState, k: nat)
    requires CurrentStepError(s) == None && s.currentStepIndex == Some(k) && k < |PlanOf(s)|
    ensures var s' := React(w, s);
            && s'.currentStepId == s.currentStepId && |PlanOf(s')| == |PlanOf(s)|
            && (forall j :: 0 <= j < |PlanOf(s)| && j != k ==> PlanOf(s')[j] == PlanOf(s)[j])
            && PlanOf(s')[k].stepId == PlanOf(s)[k].stepId
  {
    hide Loop, ApplyEnding;
    var end := LoopOf(w, s, PlanOf(s)[k]);
    ApplyPlan(s, k, end.ending, end.mem);
  }

  // ----- failed tools over a whole run -----

  /** No tool that failed for the agent itself runs again anywhere in the run, and none that failed
      for a subagent runs again for that subagent. */
  ghost predicate ToolsOk(s: AgentState) {
    && NoRepeat(s.toolRuns)
    && (forall i :: 0 <= i < |s.toolRuns| ==> s.toolRuns[i].agent < s.turnsRead)
    && (forall i :: 0 <= i < |s.toolRuns| && s.toolRuns[i].errored && s.toolRuns[i].depth == 0 ==>
          s.toolRuns[i].tool in s.failedTools)
  }

  lemma RunsAppend(old0: seq<ToolRun>, new0: seq<ToolRun>, start: nat, failed: seq<string>)
    requires NoRepeat(old0) && NoRepeat(new0) && Avoids(new0, failed)
    requires forall i :: 0 <= i < |old0| ==> old0[i].agent < start
    requires forall j :: 0 <= j < |new0| ==> start <= new0[j].agent
    requires forall i :: 0 <= i < |old0| && old0[i].errored && old0[i].depth == 0 ==> old0[i].tool in failed
    ensures NoRepeat(old0 + new0)
  {
    var runs := old0 + new0;
    forall i, j | 0 <= i < j < |runs| && runs[i].errored && (runs[i].agent == runs[j].agent || runs[i].depth == 0)
      ensures runs[i].tool != runs[j].tool
    {
      if i >= |old0| {
        assert runs[i] == new0[i - |old0|] && runs[j] == new0[j - |old0|];
      } else if j < |old0| {
        assert runs[i] == old0[i] && runs[j] == old0[j];
      } else {
        assert runs[i] == old0[i] && runs[j] == new0[j - |old0|];
      }
    }
  }

  /** Even an iteration that fails executes no tool again. */
  lemma ReactTools(w: World, s: AgentState)
    requires ToolsOk(s)
    ensures NoRepeat(React(w, s).toolRuns)
    ensures !React(w, s).failed ==> ToolsOk(React(w, s))
  {
    hide Loop, NoRepeat, Avoids, CurrentStepError;
    if CurrentStepError(s) == None {
      StepAtHand(s);
      var index: nat := s.currentStepIndex.value;
      var step := PlanOf(s)[index];
      var end := LoopOf(w, s, step);
      LoopRuns(w.inputs, ContextOf(s, step), s.turnsRead, MemoryOf(s), 0, 0, s.turnsRead);
      LoopReads(w.inputs, ContextOf(s, step), s.turnsRead, MemoryOf(s), 0, 0, s.turnsRead);
      LoopKeeps(w.inputs, ContextOf(s, step), s.turnsRead, MemoryOf(s), 0, 0, s.turnsRead);
      RunsAppend(s.toolRuns, end.runs, s.turnsRead, s.failedTools);
      ReactHistory(s, index, end);
      RecordsAppend(s.toolRuns, end.runs, s.turnsRead, end.read, s.failedTools, end.mem.failedTools);
    }
  }

  lemma StepAtHand(s: AgentState)
    requires CurrentStepError(s) == None
    ensures s.currentStepIndex.Some? && 0 <= s.currentStepIndex.value < |PlanOf(s)|
  {
  }

  lemma ReactHistory(s: AgentState, index: nat, end: LoopEnd)
    requires index < |PlanOf(s)|
    ensures var s' := ApplyEnding(s, index, end.ending, end.mem);
            s'.toolRuns == s.toolRuns && (!s'.failed ==> s'.failedTools == end.mem.failedTools)
  {
    hide MarkDone, PlanOf;
    match end.ending
    case Failed(_, _) =>
    case Finished(_) =>
    case FinishedBySubagent(_) =>
    case WantsReplan =>
    case WantsStepReplan =>
  }

  lemma RecordsAppend(old0: seq<ToolRun>, new0: seq<ToolRun>, start: nat, read: nat, failed: seq<string>,
                      now: seq<string>)
    requires failed <= now && start < read
    requires forall i :: 0 <= i < |old0| ==> old0[i].agent < start
    requires Belongs(new0, start, 0, start, read) && Recorded(new0, start, 0, now)
    requires forall i :: 0 <= i < |old0| && old0[i].errored && old0[i].depth == 0 ==> old0[i].tool in failed
    ensures var runs := old0 + new0;
            && (forall i :: 0 <= i < |runs| ==> runs[i].agent < read)
            && (forall i :: 0 <= i < |runs| && runs[i].errored && runs[i].depth == 0 ==> runs[i].tool in now)
  {
  }

  lemma OtherNodesKeepTools(w: World, s: AgentState)
    requires ToolsOk(s)
    ensures ToolsOk(Plan(w, s)) && ToolsOk(Select(s))
  {
    hide ToolsOk;
    PlanHistory(w, s);
    SameTools(s, Plan(w, s));
    SelectHistory(s);
    SameTools(s, Select(s));
  }

  ghost predicate SameHistory(s: AgentState, s': AgentState) {
    s'.toolRuns == s.toolRuns && s'.turnsRead == s.turnsRead && s'.failedTools == s.failedTools
  }

  lemma SameTools(s: AgentState, s': AgentState)
    requires ToolsOk(s) && SameHistory(s, s')
    ensures ToolsOk(s')
  {
    hide NoRepeat;
  }

  lemma PlanHistory(w: World, s: AgentState)
    ensures SameHistory(s, Plan(w, s))
  {
    hide StepIds, Nonblank, AdoptPlan, StepReplanStart, ModeOf;
    var asked := s.(plansRead := s.plansRead + 1);
    var reply := w.plans(s.plansRead);
    if reply.Planned? && reply.steps != [] {
      if ModeOf(s).StepReplan? && StepReplanStart(s).Some? {
        AdoptHistory(asked, ModeOf(s), StepReplanStart(s).value, reply.steps);
      }
      AdoptHistory(asked, ModeOf(s), 0, reply.steps);
    }
  }

  lemma AdoptHistory(s: AgentState, mode: PlannerMode, start: nat, steps: seq<RawStep>)
    requires start <= |PlanOf(s)| && steps != []
    ensures SameHistory(s, AdoptPlan(s, mode, start, steps))
  {
    hide StepIds, RestorePlan;
  }

  lemma SelectHistory(s: AgentState)
    ensures SameHistory(s, Select(s))
  {
    hide PlanOf, FirstPending;
  }

  lemma {:induction false} ToolsAlong(w: World, s: AgentState, n: nat)
    requires ToolsOk(s)
    ensures match After(RealNodes(w), s, n)
            case Some(s') => ToolsOk(s') && NoRepeat(React(w, Select(s')).toolRuns)
            case None => true
    decreases n
  {
    hide ToolsOk, Plan, Select, React, StartedEvents, FinishedEvents, NoRepeat;
    OtherNodesKeepTools(w, s);
    ReactTools(w, Select(s));
    if n > 0 {
      var turn := Iterate(RealNodes(w), s);
      if turn.Executed? {
        ToolsAlong(w, turn.state, n - 1);
      }
    }
  }

  /** In every run, at every iteration reached, and in the iteration that ends it: a tool that
      returned an error to the agent is never executed again at either depth, and one that failed
      inside a subagent is never executed again by that subagent. */
  lemma NoFailedToolAgain(w: World, question: string, n: nat)
    ensures match After(RealNodes(w), InitialState(question), n)
            case Some(s) => NoRepeat(s.toolRuns) && NoRepeat(React(w, Select(s)).toolRuns)
            case None => true
  {
    hide NoRepeat, After, Iterate, React, Select;
    InitialTools(question);
    ToolsAlong(w, InitialState(question), n);
  }

  lemma InitialTools(question: string)
    ensures ToolsOk(InitialState(question))
  {
  }
}
