/** The three nodes of a run as functions of the agent state, and the invariant of whole runs. */
module AgentNodes {
  import opened Common
  import opened AgentModel
  import opened RunMemory

  // ----- state -----

  datatype NodeName = PlannerNode | SelectNode | LoopNode

  datatype LogMessage =
    | PlanCreated | PlanReplanned | PlannerFails
    | NoPendingStep | PendingSelected
    | StepCompleted | StepCompletedBySubagent | ReplanRequested | StepReplanRequested | LoopFails

  datatype LogItem = LogItem(node: NodeName, message: LogMessage)

  datatype PlannerError =
    | EmptyQuestion | WrongReplanSignal | BadPlannerReply(message: string)
    | EmptySteps | TooManySteps | NoCurrentStep

  datatype RunError = PlannerFailed(plannerError: PlannerError) | LoopFailed(loopError: LoopError)

  datatype PlanUpdate = PlanUpdate(revision: nat, changedSteps: seq<string>)

  datatype AgentState = AgentState(
    question: string,
    plan: Option<seq<PlanStep>>,          // `None`: no "plan" in the state yet
    planRevision: nat,
    planUpdates: seq<PlanUpdate>,
    plannerMode: Option<PlannerMode>,
    replanSignal: Option<Signal>,
    currentStepIndex: Option<int>,
    currentStepId: Option<string>,
    stepResults: seq<StepResult>,
    failedTools: seq<string>,
    overthinkCounts: map<string, nat>,
    noFindingCounts: map<string, nat>,
    subagentResults: seq<SubagentResult>,
    finishes: bool,                       // should_continue_next == "finish"
    replanCount: nat,
    stepReplanCount: nat,
    failed: bool,
    error: Option<RunError>,
    phase: Option<Phase>,
    logs: seq<LogItem>,
    turnsRead: nat,                       // history: model decisions read so far
    plansRead: nat,                       // history: planner passes made so far
    toolRuns: seq<ToolRun>)               // history: executed tool calls

  function InitialState(question: string): AgentState {
    AgentState(question, None, 0, [], None, None, None, None, [], [], map[], map[], [],
               false, 0, 0, false, None, None, [], 0, 0, [])
  }

  // ----- inputs of a run -----

  datatype RawStep = RawStep(stepId: string, task: string)

  datatype PlannerReply = NoPlan(message: string) | Planned(steps: seq<RawStep>)

  datatype World = World(
    inputs: Inputs,
    plans: nat -> PlannerReply,
    answers: AgentState -> Result<string>)

  // ----- planner -----

  function Decimal(n: nat): string {
    if n < 10 then [(n + 48) as char] else Decimal(n / 10) + [(n % 10 + 48) as char]
  }

  function StepName(index: nat): string {
    "step_" + Decimal(index)
  }

  /** A planned step enters the plan pending; in a step replan its id is made up anew. */
  function Restore(step: RawStep, index: nat, force: bool): PlanStep {
    PlanStep(if force || step.stepId == "" then StepName(index) else step.stepId, step.task, Pending, None, 0)
  }

  function RestorePlan(steps: seq<RawStep>, startIndex: nat, force: bool): (r: seq<PlanStep>)
    ensures |r| == |steps|
    ensures forall i :: 0 <= i < |r| ==> r[i] == Restore(steps[i], startIndex + i, force)
  {
    if steps == [] then [] else [Restore(steps[0], startIndex, force)] + RestorePlan(steps[1..], startIndex + 1, force)
  }

  method RestorePlanContent(steps: seq<RawStep>, startIndex: nat, force: bool) returns (restored: seq<PlanStep>)
    ensures restored == RestorePlan(steps, startIndex, force)
  {
    hide Restore;
    restored := [];
    for i := 0 to |steps|
      invariant |restored| == i
      invariant forall k :: 0 <= k < i ==> restored[k] == Restore(steps[k], startIndex + k, force)
    {
      restored := restored + [Restore(steps[i], startIndex + i, force)];
    }
  }

  function ModeOf(s: AgentState): PlannerMode {
    match s.plannerMode
    case None => if s.planRevision > 0 then Replan else Initial
    case Some(mode) => mode
  }

  function PlanOf(s: AgentState): seq<PlanStep> {
    if s.plan.Some? then s.plan.value else []
  }

  /** Index of the first step with the given id, or the length of the plan. */
  function IndexOfId(plan: seq<PlanStep>, stepId: string): (i: nat)
    ensures i <= |plan| && (i < |plan| ==> plan[i].stepId == stepId)
  {
    if plan == [] || plan[0].stepId == stepId then 0 else 1 + IndexOfId(plan[1..], stepId)
  }

  function StepReplanStart(s: AgentState): (r: Option<nat>)
    ensures r.Some? ==> r.value < |PlanOf(s)|
  {
    var plan := PlanOf(s);
    if s.currentStepIndex.Some? && 0 <= s.currentStepIndex.value < |plan| then Some(s.currentStepIndex.value)
    else if s.currentStepId.Some? && s.currentStepId.value != "" && IndexOfId(plan, s.currentStepId.value) < |plan| then
      Some(IndexOfId(plan, s.currentStepId.value))
    else None
  }

  function Logged(s: AgentState, node: NodeName, message: LogMessage): AgentState {
    s.(logs := s.logs + [LogItem(node, message)])
  }

  function PlannerFailure(s: AgentState, error: PlannerError): AgentState {
    Logged(s.(failed := true, error := Some(PlannerFailed(error)), phase := Some(FailedPhase)),
           PlannerNode, PlannerFails)
  }

  function StepIds(plan: seq<PlanStep>): seq<string> {
    seq(|plan|, i requires 0 <= i < |plan| => plan[i].stepId)
  }

  /** The new plan for the given mode: a step replan keeps everything before the current step. */
  function PlanForMode(s: AgentState, mode: PlannerMode, start: nat, steps: seq<RawStep>): seq<PlanStep>
    requires start <= |PlanOf(s)|
  {
    if mode.StepReplan? then PlanOf(s)[..start] + RestorePlan(steps, start + 1, true)
    else RestorePlan(steps, 1, false)
  }

  function AdoptPlan(s: AgentState, mode: PlannerMode, start: nat, steps: seq<RawStep>): AgentState
    requires start <= |PlanOf(s)| && steps != []
  {
    var plan := PlanForMode(s, mode, start, steps);
    var isReplan := !mode.Initial? || s.planRevision > 0;
    var revision := if isReplan then s.planRevision + 1 else 1;
    var changed := StepIds(if mode.StepReplan? then plan[start..] else plan);
    var adopted := s.(
      plan := Some(plan), planRevision := revision,
      planUpdates := if isReplan then s.planUpdates + [PlanUpdate(revision, changed)] else s.planUpdates,
      plannerMode := Some(Initial), phase := Some(if isReplan then Replanning else Planning), failed := false);
    var logged := Logged(adopted, PlannerNode, if isReplan then PlanReplanned else PlanCreated);
    match mode
    case Initial => logged
    case Replan => logged.(currentStepIndex := Some(0), currentStepId := Some(plan[0].stepId), noFindingCounts := map[])
    case StepReplan =>
      logged.(currentStepIndex := Some(start), currentStepId := Some(plan[start].stepId), noFindingCounts := map[])
  }

  /** planner_node. */
  function Plan(w: World, s: AgentState): AgentState {
    var mode := ModeOf(s);
    if !Nonblank(s.question) then PlannerFailure(s, EmptyQuestion)
    else if (mode.Replan? && s.replanSignal != Some(Overturning))
            || (mode.StepReplan? && s.replanSignal != Some(FindingMissing)) then
      PlannerFailure(s, WrongReplanSignal)
    else
      var asked := s.(plansRead := s.plansRead + 1);
      match w.plans(s.plansRead)
      case NoPlan(message) => PlannerFailure(asked, BadPlannerReply(message))
      case Planned(steps) =>
        if steps == [] then PlannerFailure(asked, EmptySteps)
        else if |steps| > MAX_PLAN_STEPS then PlannerFailure(asked, TooManySteps)
        else if mode.StepReplan? then
          match StepReplanStart(s)
          case None => PlannerFailure(asked, NoCurrentStep)
          case Some(start) => AdoptPlan(asked, mode, start, steps)
        else AdoptPlan(asked, mode, 0, steps)
  }

  // ----- selector -----

  /** Number of steps before the first pending one. */
  function FirstPending(plan: seq<PlanStep>): (i: nat)
    ensures i <= |plan| && (i < |plan| ==> plan[i].status.Pending?)
    ensures forall k :: 0 <= k < i ==> !plan[k].status.Pending?
  {
    if plan == [] || plan[0].status.Pending? then 0 else 1 + FirstPending(plan[1..])
  }

  /** select_next_step_node. */
  function Select(s: AgentState): AgentState {
    var plan := PlanOf(s);
    var index := FirstPending(plan);
    var chosen := s.(currentStepIndex := Some(index), finishes := index == |plan|,
                     currentStepId := if index < |plan| then Some(plan[index].stepId) else None,
                     phase := Some(SelectingStep), failed := false);
    Logged(chosen, SelectNode, if index < |plan| then PendingSelected else NoPendingStep)
  }

  // ----- the loop over the current step as a node -----

  function MemoryOf(s: AgentState): Memory {
    Memory(s.stepResults, s.overthinkCounts, s.noFindingCounts, s.failedTools, s.subagentResults, 0)
  }

  function LoopFailure(s: AgentState, error: LoopError): AgentState {
    Logged(s.(failed := true, error := Some(LoopFailed(error)), phase := Some(FailedPhase)), LoopNode, LoopFails)
  }

  /** A failure reported with the loop's memory carries its counters, but not its step results. */
  function WithCounters(s: AgentState, mem: Memory): AgentState {
    s.(failedTools := mem.failedTools, overthinkCounts := mem.overthinkCounts,
       noFindingCounts := mem.noFindingCounts, subagentResults := mem.subagentResults)
  }

  function WithMemory(s: AgentState, mem: Memory): AgentState {
    WithCounters(s, mem).(stepResults := mem.stepResults)
  }

  function CurrentStepError(s: AgentState): Option<LoopError> {
    var plan := PlanOf(s);
    if s.currentStepIndex.None? then Some(StepIndexRequired)
    else if !(0 <= s.currentStepIndex.value < |plan|) then Some(StepIndexOutOfRange)
    else if s.currentStepId.None? || s.currentStepId.value == "" then Some(StepIdRequired)
    else if plan[s.currentStepIndex.value].stepId != s.currentStepId.value then Some(CursorMismatch)
    else None
  }

  function MarkDone(step: PlanStep, result: string): PlanStep {
    step.(status := Done, result := Some(result))
  }

  function ContextOf(s: AgentState, step: PlanStep): Context {
    Context(step.stepId, step.task, s.replanCount, s.stepReplanCount)
  }

  /** The update of the state for one way in which the loop ended. */
  function ApplyEnding(s: AgentState, index: nat, ending: Ending, mem: Memory): AgentState
    requires index < |PlanOf(s)|
  {
    match ending
    case Failed(keeps, error) => LoopFailure(if keeps then WithCounters(s, mem) else s, error)
    case Finished(answer) =>
      Logged(WithMemory(s, mem).(plan := Some(PlanOf(s)[index := MarkDone(PlanOf(s)[index], answer)]),
                                 phase := Some(Reacting), failed := false), LoopNode, StepCompleted)
    case FinishedBySubagent(answer) =>
      Logged(WithMemory(s, mem).(plan := Some(PlanOf(s)[index := MarkDone(PlanOf(s)[index], answer)]),
                                 phase := Some(Reacting), failed := false), LoopNode, StepCompletedBySubagent)
    case WantsReplan =>
      Logged(WithMemory(s, mem).(plannerMode := Some(Replan), replanCount := s.replanCount + 1,
                                 replanSignal := Some(Overturning), phase := Some(Replanning), failed := false),
             LoopNode, ReplanRequested)
    case WantsStepReplan =>
      Logged(WithMemory(s, mem).(plannerMode := Some(StepReplan), stepReplanCount := s.stepReplanCount + 1,
                                 replanSignal := Some(FindingMissing), phase := Some(Replanning), failed := false),
             LoopNode, StepReplanRequested)
  }

  function LoopOf(w: World, s: AgentState, step: PlanStep): LoopEnd {
    Loop(w.inputs, ContextOf(s, step), s.turnsRead, MemoryOf(s), 0, 0, s.turnsRead)
  }

  /** agent_loop_node at the top level. */
  function React(w: World, s: AgentState): AgentState {
    match CurrentStepError(s)
    case Some(error) => LoopFailure(s, error)
    case None =>
      var index: nat := s.currentStepIndex.value;
      var end := LoopOf(w, s, PlanOf(s)[index]);
      ApplyEnding(s, index, end.ending, end.mem).(turnsRead := end.read, toolRuns := s.toolRuns + end.runs)
  }

  /** The same node over a mutable run memory. */
  method AgentLoopNode(w: World, s: AgentState) returns (s': AgentState)
    ensures s' == React(w, s)
  {
    hide Loop, ApplyEnding;
    var error := CurrentStepError(s);
    if error.Some? {
      return LoopFailure(s, error.value);
    }
    var index: nat := s.currentStepIndex.value;
    var memory := new OneRunMemory(MemoryOf(s));
    var ending, read, runs := RunLoop(w.inputs, ContextOf(s, PlanOf(s)[index]), s.turnsRead, memory, s.turnsRead);
    s' := ApplyEnding(s, index, ending, memory.View()).(turnsRead := read, toolRuns := s.toolRuns + runs);
  }
}
