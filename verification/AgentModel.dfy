/** The agent's state, and one step of a plan: the bounded loop of model decisions and tool calls. */
module AgentModel {
  import opened Common
  import opened Text

  const MAX_PLAN_STEPS := 8
  const MAX_REPLAN_COUNT := 1
  const MAX_STEP_REPLAN_COUNT := 1
  const MAX_REACT_TURNS := 7
  const FINDING_MISSING_THRESHOLD := 3

  datatype StepStatus = Pending | Running | Done | Abandoned

  datatype PlanStep = PlanStep(
    stepId: string, task: string, status: StepStatus, result: Option<string>, retryCount: int)

  datatype StepResult = StepResult(stepId: string, task: string, result: string)

  /** The reasons for which the loop over a step fails; each stands for one error message. */
  datatype LoopError =
    | StepIndexRequired | StepIndexOutOfRange | StepIdRequired | CursorMismatch
    | BadReply(message: string)
    | EmptyThought | BadNoFinding | EmptyToolName | UnknownTool(tool: string) | UnexpectedToolName
    | EmptyAnswer | DecisionIsFail
    | ReplansUsedUp | StepReplansUsedUp | OverthinkTwice
    | SignalNeedsToolError | SignalNotImplemented
    | ToolRaised(message: string) | SubagentTooDeep
    | SubagentFailed(error: LoopError) | NoSubagentResult
    | TooManyTurns

  datatype SubagentOutcome = SubagentDone(result: string) | SubagentError(error: LoopError)

  datatype SubagentResult = SubagentResult(stepId: string, task: string, outcome: SubagentOutcome)

  datatype Signal = Overthink | ToolError | Overturning | FindingMissing

  datatype PlannerMode = Initial | Replan | StepReplan

  datatype Phase = Planning | SelectingStep | Reacting | Replanning | FailedPhase

  // ----- what the model and the tools answer: arbitrary inputs -----

  datatype DecideType = Think | ToolCall | Finish | Fail

  datatype Decision = Decision(
    thought: string, decideType: DecideType, signal: Option<Signal>, noFinding: int,
    toolName: Option<string>, answer: string)

  /** A model reply, parsed as far as its JSON types go. */
  datatype Reply = Garbled(message: string) | Parsed(decision: Decision)

  /** What a tool call gives back if it is made on this turn. */
  datatype Observation =
    | Raised(message: string)
    | Observed(error: Option<string>, recoverable: bool)

  datatype Turn = Turn(reply: Reply, observation: Observation)

  // ----- memory of one run -----

  datatype Memory = Memory(
    stepResults: seq<StepResult>,
    overthinkCounts: map<string, nat>,
    noFindingCounts: map<string, nat>,
    failedTools: seq<string>,
    subagentResults: seq<SubagentResult>,
    depth: nat)

  function CountOf(counts: map<string, nat>, stepId: string): nat {
    if stepId in counts then counts[stepId] else 0
  }

  function WithFailedTool(mem: Memory, tool: string): Memory {
    if tool in mem.failedTools then mem else mem.(failedTools := mem.failedTools + [tool])
  }

  /** The step at hand and the replans spent so far. */
  datatype Context = Context(stepId: string, task: string, replanCount: nat, stepReplanCount: nat)

  /** How the loop over one step ends. A failure keeps the loop's memory or drops it, depending on
      whether it is reported with or without the memory applied to the state. */
  datatype Ending =
    | Failed(keepsMemory: bool, error: LoopError)
    | Finished(answer: string)
    | FinishedBySubagent(answer: string)
    | WantsReplan
    | WantsStepReplan

  /** History: one executed tool call. `agent` is the position in the input at which the executing
      loop started, `depth` is 0 for the agent itself and 1 for a subagent. */
  datatype ToolRun = ToolRun(agent: nat, depth: nat, tool: string, errored: bool)

  datatype LoopEnd = LoopEnd(ending: Ending, mem: Memory, read: nat, runs: seq<ToolRun>)

  // ----- one turn -----

  function Nonblank(text: string): bool {
    Strip(text) != ""
  }

  datatype Checked = Good(decision: Decision) | Bad(error: LoopError)

  /** The checks on a model reply. A tool that failed before counts as unknown. */
  function Decide(reply: Reply, registry: set<string>, failedTools: seq<string>): (r: Checked)
    ensures r.Good? ==> reply == Parsed(r.decision) && (r.decision.decideType.ToolCall? <==> r.decision.toolName.Some?)
    ensures r.Good? && r.decision.decideType.ToolCall? ==>
              r.decision.toolName.value in registry && r.decision.toolName.value !in failedTools
  {
    match reply
    case Garbled(message) => Bad(BadReply(message))
    case Parsed(d) =>
      if !Nonblank(d.thought) then Bad(EmptyThought)
      else if d.noFinding != 0 && d.noFinding != 1 then Bad(BadNoFinding)
      else if d.decideType.ToolCall? then
        if d.toolName.None? || !Nonblank(d.toolName.value) then Bad(EmptyToolName)
        else if d.toolName.value !in registry || d.toolName.value in failedTools then Bad(UnknownTool(d.toolName.value))
        else Good(d)
      else if d.toolName.Some? then Bad(UnexpectedToolName)
      else Good(d)
  }

  /** Restarts of the loop still allowed for a step. */
  function Allowance(mem: Memory, stepId: string): nat {
    if CountOf(mem.overthinkCounts, stepId) == 0 then 1 else 0
  }

  datatype Next =
    | End(ending: Ending, mem: Memory)
    | Again(mem: Memory, think: nat)
    | Fresh(mem: Memory)
    | CallTool(mem: Memory)

  /** The first overthink of a step restarts the loop, the second ends it. */
  function HandleOverthink(ctx: Context, mem: Memory): (r: Next)
    ensures r.mem.depth == mem.depth && (r.End? || r.Fresh?)
    ensures r.Fresh? ==> Allowance(r.mem, ctx.stepId) < Allowance(mem, ctx.stepId)
  {
    var count := CountOf(mem.overthinkCounts, ctx.stepId) + 1;
    var counted := mem.(overthinkCounts := mem.overthinkCounts[ctx.stepId := count]);
    if count > 1 then End(Failed(true, OverthinkTwice), counted)
    else Fresh(counted)
  }

  function Judge(ctx: Context, mem: Memory, think: nat, d: Decision): (r: Next)
    ensures r.mem.depth == mem.depth
    ensures r.Again? || r.CallTool? ==> r.mem.overthinkCounts == mem.overthinkCounts
    ensures r.Fresh? ==> Allowance(r.mem, ctx.stepId) < Allowance(mem, ctx.stepId)
    ensures r.CallTool? ==> d.decideType.ToolCall?
  {
    if d.signal == Some(Overturning) then
      if ctx.replanCount >= MAX_REPLAN_COUNT then
        End(Failed(true, ReplansUsedUp), mem)
      else End(WantsReplan, mem)
    else if d.signal == Some(Overthink) then HandleOverthink(ctx, mem)
    else if d.signal == Some(ToolError) then
      End(Failed(false, SignalNeedsToolError), mem)
    else if d.signal.Some? then End(Failed(false, SignalNotImplemented), mem)
    else
      var count := if d.noFinding == 0 then 0 else CountOf(mem.noFindingCounts, ctx.stepId) + 1;
      var counted := mem.(noFindingCounts := mem.noFindingCounts[ctx.stepId := count]);
      if count >= FINDING_MISSING_THRESHOLD then
        if ctx.stepReplanCount >= MAX_STEP_REPLAN_COUNT then
          End(Failed(true, StepReplansUsedUp), counted)
        else End(WantsStepReplan, counted)
      else
        match d.decideType
        case Think => if think + 1 >= 3 then HandleOverthink(ctx, counted) else Again(counted, think + 1)
        case ToolCall => CallTool(counted)
        case Finish =>
          if !Nonblank(d.answer) then End(Failed(false, EmptyAnswer), counted)
          else
            var result := StepResult(ctx.stepId, ctx.task, d.answer);
            End(Finished(d.answer), counted.(stepResults := counted.stepResults + [result]))
        case Fail => End(Failed(false, DecisionIsFail), counted)
  }

  datatype AfterCall = CallEnds(ending: Ending, mem: Memory) | GoesOn(mem: Memory) | Delegates(mem: Memory)

  /** The tool's observation: no error, an error that only bars the tool, or one that is handed to
      a subagent. An error text that is blank counts as none. */
  function AfterTool(mem: Memory, tool: string, observation: Observation): (r: AfterCall)
    ensures r.mem.depth == mem.depth && r.mem.overthinkCounts == mem.overthinkCounts
    ensures r.Delegates? ==> mem.depth == 0
  {
    match observation
    case Raised(message) => CallEnds(Failed(false, ToolRaised(message)), mem)
    case Observed(error, recoverable) =>
      if error.None? || !Nonblank(error.value) then GoesOn(mem)
      else
        var barred := WithFailedTool(mem, tool);
        if !recoverable then GoesOn(barred)
        else if mem.depth >= 1 then
          CallEnds(Failed(true, SubagentTooDeep), barred)
        else Delegates(barred)
  }

  predicate Errs(observation: Observation) {
    observation.Observed? && observation.error.Some? && Nonblank(observation.error.value)
  }

  // ----- subagents -----

  /** A subagent works on the same step with copies of its parent's counters and results. */
  function SubagentMemory(mem: Memory): Memory {
    mem.(subagentResults := [], depth := 1)
  }

  function SubagentContext(ctx: Context): Context {
    ctx.(replanCount := 0, stepReplanCount := 0)
  }

  /** The latest usable result recorded under the step's id. */
  function SubagentAnswer(results: seq<StepResult>, stepId: string): Option<string> {
    if results == [] then None
    else
      var last := results[|results| - 1];
      if last.stepId == stepId && Nonblank(last.result) then Some(last.result)
      else SubagentAnswer(results[..|results| - 1], stepId)
  }

  /** What the parent makes of its subagent's end. Of the subagent's memory only its step results
      are looked at. */
  function Conclude(ctx: Context, mem: Memory, sub: LoopEnd): (r: (Ending, Memory)) {
    ConcludeFrom(ctx, mem, sub.ending, sub.mem.stepResults)
  }

  function ConcludeFrom(ctx: Context, mem: Memory, ending: Ending, results: seq<StepResult>): (r: (Ending, Memory)) {
    if ending.Failed? then
      (Failed(true, SubagentFailed(ending.error)),
       mem.(subagentResults := mem.subagentResults
                               + [SubagentResult(ctx.stepId, ctx.task, SubagentError(ending.error))]))
    else
      match SubagentAnswer(results, ctx.stepId)
      case None => (Failed(false, NoSubagentResult), mem)
      case Some(answer) =>
        (FinishedBySubagent(answer),
         mem.(subagentResults := mem.subagentResults + [SubagentResult(ctx.stepId, ctx.task, SubagentDone(answer))],
              stepResults := mem.stepResults + [StepResult(ctx.stepId, ctx.task, answer)]))
  }

  // ----- the loop -----

  function SubagentLevels(mem: Memory): nat {
    if mem.depth == 0 then 1 else 0
  }

  datatype Inputs = Inputs(turns: nat -> Turn, registry: set<string>)

  /** What one turn comes to; `runs` holds the tool call if one was made. */
  datatype TurnResult =
    | Stops(ending: Ending, mem: Memory, runs: seq<ToolRun>)
    | Continues(mem: Memory, think: nat, runs: seq<ToolRun>)
    | Restarts(mem: Memory)
    | HandsOver(mem: Memory, runs: seq<ToolRun>)

  function PlayTurn(env: Inputs, ctx: Context, agent: nat, mem: Memory, think: nat, pos: nat): (r: TurnResult)
    ensures r.mem.depth == mem.depth
    ensures !r.Stops? && !r.Restarts? ==> Allowance(r.mem, ctx.stepId) == Allowance(mem, ctx.stepId)
    ensures r.Restarts? ==> Allowance(r.mem, ctx.stepId) < Allowance(mem, ctx.stepId)
    ensures r.HandsOver? ==> mem.depth == 0
  {
    match Decide(env.turns(pos).reply, env.registry, mem.failedTools)
    case Bad(error) => Stops(Failed(false, error), mem, [])
    case Good(d) =>
      match Judge(ctx, mem, think, d)
      case End(ending, m) => Stops(ending, m, [])
      case Again(m, t) => Continues(m, t, [])
      case Fresh(m) => Restarts(m)
      case CallTool(m) =>
        var tool := d.toolName.value;
        var observation := env.turns(pos).observation;
        var run := ToolRun(agent, mem.depth, tool, Errs(observation));
        match AfterTool(m, tool, observation)
        case CallEnds(ending, m') => Stops(ending, m', [run])
        case GoesOn(m') => Continues(m', 0, [run])
        case Delegates(m') => HandsOver(m', [run])
  }

  /** The loop over one step from a given turn on; `pos` is the number of turns read before. */
  function Loop(env: Inputs, ctx: Context, agent: nat, mem: Memory, think: nat, turn: nat, pos: nat): LoopEnd
    requires turn <= MAX_REACT_TURNS
    decreases SubagentLevels(mem), Allowance(mem, ctx.stepId), MAX_REACT_TURNS - turn
  {
    if turn >= MAX_REACT_TURNS then
      LoopEnd(Failed(false, TooManyTurns), mem, pos, [])
    else
      match PlayTurn(env, ctx, agent, mem, think, pos)
      case Stops(ending, m, runs) => LoopEnd(ending, m, pos + 1, runs)
      case Continues(m, t, runs) =>
        var rest := Loop(env, ctx, agent, m, t, turn + 1, pos + 1);
        rest.(runs := runs + rest.runs)
      case Restarts(m) => Loop(env, ctx, agent, m, 0, 0, pos + 1)
      case HandsOver(m, runs) =>
        var sub := Loop(env, SubagentContext(ctx), pos + 1, SubagentMemory(m), 0, 0, pos + 1);
        var (ending, m') := Conclude(ctx, m, sub);
        LoopEnd(ending, m', sub.read, runs + sub.runs)
  }
}
