/** The loop as the code runs it: the counters live in a mutable object. */
module RunMemory {
  import opened Common
  import opened AgentModel

  class OneRunMemory {
    var stepResults: seq<StepResult>
    var overthinkCounts: map<string, nat>
    var noFindingCounts: map<string, nat>
    var failedTools: seq<string>
    var subagentResults: seq<SubagentResult>
    const depth: nat

    function View(): Memory
      reads this
    {
      Memory(stepResults, overthinkCounts, noFindingCounts, failedTools, subagentResults, depth)
    }

    /** A fresh object with copies of everything in `mem`. */
    constructor (mem: Memory)
      ensures View() == mem
    {
      stepResults, overthinkCounts, noFindingCounts := mem.stepResults, mem.overthinkCounts, mem.noFindingCounts;
      failedTools, subagentResults, depth := mem.failedTools, mem.subagentResults, mem.depth;
    }

    /** True if the count has reached the threshold. */
    method UpdateNoFinding(stepId: string, noFinding: int) returns (missing: bool)
      modifies this
      ensures var count := if noFinding == 0 then 0 else CountOf(old(noFindingCounts), stepId) + 1;
              && View() == old(View()).(noFindingCounts := old(noFindingCounts)[stepId := count])
              && missing == (count >= FINDING_MISSING_THRESHOLD)
    {
      if noFinding == 0 {
        noFindingCounts := noFindingCounts[stepId := 0];
        return false;
      }
      var next := CountOf(noFindingCounts, stepId) + 1;
      noFindingCounts := noFindingCounts[stepId := next];
      missing := next >= FINDING_MISSING_THRESHOLD;
    }

    method RecordOverthink(stepId: string) returns (count: nat)
      modifies this
      ensures count == CountOf(old(overthinkCounts), stepId) + 1
      ensures View() == old(View()).(overthinkCounts := old(overthinkCounts)[stepId := count])
    {
      count := CountOf(overthinkCounts, stepId) + 1;
      overthinkCounts := overthinkCounts[stepId := count];
    }

    method RecordFailedTool(tool: string)
      modifies this
      ensures View() == WithFailedTool(old(View()), tool)
    {
      if tool !in failedTools {
        failedTools := failedTools + [tool];
      }
    }

    method AppendStepResult(stepId: string, task: string, result: string)
      modifies this
      ensures View() == old(View()).(stepResults := old(stepResults) + [StepResult(stepId, task, result)])
    {
      stepResults := stepResults + [StepResult(stepId, task, result)];
    }

    method AppendSubagentResult(stepId: string, task: string, outcome: SubagentOutcome)
      modifies this
      ensures View() == old(View()).(subagentResults := old(subagentResults) + [SubagentResult(stepId, task, outcome)])
    {
      subagentResults := subagentResults + [SubagentResult(stepId, task, outcome)];
    }
  }

  /** What a turn asks the loop to do next. */
  datatype Verdict = Stop(ending: Ending) | GoOn(think: nat) | StartOver | AskSubagent

  /** The verdict and the memory together are what the specification of a turn says. */
  ghost predicate IsTurn(r: TurnResult, verdict: Verdict, mem: Memory, runs: seq<ToolRun>) {
    match verdict
    case Stop(ending) => r == Stops(ending, mem, runs)
    case GoOn(think) => r == Continues(mem, think, runs)
    case StartOver => r == Restarts(mem) && runs == []
    case AskSubagent => r == HandsOver(mem, runs)
  }

  /** An overthink signal, sent by the model or raised by three thoughts in a row. */
  method HandleSignal(ctx: Context, memory: OneRunMemory) returns (verdict: Verdict)
    modifies memory
    ensures HandleOverthink(ctx, old(memory.View())) ==
            if verdict.Stop? then End(verdict.ending, memory.View()) else Fresh(memory.View())
    ensures verdict.Stop? || verdict.StartOver?
  {
    var count := memory.RecordOverthink(ctx.stepId);
    if count > 1 {
      return Stop(Failed(true, OverthinkTwice));
    }
    verdict := StartOver;
  }

  /** The part of a turn after a tool call was decided. */
  method UseTool(memory: OneRunMemory, tool: string, observation: Observation) returns (verdict: Verdict)
    modifies memory
    ensures match AfterTool(old(memory.View()), tool, observation)
            case CallEnds(ending, m) => verdict == Stop(ending) && memory.View() == m
            case GoesOn(m) => verdict == GoOn(0) && memory.View() == m
            case Delegates(m) => verdict == AskSubagent && memory.View() == m
  {
    if observation.Raised? {
      return Stop(Failed(false, ToolRaised(observation.message)));
    }
    if observation.error.None? || !Nonblank(observation.error.value) {
      return GoOn(0);
    }
    memory.RecordFailedTool(tool);
    if !observation.recoverable {
      return GoOn(0);
    }
    if memory.depth >= 1 {
      return Stop(Failed(true, SubagentTooDeep));
    }
    verdict := AskSubagent;
  }

  /** One pass through the body of the loop. */
  method TakeTurn(env: Inputs, ctx: Context, agent: nat, memory: OneRunMemory, think: nat, pos: nat)
    returns (verdict: Verdict, runs: seq<ToolRun>)
    modifies memory
    ensures IsTurn(PlayTurn(env, ctx, agent, old(memory.View()), think, pos), verdict, memory.View(), runs)
  {
    hide Nonblank, Errs;
    runs := [];
    var reply := Decide(env.turns(pos).reply, env.registry, memory.failedTools);
    if reply.Bad? {
      return Stop(Failed(false, reply.error)), runs;
    }
    var d := reply.decision;
    if d.signal == Some(Overturning) {
      return Stop(if ctx.replanCount >= MAX_REPLAN_COUNT then Failed(true, ReplansUsedUp) else WantsReplan), runs;
    }
    if d.signal == Some(Overthink) {
      verdict := HandleSignal(ctx, memory);
      return;
    }
    if d.signal.Some? {
      var error := if d.signal == Some(ToolError) then SignalNeedsToolError else SignalNotImplemented;
      return Stop(Failed(false, error)), runs;
    }
    var missing := memory.UpdateNoFinding(ctx.stepId, d.noFinding);
    if missing {
      if ctx.stepReplanCount >= MAX_STEP_REPLAN_COUNT {
        return Stop(Failed(true, StepReplansUsedUp)), runs;
      }
      return Stop(WantsStepReplan), runs;
    }
    match d.decideType {
      case Think =>
        if think + 1 >= 3 {
          verdict := HandleSignal(ctx, memory);
        } else {
          verdict := GoOn(think + 1);
        }
      case ToolCall =>
        var tool := d.toolName.value;
        var observation := env.turns(pos).observation;
        verdict := UseTool(memory, tool, observation);
        runs := [ToolRun(agent, memory.depth, tool, Errs(observation))];
      case Finish =>
        if !Nonblank(d.answer) {
          return Stop(Failed(false, EmptyAnswer)), runs;
        }
        memory.AppendStepResult(ctx.stepId, ctx.task, d.answer);
        verdict := Stop(Finished(d.answer));
      case Fail =>
        verdict := Stop(Failed(false, DecisionIsFail));
    }
  }

  /** The end of a loop that started with `runs` already made. */
  function Behind(runs: seq<ToolRun>, end: LoopEnd): LoopEnd {
    end.(runs := runs + end.runs)
  }

  /** The whole loop over one step, with its turn counter, its restart and its subagent. */
  method RunLoop(env: Inputs, ctx: Context, agent: nat, memory: OneRunMemory, pos: nat)
    returns (ending: Ending, read: nat, runs: seq<ToolRun>)
    modifies memory
    ensures LoopEnd(ending, memory.View(), read, runs) == Loop(env, ctx, agent, old(memory.View()), 0, 0, pos)
    decreases SubagentLevels(memory.View())
  {
    hide PlayTurn, Conclude, Allowance, CountOf, Behind, Loop;
    var think, turn := 0, 0;
    read, runs := pos, [];
    ghost var start := Loop(env, ctx, agent, memory.View(), 0, 0, pos);
    NothingBehind(start);
    while turn < MAX_REACT_TURNS
      invariant turn <= MAX_REACT_TURNS
      invariant start == Behind(runs, Loop(env, ctx, agent, memory.View(), think, turn, read))
      decreases Allowance(memory.View(), ctx.stepId), MAX_REACT_TURNS - turn
    {
      LoopStep(env, ctx, agent, memory.View(), think, turn, read, runs);
      var verdict, called := TakeTurn(env, ctx, agent, memory, think, read);
      turn, read := turn + 1, read + 1;
      runs := runs + called;
      match verdict {
        case Stop(e) =>
          return e, read, runs;
        case GoOn(t) =>
          think := t;
        case StartOver =>
          think, turn := 0, 0;
        case AskSubagent =>
          var below := new OneRunMemory(SubagentMemory(memory.View()));
          var subEnding, subRead, subRuns := RunLoop(env, SubagentContext(ctx), read, below, read);
          ghost var sub := LoopEnd(subEnding, below.View(), subRead, subRuns);
          ghost var mem := memory.View();
          ending := TakeOver(ctx, memory, subEnding, below.stepResults);
          assert (ending, memory.View()) == Conclude(ctx, mem, sub) by {
            ConcludeMeans(ctx, mem, sub);
          }
          return ending, subRead, runs + subRuns;
      }
    }
    LoopOver(env, ctx, agent, memory.View(), think, read, runs);
    ending := Failed(false, TooManyTurns);
  }

  lemma NothingBehind(end: LoopEnd)
    ensures Behind([], end) == end
  {
    assert [] + end.runs == end.runs;
  }

  lemma LoopOver(env: Inputs, ctx: Context, agent: nat, mem: Memory, think: nat, pos: nat, runs: seq<ToolRun>)
    ensures Behind(runs, Loop(env, ctx, agent, mem, think, MAX_REACT_TURNS, pos))
         == LoopEnd(Failed(false, TooManyTurns), mem, pos, runs)
  {
    assert runs + [] == runs;
  }

  /** What is left of the loop, one turn later. */
  lemma LoopStep(env: Inputs, ctx: Context, agent: nat, mem: Memory, think: nat, turn: nat, pos: nat,
                 runs: seq<ToolRun>)
    requires turn < MAX_REACT_TURNS
    ensures Behind(runs, Loop(env, ctx, agent, mem, think, turn, pos)) ==
            match PlayTurn(env, ctx, agent, mem, think, pos)
            case Stops(ending, m, called) => LoopEnd(ending, m, pos + 1, runs + called)
            case Continues(m, t, called) => Behind(runs + called, Loop(env, ctx, agent, m, t, turn + 1, pos + 1))
            case Restarts(m) => Behind(runs + [], Loop(env, ctx, agent, m, 0, 0, pos + 1))
            case HandsOver(m, called) =>
              var sub := Loop(env, SubagentContext(ctx), pos + 1, SubagentMemory(m), 0, 0, pos + 1);
              LoopEnd(Conclude(ctx, m, sub).0, Conclude(ctx, m, sub).1, sub.read, runs + called + sub.runs)
  {
    hide PlayTurn, Conclude;
    match PlayTurn(env, ctx, agent, mem, think, pos)
    case Stops(_, _, _) =>
    case Continues(m, t, called) =>
      var rest := Loop(env, ctx, agent, m, t, turn + 1, pos + 1).runs;
      assert runs + (called + rest) == runs + called + rest;
    case Restarts(m) =>
      assert runs + [] == runs;
    case HandsOver(m, called) =>
      var sub := Loop(env, SubagentContext(ctx), pos + 1, SubagentMemory(m), 0, 0, pos + 1);
      assert runs + (called + sub.runs) == runs + called + sub.runs;
  }

  lemma ConcludeMeans(ctx: Context, mem: Memory, sub: LoopEnd)
    ensures Conclude(ctx, mem, sub) == ConcludeFrom(ctx, mem, sub.ending, sub.mem.stepResults)
  {
  }

  /** The parent's bookkeeping after a subagent. */
  method TakeOver(ctx: Context, memory: OneRunMemory, ending: Ending, results: seq<StepResult>) returns (mine: Ending)
    modifies memory
    ensures (mine, memory.View()) == ConcludeFrom(ctx, old(memory.View()), ending, results)
  {
    if ending.Failed? {
      memory.AppendSubagentResult(ctx.stepId, ctx.task, SubagentError(ending.error));
      return Failed(true, SubagentFailed(ending.error));
    }
    var answer := SubagentAnswer(results, ctx.stepId);
    if answer.None? {
      return Failed(false, NoSubagentResult);
    }
    memory.AppendSubagentResult(ctx.stepId, ctx.task, SubagentDone(answer.value));
    memory.AppendStepResult(ctx.stepId, ctx.task, answer.value);
    mine := FinishedBySubagent(answer.value);
  }
}
