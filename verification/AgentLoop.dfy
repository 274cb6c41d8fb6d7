/** What the loop over one step guarantees, and the loop itself over a mutable run memory. */
module AgentLoop {
  import opened Common
  import opened Text
  import opened AgentModel

  // ----- how many model decisions a step may take -----

  /** Turns that may still be read: the rest of this pass, one more pass per allowed restart, and one
      pass of a subagent. The restart is shared with the subagent. */
  function TurnsLeft(mem: Memory, stepId: string, turn: nat): int {
    (MAX_REACT_TURNS - turn) + MAX_REACT_TURNS * Allowance(mem, stepId) + MAX_REACT_TURNS * SubagentLevels(mem)
  }

  lemma {:induction false} LoopReads(env: Inputs, ctx: Context, agent: nat, mem: Memory, think: nat,
                                     turn: nat, pos: nat)
    requires turn <= MAX_REACT_TURNS
    ensures var end := Loop(env, ctx, agent, mem, think, turn, pos);
            pos <= end.read <= pos + TurnsLeft(mem, ctx.stepId, turn)
            && (turn < MAX_REACT_TURNS ==> pos < end.read)
    decreases SubagentLevels(mem), Allowance(mem, ctx.stepId), MAX_REACT_TURNS - turn
  {
    hide PlayTurn, Conclude;
    if turn < MAX_REACT_TURNS {
      match PlayTurn(env, ctx, agent, mem, think, pos)
      case Stops(_, _, _) =>
      case Continues(m, t, _) => LoopReads(env, ctx, agent, m, t, turn + 1, pos + 1);
      case Restarts(m) => LoopReads(env, ctx, agent, m, 0, 0, pos + 1);
      case HandsOver(m, _) =>
        LoopReads(env, SubagentContext(ctx), pos + 1, SubagentMemory(m), 0, 0, pos + 1);
    }
  }

  /** Termination in numbers: a top-level call reads at most 7 * (2 + max(0, 1 - c)) model decisions,
      its subagent included, where `c` is the step's overthink count on entry. */
  lemma DecisionBound(env: Inputs, ctx: Context, agent: nat, mem: Memory, pos: nat)
    requires mem.depth == 0
    ensures var c := CountOf(mem.overthinkCounts, ctx.stepId);
            Loop(env, ctx, agent, mem, 0, 0, pos).read - pos <= MAX_REACT_TURNS * (2 + Max(0, 1 - c))
  {
    LoopReads(env, ctx, agent, mem, 0, 0, pos);
  }

  // ----- what the memory holds in the end -----

  lemma {:induction false} AnswerFromResults(results: seq<StepResult>, stepId: string)
    ensures var answer := SubagentAnswer(results, stepId);
            && (answer.Some? ==> Nonblank(answer.value)
                                 && exists i :: 0 <= i < |results| && results[i].stepId == stepId
                                                && results[i].result == answer.value)
            && (answer.None? <==> forall i :: 0 <= i < |results| ==>
                                    results[i].stepId != stepId || !Nonblank(results[i].result))
  {
    hide Nonblank;
    if results != [] {
      AnswerFromResults(results[..|results| - 1], stepId);
    }
  }

  lemma JudgeKeeps(ctx: Context, mem: Memory, think: nat, d: Decision)
    ensures var r := Judge(ctx, mem, think, d);
            && r.mem.failedTools == mem.failedTools
            && (r.End? && r.ending.Finished? ==>
                  Nonblank(r.ending.answer)
                  && r.mem.stepResults == mem.stepResults + [StepResult(ctx.stepId, ctx.task, r.ending.answer)])
            && (!(r.End? && r.ending.Finished?) ==> r.mem.stepResults == mem.stepResults)
            && (r.End? ==> && !r.ending.FinishedBySubagent?
                           && (r.ending.WantsReplan? ==> ctx.replanCount < MAX_REPLAN_COUNT)
                           && (r.ending.WantsStepReplan? ==> ctx.stepReplanCount < MAX_STEP_REPLAN_COUNT))
  {
    hide Nonblank;
  }

  lemma AfterToolKeeps(mem: Memory, tool: string, observation: Observation)
    ensures var r := AfterTool(mem, tool, observation);
            && mem.failedTools <= r.mem.failedTools && r.mem.stepResults == mem.stepResults
            && (r.CallEnds? ==> r.ending.Failed?)
            && (Errs(observation) ==> tool in r.mem.failedTools)
  {
    hide Nonblank;
  }

  /** One turn: the memory only grows, and only an ending with an answer adds a step result. */
  lemma TurnKeeps(env: Inputs, ctx: Context, agent: nat, mem: Memory, think: nat, pos: nat)
    ensures var r := PlayTurn(env, ctx, agent, mem, think, pos);
            && mem.failedTools <= r.mem.failedTools
            && match r
               case Stops(Finished(answer), m, _) =>
                 Nonblank(answer) && m.stepResults == mem.stepResults + [StepResult(ctx.stepId, ctx.task, answer)]
               case Stops(ending, m, _) =>
                 && !ending.FinishedBySubagent? && m.stepResults == mem.stepResults
                 && (ending.WantsReplan? ==> ctx.replanCount < MAX_REPLAN_COUNT)
                 && (ending.WantsStepReplan? ==> ctx.stepReplanCount < MAX_STEP_REPLAN_COUNT)
               case _ => r.mem.stepResults == mem.stepResults
  {
    hide Nonblank, Judge, AfterTool, Decide, Errs;
    var reply := Decide(env.turns(pos).reply, env.registry, mem.failedTools);
    if reply.Good? {
      JudgeKeeps(ctx, mem, think, reply.decision);
      var next := Judge(ctx, mem, think, reply.decision);
      if next.CallTool? {
        AfterToolKeeps(next.mem, reply.decision.toolName.value, env.turns(pos).observation);
      }
    }
  }

  /** The loop ends with a usable answer, recorded exactly once for this step, or records nothing;
      it asks for a replan only while one is left; and a failed tool stays failed. */
  lemma {:induction false} LoopKeeps(env: Inputs, ctx: Context, agent: nat, mem: Memory, think: nat,
                                     turn: nat, pos: nat)
    requires turn <= MAX_REACT_TURNS
    ensures var end := Loop(env, ctx, agent, mem, think, turn, pos);
            && mem.failedTools <= end.mem.failedTools && end.mem.depth == mem.depth
            && (end.ending.FinishedBySubagent? ==> mem.depth == 0)
            && (end.ending.WantsReplan? ==> ctx.replanCount < MAX_REPLAN_COUNT)
            && (end.ending.WantsStepReplan? ==> ctx.stepReplanCount < MAX_STEP_REPLAN_COUNT)
            && if end.ending.Finished? || end.ending.FinishedBySubagent? then
                 && Nonblank(end.ending.answer)
                 && end.mem.stepResults == mem.stepResults + [StepResult(ctx.stepId, ctx.task, end.ending.answer)]
               else end.mem.stepResults == mem.stepResults
    decreases SubagentLevels(mem), Allowance(mem, ctx.stepId), MAX_REACT_TURNS - turn
  {
    hide PlayTurn, Nonblank, SubagentAnswer;
    if turn < MAX_REACT_TURNS {
      TurnKeeps(env, ctx, agent, mem, think, pos);
      match PlayTurn(env, ctx, agent, mem, think, pos)
      case Stops(_, _, _) =>
      case Continues(m, t, _) => LoopKeeps(env, ctx, agent, m, t, turn + 1, pos + 1);
      case Restarts(m) => LoopKeeps(env, ctx, agent, m, 0, 0, pos + 1);
      case HandsOver(m, _) =>
        var sub := Loop(env, SubagentContext(ctx), pos + 1, SubagentMemory(m), 0, 0, pos + 1);
        AnswerFromResults(sub.mem.stepResults, ctx.stepId);
    }
  }

  // ----- failed tools -----

  /** A run errors, and a later one belongs to the same loop, or the first was the agent's own: then
      the later one is of another tool. */
  ghost predicate NoRepeat(runs: seq<ToolRun>) {
    forall i, j :: 0 <= i < j < |runs| && runs[i].errored
                   && (runs[i].agent == runs[j].agent || runs[i].depth == 0)
                   ==> runs[i].tool != runs[j].tool
  }

  /** All runs avoid the tools in `failed`. */
  ghost predicate Avoids(runs: seq<ToolRun>, failed: seq<string>) {
    forall i :: 0 <= i < |runs| ==> runs[i].tool !in failed
  }

  /** Runs of the agent `agent` at `depth`, or of a later-started subagent. */
  ghost predicate Belongs(runs: seq<ToolRun>, agent: nat, depth: nat, pos: nat, read: nat) {
    forall i :: 0 <= i < |runs| ==>
      || (runs[i].agent == agent && runs[i].depth == depth)
      || (depth == 0 && runs[i].depth == 1 && pos < runs[i].agent < read)
  }

  /** What the loop's own runs failed on is on record in the end. */
  ghost predicate Recorded(runs: seq<ToolRun>, agent: nat, depth: nat, failed: seq<string>) {
    forall i :: 0 <= i < |runs| && runs[i].errored && runs[i].agent == agent && runs[i].depth == depth ==>
      runs[i].tool in failed
  }

  lemma TurnRuns(env: Inputs, ctx: Context, agent: nat, mem: Memory, think: nat, pos: nat)
    ensures var r := PlayTurn(env, ctx, agent, mem, think, pos);
            var runs := if r.Restarts? then [] else r.runs;
            && |runs| <= 1 && Avoids(runs, mem.failedTools)
            && (runs != [] ==> runs[0].agent == agent && runs[0].depth == mem.depth
                               && (runs[0].errored ==> runs[0].tool in r.mem.failedTools))
  {
    hide Nonblank, Judge, AfterTool, Decide, Errs;
    var reply := Decide(env.turns(pos).reply, env.registry, mem.failedTools);
    if reply.Good? {
      JudgeKeeps(ctx, mem, think, reply.decision);
      var next := Judge(ctx, mem, think, reply.decision);
      if next.CallTool? {
        AfterToolKeeps(next.mem, reply.decision.toolName.value, env.turns(pos).observation);
      }
    }
  }

  lemma RunsJoin(first: seq<ToolRun>, rest: seq<ToolRun>, failed: seq<string>, now: seq<string>)
    requires |first| <= 1 && Avoids(first, failed) && NoRepeat(rest) && Avoids(rest, now) && failed <= now
    requires first != [] && first[0].errored ==> first[0].tool in now
    ensures NoRepeat(first + rest) && Avoids(first + rest, failed)
  {
    var runs := first + rest;
    forall i | 0 <= i < |runs| ensures runs[i].tool !in failed {
      if i >= |first| {
        assert runs[i] == rest[i - |first|];
        assert rest[i - |first|].tool !in now;
      } else {
        assert runs[i] == first[i];
      }
    }
    forall i, j | 0 <= i < j < |runs| && runs[i].errored && (runs[i].agent == runs[j].agent || runs[i].depth == 0)
      ensures runs[i].tool != runs[j].tool
    {
      assert runs[j] == rest[j - |first|];
      if i >= |first| {
        assert runs[i] == rest[i - |first|];
      } else {
        assert runs[i] == first[0];
        assert rest[j - |first|].tool !in now;
      }
    }
  }

  /** No loop, of an agent or of a subagent, executes a tool again that returned an error to it, nor
      one that was on record as failed at its start; and a subagent avoids its parent's failures. */
  lemma {:induction false} LoopRuns(env: Inputs, ctx: Context, agent: nat, mem: Memory, think: nat, turn: nat, pos: nat)
    requires turn <= MAX_REACT_TURNS && agent <= pos && mem.depth <= 1
    ensures var end := Loop(env, ctx, agent, mem, think, turn, pos);
            && NoRepeat(end.runs) && Avoids(end.runs, mem.failedTools)
            && Belongs(end.runs, agent, mem.depth, pos, end.read)
            && Recorded(end.runs, agent, mem.depth, end.mem.failedTools)
    decreases SubagentLevels(mem), Allowance(mem, ctx.stepId), MAX_REACT_TURNS - turn
  {
    hide PlayTurn, Conclude, NoRepeat, Avoids, Nonblank, Belongs, Recorded;
    NoRuns(mem.failedTools);
    NoneBelong(agent, mem.depth, pos, pos, mem.failedTools);
    if turn < MAX_REACT_TURNS {
      TurnKeeps(env, ctx, agent, mem, think, pos);
      TurnRuns(env, ctx, agent, mem, think, pos);
      match PlayTurn(env, ctx, agent, mem, think, pos)
      case Stops(ending, m, runs) =>
        NoRuns(m.failedTools);
        RunsJoin(runs, [], mem.failedTools, m.failedTools);
        NoneBelong(agent, mem.depth, pos + 1, pos + 1, m.failedTools);
        OwnRunsJoin(runs, [], agent, mem.depth, pos, pos + 1, m.failedTools);
        assert runs + [] == runs;
      case Continues(m, t, runs) =>
        LoopRuns(env, ctx, agent, m, t, turn + 1, pos + 1);
        LoopKeeps(env, ctx, agent, m, t, turn + 1, pos + 1);
        var rest := Loop(env, ctx, agent, m, t, turn + 1, pos + 1);
        RunsJoin(runs, rest.runs, mem.failedTools, m.failedTools);
        OwnRunsJoin(runs, rest.runs, agent, mem.depth, pos, rest.read, rest.mem.failedTools);
      case Restarts(m) =>
        LoopRuns(env, ctx, agent, m, 0, 0, pos + 1);
        var rest := Loop(env, ctx, agent, m, 0, 0, pos + 1);
        FewerAvoided(rest.runs, mem.failedTools, m.failedTools);
        OwnRunsJoin([], rest.runs, agent, mem.depth, pos, rest.read, rest.mem.failedTools);
        assert [] + rest.runs == rest.runs;
      case HandsOver(m, runs) =>
        LoopRuns(env, SubagentContext(ctx), pos + 1, SubagentMemory(m), 0, 0, pos + 1);
        LoopReads(env, SubagentContext(ctx), pos + 1, SubagentMemory(m), 0, 0, pos + 1);
        var sub := Loop(env, SubagentContext(ctx), pos + 1, SubagentMemory(m), 0, 0, pos + 1);
        RunsJoin(runs, sub.runs, mem.failedTools, m.failedTools);
        ConcludeKeepsTools(ctx, m, sub);
        SubagentRuns(runs, sub.runs, agent, pos, sub.read, m.failedTools);
    }
  }

  lemma NoneBelong(agent: nat, depth: nat, pos: nat, read: nat, failed: seq<string>)
    ensures Belongs([], agent, depth, pos, read) && Recorded([], agent, depth, failed)
  {
  }

  lemma OwnRunsJoin(runs: seq<ToolRun>, rest: seq<ToolRun>, agent: nat, depth: nat, pos: nat, read: nat,
                    failed: seq<string>)
    requires |runs| <= 1
    requires runs != [] ==>
               runs[0].agent == agent && runs[0].depth == depth && (runs[0].errored ==> runs[0].tool in failed)
    requires Belongs(rest, agent, depth, pos + 1, read) && Recorded(rest, agent, depth, failed)
    ensures Belongs(runs + rest, agent, depth, pos, read) && Recorded(runs + rest, agent, depth, failed)
  {
  }

  lemma SubagentRuns(runs: seq<ToolRun>, below: seq<ToolRun>, agent: nat, pos: nat, read: nat, failed: seq<string>)
    requires |runs| <= 1 && agent <= pos && pos + 1 < read
    requires runs != [] ==> runs[0].agent == agent && runs[0].depth == 0 && (runs[0].errored ==> runs[0].tool in failed)
    requires Belongs(below, pos + 1, 1, pos + 1, read)
    ensures Belongs(runs + below, agent, 0, pos, read) && Recorded(runs + below, agent, 0, failed)
  {
  }

  lemma NoRuns(failed: seq<string>)
    ensures NoRepeat([]) && Avoids([], failed)
  {
  }

  lemma FewerAvoided(runs: seq<ToolRun>, failed: seq<string>, now: seq<string>)
    requires Avoids(runs, now) && failed <= now
    ensures Avoids(runs, failed)
  {
  }

  lemma ConcludeKeepsTools(ctx: Context, mem: Memory, sub: LoopEnd)
    ensures Conclude(ctx, mem, sub).1.failedTools == mem.failedTools
  {
    hide SubagentAnswer;
  }

  // ----- accepted subagent answers -----

  /** When the parent accepts an answer: it is the one its subagent finished with if the subagent
      finished; if the subagent stopped for a replan instead, it is the latest usable result that
      the parent itself already had under the same step id, and without one the step fails. */
  lemma AcceptedAnswer(env: Inputs, ctx: Context, mem: Memory, pos: nat)
    requires mem.depth == 0
    ensures var sub := Loop(env, SubagentContext(ctx), pos, SubagentMemory(mem), 0, 0, pos);
            match Conclude(ctx, mem, sub).0
            case FinishedBySubagent(answer) =>
              if sub.ending.Finished? then answer == sub.ending.answer
              else (sub.ending.WantsReplan? || sub.ending.WantsStepReplan?)
                   && SubagentAnswer(mem.stepResults, ctx.stepId) == Some(answer)
            case Failed(_, _) =>
              sub.ending.Failed? || (!sub.ending.Finished? && SubagentAnswer(mem.stepResults, ctx.stepId) == None)
            case _ => false
  {
    hide Nonblank;
    LoopKeeps(env, SubagentContext(ctx), pos, SubagentMemory(mem), 0, 0, pos);
    var sub := Loop(env, SubagentContext(ctx), pos, SubagentMemory(mem), 0, 0, pos);
    if sub.ending.Finished? {
      var results := sub.mem.stepResults;
      assert results[|results| - 1] == StepResult(ctx.stepId, ctx.task, sub.ending.answer);
    }
  }

  /** An answer accepted on these inputs is the one the subagent finished with. */
  ghost predicate AnswersItself(env: Inputs, ctx: Context, mem: Memory, pos: nat) {
    var sub := Loop(env, SubagentContext(ctx), pos, SubagentMemory(mem), 0, 0, pos);
    var ending := Conclude(ctx, mem, sub).0;
    ending.FinishedBySubagent? ==> sub.ending == Finished(ending.answer)
  }

  /** Known before the call: every accepted answer is the subagent's own, whatever the model and the
      tools answer, if and only if the memory has no usable result under the step's id. */
  lemma OwnAnswerExactly(ctx: Context, mem: Memory)
    requires mem.depth == 0
    ensures (forall env: Inputs, pos: nat :: AnswersItself(env, ctx, mem, pos))
            <==> SubagentAnswer(mem.stepResults, ctx.stepId) == None
  {
    hide Conclude, Loop, Nonblank, SubagentAnswer, AnswersItself;
    if SubagentAnswer(mem.stepResults, ctx.stepId) == None {
      forall env: Inputs, pos: nat ensures AnswersItself(env, ctx, mem, pos) {
        NothingInherited(env, ctx, mem, pos);
      }
    } else {
      var env := Inputs((pos: nat) => Turn(Parsed(OVERTURN), Raised("")), {});
      Inherits(env, ctx, mem, 0);
      assert !AnswersItself(env, ctx, mem, 0);
    }
  }

  const OVERTURN := Decision("t", Think, Some(Overturning), 0, None, "")

  lemma NothingInherited(env: Inputs, ctx: Context, mem: Memory, pos: nat)
    requires mem.depth == 0 && SubagentAnswer(mem.stepResults, ctx.stepId) == None
    ensures AnswersItself(env, ctx, mem, pos)
  {
    hide Conclude, Loop, Nonblank, SubagentAnswer;
    AcceptedAnswer(env, ctx, mem, pos);
  }

  /** A subagent that overturns at once leaves its parent the result that is there. */
  lemma Inherits(env: Inputs, ctx: Context, mem: Memory, pos: nat)
    requires mem.depth == 0 && SubagentAnswer(mem.stepResults, ctx.stepId).Some?
    requires env.turns(pos).reply == Parsed(OVERTURN)
    ensures !AnswersItself(env, ctx, mem, pos)
  {
    hide Nonblank, SubagentAnswer;
    Visible();
    var sub := SubagentMemory(mem);
    assert PlayTurn(env, SubagentContext(ctx), pos, sub, 0, pos) == Stops(WantsReplan, sub, []);
    assert Loop(env, SubagentContext(ctx), pos, sub, 0, 0, pos) == LoopEnd(WantsReplan, sub, pos + 1, []);
  }

  /** So it is the subagent's own when the step id was not used before. */
  lemma OwnAnswer(env: Inputs, ctx: Context, mem: Memory, pos: nat)
    requires mem.depth == 0
    requires forall i :: 0 <= i < |mem.stepResults| ==> mem.stepResults[i].stepId != ctx.stepId
    ensures AnswersItself(env, ctx, mem, pos)
  {
    hide Conclude, Loop, Nonblank, AnswersItself;
    AnswerFromResults(mem.stepResults, ctx.stepId);
    OwnAnswerExactly(ctx, mem);
  }

  /** And it really can be a stale one: the first call of a tool fails, the subagent at once asks
      for a new plan, and the step is completed with an earlier result under the same id. */
  lemma StaleAnswer(env: Inputs, ctx: Context, agent: nat, mem: Memory, pos: nat, tool: string, stale: string)
    requires mem.depth == 0 && tool in env.registry && tool !in mem.failedTools && Nonblank(tool)
    requires SubagentAnswer(mem.stepResults, ctx.stepId) == Some(stale)
    requires env.turns(pos) == Turn(Parsed(Decision("t", ToolCall, None, 0, Some(tool), "")), Observed(Some("e"), true))
    requires env.turns(pos + 1).reply == Parsed(OVERTURN)
    ensures var end := Loop(env, ctx, agent, mem, 0, 0, pos);
            end.ending == FinishedBySubagent(stale) && end.read == pos + 2
  {
    hide Nonblank;
    Visible();
    var counted := mem.(noFindingCounts := mem.noFindingCounts[ctx.stepId := 0]);
    var barred := WithFailedTool(counted, tool);
    assert PlayTurn(env, ctx, agent, mem, 0, pos) == HandsOver(barred, [ToolRun(agent, 0, tool, true)]);
    var sub := SubagentMemory(barred);
    assert PlayTurn(env, SubagentContext(ctx), pos + 1, sub, 0, pos + 1) == Stops(WantsReplan, sub, []);
    assert Loop(env, SubagentContext(ctx), pos + 1, sub, 0, 0, pos + 1).ending == WantsReplan;
  }

  lemma Visible()
    ensures Nonblank("t") && Nonblank("e") && Nonblank("a")
  {
    StripTrimmed("t");
    StripTrimmed("e");
    StripTrimmed("a");
  }
}
