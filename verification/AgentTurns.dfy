/** What every kind of turn does to the loop over a step, in terms of the reply, the observation and
    the counters: together the lemmas cover all inputs. */
module AgentTurns {
  import opened Common
  import opened Text
  import opened AgentModel

  lemma NonblankMeans(text: string)
    ensures Nonblank(text) <==> !Blank(text)
  {
    StripBlank(text);
  }

  lemma CountMeans(counts: map<string, nat>, id: string, other: string, n: nat)
    ensures CountOf(counts[id := n], id) == n && CountOf(map[], id) == 0
    ensures other != id ==> CountOf(counts[id := n], other) == CountOf(counts, other)
  {
  }

  /** The reply passes the checks made on it. */
  predicate Passes(d: Decision, registry: set<string>, failedTools: seq<string>) {
    && Nonblank(d.thought) && (d.noFinding == 0 || d.noFinding == 1)
    && match d.toolName
       case None => !d.decideType.ToolCall?
       case Some(tool) => d.decideType.ToolCall? && Nonblank(tool) && tool in registry && tool !in failedTools
  }

  /** The loop ends on this turn, without a tool call. */
  ghost predicate EndsHere(end: LoopEnd, ending: Ending, mem: Memory, pos: nat) {
    end == LoopEnd(ending, mem, pos + 1, [])
  }

  /** A reply that does not pass fails the step for the first check it does not meet; nothing is
      counted and no tool is called. */
  lemma RefusedTurn(env: Inputs, ctx: Context, agent: nat, mem: Memory, think: nat, turn: nat, pos: nat)
    requires turn < 7
    ensures var end := Loop(env, ctx, agent, mem, think, turn, pos);
            match env.turns(pos).reply
            case Garbled(message) => EndsHere(end, Failed(false, BadReply(message)), mem, pos)
            case Parsed(d) =>
              !Passes(d, env.registry, mem.failedTools) ==>
                EndsHere(end, Failed(false, RefusalOf(d)), mem, pos)
  {
    hide Nonblank;
  }

  /** The first check that the reply does not meet. */
  function RefusalOf(d: Decision): LoopError {
    if !Nonblank(d.thought) then EmptyThought
    else if d.noFinding != 0 && d.noFinding != 1 then BadNoFinding
    else if !d.decideType.ToolCall? then UnexpectedToolName
    else if d.toolName.Some? && Nonblank(d.toolName.value) then UnknownTool(d.toolName.value)
    else EmptyToolName
  }

  /** Signals of the model. An overturning asks for a new plan while one is left. The first overthink
      of a step starts it over with all turns, the second fails it. The other two are errors. */
  lemma SignalTurn(env: Inputs, ctx: Context, agent: nat, mem: Memory, think: nat, turn: nat, pos: nat, d: Decision)
    requires turn < 7 && env.turns(pos).reply == Parsed(d) && Passes(d, env.registry, mem.failedTools)
    ensures var end := Loop(env, ctx, agent, mem, think, turn, pos);
            match d.signal
            case None => true
            case Some(Overturning) =>
              EndsHere(end, if ctx.replanCount == 0 then WantsReplan else Failed(true, ReplansUsedUp), mem, pos)
            case Some(Overthink) => StartsOver(env, ctx, agent, mem, pos, end)
            case Some(ToolError) => EndsHere(end, Failed(false, SignalNeedsToolError), mem, pos)
            case Some(FindingMissing) => EndsHere(end, Failed(false, SignalNotImplemented), mem, pos)
  {
    hide Nonblank;
  }

  /** What an overthink leads to. */
  ghost predicate StartsOver(env: Inputs, ctx: Context, agent: nat, mem: Memory, pos: nat, end: LoopEnd) {
    var count := CountOf(mem.overthinkCounts, ctx.stepId) + 1;
    var counted := mem.(overthinkCounts := mem.overthinkCounts[ctx.stepId := count]);
    if count == 1 then end == Loop(env, ctx, agent, counted, 0, 0, pos + 1)
    else EndsHere(end, Failed(true, OverthinkTwice), counted, pos)
  }

  /** The memory after a turn without a signal: the turns without a finding are counted in a row. */
  function Counted(mem: Memory, stepId: string, noFinding: int): Memory {
    mem.(noFindingCounts := mem.noFindingCounts[stepId := if noFinding == 0 then 0
                                                          else CountOf(mem.noFindingCounts, stepId) + 1])
  }

  /** The turn is neither refused nor a signal, nor the third one in a row without a finding. */
  predicate Ordinary(env: Inputs, ctx: Context, mem: Memory, pos: nat, d: Decision) {
    && env.turns(pos).reply == Parsed(d) && Passes(d, env.registry, mem.failedTools) && d.signal == None
    && (d.noFinding == 0 || CountOf(mem.noFindingCounts, ctx.stepId) < 2)
  }

  /** The third turn in a row without a finding asks for a new step while one is left, whatever else was
      decided. */
  lemma MissingTurn(env: Inputs, ctx: Context, agent: nat, mem: Memory, think: nat, turn: nat, pos: nat, d: Decision)
    requires turn < 7 && env.turns(pos).reply == Parsed(d) && Passes(d, env.registry, mem.failedTools)
    requires d.signal == None && d.noFinding == 1 && CountOf(mem.noFindingCounts, ctx.stepId) >= 2
    ensures EndsHere(Loop(env, ctx, agent, mem, think, turn, pos),
                     if ctx.stepReplanCount == 0 then WantsStepReplan else Failed(true, StepReplansUsedUp),
                     Counted(mem, ctx.stepId, 1), pos)
  {
    hide Nonblank;
  }

  /** Turns that call no tool. A thought goes on with the next turn, the third one in a row is an
      overthink. A finish ends the step with its own answer, recorded for the step, unless it is blank. */
  lemma PlainTurn(env: Inputs, ctx: Context, agent: nat, mem: Memory, think: nat, turn: nat, pos: nat, d: Decision)
    requires turn < 7 && Ordinary(env, ctx, mem, pos, d)
    ensures var end := Loop(env, ctx, agent, mem, think, turn, pos);
            var counted := Counted(mem, ctx.stepId, d.noFinding);
            match d.decideType
            case Think =>
              if think < 2 then end == Loop(env, ctx, agent, counted, think + 1, turn + 1, pos + 1)
              else StartsOver(env, ctx, agent, counted, pos, end)
            case Finish =>
              if Nonblank(d.answer) then
                var result := StepResult(ctx.stepId, ctx.task, d.answer);
                EndsHere(end, Finished(d.answer), counted.(stepResults := mem.stepResults + [result]), pos)
              else EndsHere(end, Failed(false, EmptyAnswer), counted, pos)
            case Fail => EndsHere(end, Failed(false, DecisionIsFail), counted, pos)
            case ToolCall => true
  {
    hide Nonblank, AfterTool, Conclude, Errs, SubagentMemory;
    if d.decideType.Think? && think < 2 {
      var rest := Loop(env, ctx, agent, Counted(mem, ctx.stepId, d.noFinding), think + 1, turn + 1, pos + 1);
      assert [] + rest.runs == rest.runs;
    }
  }

  /** Calls of a tool. Without an error, or with a blank one, the loop goes on; with an error that is not
      recoverable it goes on too, with the tool barred; a tool that raises fails the step. In every case
      the call is on record, and the count of thoughts in a row is reset. */
  lemma ToolTurn(env: Inputs, ctx: Context, agent: nat, mem: Memory, think: nat, turn: nat, pos: nat, d: Decision)
    requires turn < 7 && Ordinary(env, ctx, mem, pos, d) && d.decideType.ToolCall?
    ensures var end := Loop(env, ctx, agent, mem, think, turn, pos);
            var counted := Counted(mem, ctx.stepId, d.noFinding);
            var barred := counted.(failedTools := mem.failedTools + [d.toolName.value]);
            var run := ToolRun(agent, mem.depth, d.toolName.value, false);
            match env.turns(pos).observation
            case Raised(message) => end == LoopEnd(Failed(false, ToolRaised(message)), counted, pos + 1, [run])
            case Observed(error, recoverable) =>
              if error.None? || !Nonblank(error.value) then
                var rest := Loop(env, ctx, agent, counted, 0, turn + 1, pos + 1);
                end == rest.(runs := [run] + rest.runs)
              else if !recoverable then
                var rest := Loop(env, ctx, agent, barred, 0, turn + 1, pos + 1);
                end == rest.(runs := [run.(errored := true)] + rest.runs)
              else if mem.depth >= 1 then
                end == LoopEnd(Failed(true, SubagentTooDeep), barred, pos + 1, [run.(errored := true)])
              else true
  {
    hide Nonblank, PlayTurn, Ordinary;
    PlayTool(env, ctx, agent, mem, think, pos, d);
  }

  /** The turn itself, before the loop goes on. */
  lemma PlayTool(env: Inputs, ctx: Context, agent: nat, mem: Memory, think: nat, pos: nat, d: Decision)
    requires Ordinary(env, ctx, mem, pos, d) && d.decideType.ToolCall?
    ensures d.toolName.Some?
    ensures var played := PlayTurn(env, ctx, agent, mem, think, pos);
            var counted := Counted(mem, ctx.stepId, d.noFinding);
            var barred := counted.(failedTools := mem.failedTools + [d.toolName.value]);
            var run := ToolRun(agent, mem.depth, d.toolName.value, false);
            match env.turns(pos).observation
            case Raised(message) => played == Stops(Failed(false, ToolRaised(message)), counted, [run])
            case Observed(error, recoverable) =>
              if error.None? || !Nonblank(error.value) then played == Continues(counted, 0, [run])
              else if !recoverable then played == Continues(barred, 0, [run.(errored := true)])
              else if mem.depth >= 1 then
                played == Stops(Failed(true, SubagentTooDeep), barred, [run.(errored := true)])
              else played == HandsOver(barred, [run.(errored := true)])
  {
    hide Nonblank;
  }

  /** A recoverable error at the top level hands the step over to a subagent, with a fresh thought count
      and turn count, no replans counted, and everything else as it is. If the subagent fails, so does
      the step; else its latest usable result for the step is recorded once more as the step's, or the
      step fails for want of one. */
  lemma SubagentTurn(env: Inputs, ctx: Context, agent: nat, mem: Memory, think: nat, turn: nat, pos: nat, d: Decision)
    requires turn < 7 && Ordinary(env, ctx, mem, pos, d) && d.decideType.ToolCall? && mem.depth == 0
    requires env.turns(pos).observation.Observed? && env.turns(pos).observation.recoverable
    requires env.turns(pos).observation.error.Some? && Nonblank(env.turns(pos).observation.error.value)
    ensures var end := Loop(env, ctx, agent, mem, think, turn, pos);
            var barred := Counted(mem, ctx.stepId, d.noFinding).(failedTools := mem.failedTools + [d.toolName.value]);
            var sub := Loop(env, Context(ctx.stepId, ctx.task, 0, 0), pos + 1,
                            barred.(subagentResults := [], depth := 1), 0, 0, pos + 1);
            && end.read == sub.read
            && end.runs == [ToolRun(agent, 0, d.toolName.value, true)] + sub.runs
            && match sub.ending
               case Failed(_, error) =>
                 && end.ending == Failed(true, SubagentFailed(error))
                 && end.mem == barred.(subagentResults := mem.subagentResults
                                         + [SubagentResult(ctx.stepId, ctx.task, SubagentError(error))])
               case _ =>
                 match SubagentAnswer(sub.mem.stepResults, ctx.stepId)
                 case None => end.ending == Failed(false, NoSubagentResult) && end.mem == barred
                 case Some(answer) =>
                   && end.ending == FinishedBySubagent(answer)
                   && end.mem == barred.(
                        subagentResults := mem.subagentResults
                                           + [SubagentResult(ctx.stepId, ctx.task, SubagentDone(answer))],
                        stepResults := mem.stepResults + [StepResult(ctx.stepId, ctx.task, answer)])
  {
    hide Nonblank, SubagentAnswer, PlayTurn, Ordinary;
    PlayTool(env, ctx, agent, mem, think, pos, d);
  }

  /** The eighth turn of a pass is not taken. */
  lemma NoEighthTurn(env: Inputs, ctx: Context, agent: nat, mem: Memory, think: nat, pos: nat)
    ensures Loop(env, ctx, agent, mem, think, 7, pos) == LoopEnd(Failed(false, TooManyTurns), mem, pos, [])
  {
  }

  /** Which result counts as a subagent's answer: the last usable one recorded under the step id. */
  lemma {:induction false} LatestAnswer(results: seq<StepResult>, stepId: string, i: nat)
    requires i < |results| && results[i].stepId == stepId && Nonblank(results[i].result)
    requires forall j :: i < j < |results| ==> results[j].stepId != stepId || !Nonblank(results[j].result)
    ensures SubagentAnswer(results, stepId) == Some(results[i].result)
    decreases |results|
  {
    hide Nonblank;
    if i < |results| - 1 {
      LatestAnswer(results[..|results| - 1], stepId, i);
    }
  }

  /** A step that is finished by the agent itself ends with the answer of the decision read last. */
  lemma {:induction false} AnswerIsDecided(env: Inputs, ctx: Context, agent: nat, mem: Memory, think: nat,
                                           turn: nat, pos: nat)
    requires turn <= 7
    ensures var end := Loop(env, ctx, agent, mem, think, turn, pos);
            end.ending.Finished? ==>
              && end.read > pos && env.turns(end.read - 1).reply.Parsed?
              && var d := env.turns(end.read - 1).reply.decision;
                 d.decideType.Finish? && d.signal == None && d.answer == end.ending.answer
    decreases SubagentLevels(mem), Allowance(mem, ctx.stepId), MAX_REACT_TURNS - turn
  {
    hide Nonblank, PlayTurn, Conclude, Allowance;
    if turn < 7 {
      FinishIsDecided(env, ctx, agent, mem, think, pos);
      match PlayTurn(env, ctx, agent, mem, think, pos)
      case Stops(_, _, _) =>
      case Continues(m, t, _) => AnswerIsDecided(env, ctx, agent, m, t, turn + 1, pos + 1);
      case Restarts(m) => AnswerIsDecided(env, ctx, agent, m, 0, 0, pos + 1);
      case HandsOver(m, _) =>
        NotFinished(ctx, m, Loop(env, SubagentContext(ctx), pos + 1, SubagentMemory(m), 0, 0, pos + 1));
    }
  }

  lemma FinishIsDecided(env: Inputs, ctx: Context, agent: nat, mem: Memory, think: nat, pos: nat)
    ensures match PlayTurn(env, ctx, agent, mem, think, pos)
            case Stops(Finished(answer), _, _) =>
              && env.turns(pos).reply.Parsed?
              && var d := env.turns(pos).reply.decision;
                 d.decideType.Finish? && d.signal == None && d.answer == answer
            case _ => true
  {
    hide Nonblank;
  }

  lemma NotFinished(ctx: Context, mem: Memory, sub: LoopEnd)
    ensures !Conclude(ctx, mem, sub).0.Finished?
  {
    hide SubagentAnswer;
  }
}
