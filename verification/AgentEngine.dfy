/** Two engines for the outer loop of a run: the plain loop, and the graph that replaces it. Both are
    given over arbitrary nodes, so that what is proved holds for all node behaviours. */
module AgentEngine {
  import opened Common
  import opened AgentModel
  import opened AgentNodes

  const MAX_ITERATIONS := MAX_PLAN_STEPS * (1 + MAX_REPLAN_COUNT + MAX_STEP_REPLAN_COUNT) + 3
  const RECURSION_LIMIT := MAX_ITERATIONS * 6 + 16

  datatype Event =
    | NodeStarted(node: NodeName)
    | Emitted(payload: string)            // anything a node emits while it runs
    | Log(item: LogItem)
    | NodeFinished(node: NodeName, failed: bool, phase: Option<Phase>)
    | StepStarted(stepId: string, task: string)
    | StepFinished(stepId: string, result: Option<string>)

  /** A node either returns the merged state or raises. */
  datatype NodeRun = Ran(state: AgentState, emitted: seq<Event>) | RaisedIn(message: string, emitted: seq<Event>)

  datatype Nodes = Nodes(
    planner: AgentState -> NodeRun,
    select: AgentState -> NodeRun,
    react: AgentState -> NodeRun,
    summarize: AgentState -> Result<string>)

  datatype Outcome =
    | Answer(text: string)
    | NodeFailed(error: Option<RunError>)
    | NodeRaised(message: string)
    | IterationLimit
    | RecursionLimit

  /** What a run emits, and how it ends. */
  datatype Trace = Trace(events: seq<Event>, outcome: Outcome)

  function Before(events: seq<Event>, trace: Trace): Trace {
    trace.(events := events + trace.events)
  }

  // ----- shared by both engines -----

  predicate ShouldPlan(s: AgentState) {
    s.plannerMode == Some(Replan) || s.plannerMode == Some(StepReplan) || s.plan.None?
  }

  function LogEvents(items: seq<LogItem>): seq<Event> {
    if items == [] then [] else [Log(items[0])] + LogEvents(items[1..])
  }

  /** The new log items: those behind the ones there were before. */
  function NewLogs(before: AgentState, after: AgentState): seq<LogItem> {
    if |before.logs| <= |after.logs| then after.logs[|before.logs|..] else []
  }

  datatype Executed = Executed(events: seq<Event>, state: AgentState) | Ended(events: seq<Event>, outcome: Outcome)

  /** _run_node followed by _raise_if_failed. */
  function RunNode(s: AgentState, name: NodeName, node: AgentState -> NodeRun): Executed {
    match node(s)
    case RaisedIn(message, emitted) => Ended([NodeStarted(name)] + emitted, NodeRaised(message))
    case Ran(after, emitted) =>
      var events := [NodeStarted(name)] + emitted + LogEvents(NewLogs(s, after))
                    + [NodeFinished(name, after.failed, after.phase)];
      if after.failed then Ended(events, NodeFailed(after.error)) else Executed(events, after)
  }

  /** The first step of the plan that bears the current step's id. */
  function CurrentStep(s: AgentState): Option<PlanStep> {
    if s.currentStepId.None? || s.currentStepId.value == "" then None
    else
      var i := IndexOfId(PlanOf(s), s.currentStepId.value);
      if i < |PlanOf(s)| then Some(PlanOf(s)[i]) else None
  }

  function StartedEvents(s: AgentState): seq<Event> {
    match CurrentStep(s)
    case None => []
    case Some(step) => [StepStarted(step.stepId, step.task)]
  }

  function FinishedEvents(s: AgentState): seq<Event> {
    match CurrentStep(s)
    case None => []
    case Some(step) => if step.status.Done? then [StepFinished(step.stepId, step.result)] else []
  }

  function Summarized(r: Result<string>): Outcome {
    match r
    case Ok(text) => Answer(text)
    case Err(message) => NodeRaised(message)
  }

  // ----- the plain loop -----

  /** One iteration: it goes on with a new state or ends the run. */
  function Iterate(nodes: Nodes, s: AgentState): Executed {
    if ShouldPlan(s) then RunNode(s, PlannerNode, nodes.planner)
    else
      match RunNode(s, SelectNode, nodes.select)
      case Ended(events, outcome) => Ended(events, outcome)
      case Executed(events, chosen) =>
        if chosen.finishes then Ended(events, Summarized(nodes.summarize(chosen)))
        else
          var started := events + StartedEvents(chosen);
          match RunNode(chosen, LoopNode, nodes.react)
          case Ended(more, outcome) => Ended(started + more, outcome)
          case Executed(more, after) => Executed(started + more + FinishedEvents(after), after)
  }

  function Legacy(nodes: Nodes, s: AgentState, iterations: nat): Trace
    decreases iterations
  {
    if iterations == 0 then Trace([], IterationLimit)
    else
      match Iterate(nodes, s)
      case Ended(events, outcome) => Trace(events, outcome)
      case Executed(events, after) => Before(events, Legacy(nodes, after, iterations - 1))
  }

  /** AgentLoopEngine.execute. */
  method Execute(nodes: Nodes, question: string) returns (events: seq<Event>, outcome: Outcome)
    ensures Trace(events, outcome) == Legacy(nodes, InitialState(question), MAX_ITERATIONS)
  {
    hide RunNode, StartedEvents, FinishedEvents, Legacy, Iterate, Summarized;
    var state := InitialState(question);
    events := [];
    PassesNothing(Legacy(nodes, state, MAX_ITERATIONS));
    for i := 0 to MAX_ITERATIONS
      invariant Legacy(nodes, InitialState(question), MAX_ITERATIONS)
             == Before(events, Legacy(nodes, state, MAX_ITERATIONS - i))
    {
      ghost var before, turn := events, Iterate(nodes, state);
      LegacyStep(nodes, state, MAX_ITERATIONS - i, before);
      if ShouldPlan(state) {
        PlanIterate(nodes, state);
        var planned := RunNode(state, PlannerNode, nodes.planner);
        events := events + planned.events;
        if planned.Ended? {
          return events, planned.outcome;
        }
        state := planned.state;
        continue;
      }
      IterateMeans(nodes, state, before);
      var selected := RunNode(state, SelectNode, nodes.select);
      events := events + selected.events;
      if selected.Ended? {
        return events, selected.outcome;
      }
      state := selected.state;
      if state.finishes {
        return events, Summarized(nodes.summarize(state));
      }
      events := events + StartedEvents(state);
      var reacted := RunNode(state, LoopNode, nodes.react);
      events := events + reacted.events;
      if reacted.Ended? {
        return events, reacted.outcome;
      }
      state := reacted.state;
      events := events + FinishedEvents(state);
    }
    LegacyOver(nodes, state, events);
    outcome := IterationLimit;
  }

  lemma LegacyOver(nodes: Nodes, s: AgentState, events: seq<Event>)
    ensures Before(events, Legacy(nodes, s, 0)) == Trace(events, IterationLimit)
  {
    assert events + [] == events;
  }

  /** What is left of the loop, one iteration later. */
  lemma LegacyStep(nodes: Nodes, s: AgentState, iterations: nat, events: seq<Event>)
    requires iterations > 0
    ensures Before(events, Legacy(nodes, s, iterations)) ==
            match Iterate(nodes, s)
            case Ended(more, outcome) => Trace(events + more, outcome)
            case Executed(more, after) => Before(events + more, Legacy(nodes, after, iterations - 1))
  {
    hide Iterate;
    var turn := Iterate(nodes, s);
    if turn.Executed? {
      Associate(events, turn.events, Legacy(nodes, turn.state, iterations - 1));
    }
  }

  lemma PlanIterate(nodes: Nodes, s: AgentState)
    requires ShouldPlan(s)
    ensures Iterate(nodes, s) == RunNode(s, PlannerNode, nodes.planner)
  {
  }

  /** The events of an iteration, behind those there were, in the order in which they are emitted. */
  lemma IterateMeans(nodes: Nodes, s: AgentState, before: seq<Event>)
    requires !ShouldPlan(s)
    ensures var selected := RunNode(s, SelectNode, nodes.select);
            var turn := Iterate(nodes, s);
            if selected.Ended? then turn == selected
            else if selected.state.finishes then
              turn == Ended(selected.events, Summarized(nodes.summarize(selected.state)))
            else
              var reacted := RunNode(selected.state, LoopNode, nodes.react);
              var events := before + selected.events + StartedEvents(selected.state) + reacted.events;
              if reacted.Ended? then turn.Ended? && before + turn.events == events && turn.outcome == reacted.outcome
              else
                && turn.Executed? && before + turn.events == events + FinishedEvents(reacted.state)
                && turn.state == reacted.state
  {
    hide RunNode, StartedEvents, FinishedEvents, Summarized;
  }

  // ----- the graph -----

  datatype GraphNode =
    | Bootstrap | CycleGate | PlannerStep | SelectStep | StepStartedNode | ReactStep | StepFinishedNode | Finalize

  datatype GraphState = GraphState(agent: AgentState, iterations: nat, finalAnswer: string)

  datatype Superstep =
    | Goes(events: seq<Event>, state: GraphState, next: GraphNode)
    | Leaves(events: seq<Event>, outcome: Outcome)

  function Route(run: Executed, g: GraphState, next: GraphNode): Superstep {
    match run
    case Ended(events, outcome) => Leaves(events, outcome)
    case Executed(events, after) => Goes(events, g.(agent := after), next)
  }

  /** The fields of a new run, laid over the state the graph was invoked with. */
  function Renewed(s: AgentState): AgentState {
    s.(logs := [], failedTools := [], overthinkCounts := map[], noFindingCounts := map[], subagentResults := [])
  }

  /** One node of the graph together with the edge that leaves it. */
  function Advance(nodes: Nodes, node: GraphNode, g: GraphState): Superstep {
    match node
    case Bootstrap => Goes([], g.(agent := Renewed(g.agent), iterations := 0), CycleGate)
    case CycleGate =>
      if g.iterations + 1 > MAX_ITERATIONS then Leaves([], IterationLimit)
      else Goes([], g.(iterations := g.iterations + 1), if ShouldPlan(g.agent) then PlannerStep else SelectStep)
    case PlannerStep => Route(RunNode(g.agent, PlannerNode, nodes.planner), g, CycleGate)
    case SelectStep =>
      var run := RunNode(g.agent, SelectNode, nodes.select);
      Route(run, g, if run.Executed? && run.state.finishes then Finalize else StepStartedNode)
    case StepStartedNode => Goes(StartedEvents(g.agent), g, ReactStep)
    case ReactStep => Route(RunNode(g.agent, LoopNode, nodes.react), g, StepFinishedNode)
    case StepFinishedNode => Goes(FinishedEvents(g.agent), g, CycleGate)
    case Finalize => Leaves([], Summarized(nodes.summarize(g.agent)))
  }

  /** Running the graph with a limit on the number of supersteps. */
  function Graph(nodes: Nodes, node: GraphNode, g: GraphState, limit: nat): Trace
    decreases limit
  {
    if limit == 0 then Trace([], RecursionLimit)
    else
      match Advance(nodes, node, g)
      case Leaves(events, outcome) => Trace(events, outcome)
      case Goes(events, next, where) => Before(events, Graph(nodes, where, next, limit - 1))
  }

  /** From the gate on, the graph does what the loop does with the iterations that are left, and
      five supersteps per iteration and one more are enough. */
  lemma {:induction false} GraphFollowsLoop(nodes: Nodes, g: GraphState, limit: nat)
    requires g.iterations <= MAX_ITERATIONS
    requires limit >= 5 * (MAX_ITERATIONS - g.iterations) + 1
    ensures Graph(nodes, CycleGate, g, limit) == Legacy(nodes, g.agent, MAX_ITERATIONS - g.iterations)
    decreases MAX_ITERATIONS - g.iterations
  {
    hide RunNode, StartedEvents, FinishedEvents, Summarized;
    if g.iterations < MAX_ITERATIONS {
      var gated := g.(iterations := g.iterations + 1);
      if ShouldPlan(g.agent) {
        var run := RunNode(g.agent, PlannerNode, nodes.planner);
        PassesNothing(Graph(nodes, PlannerStep, gated, limit - 1));
        if run.Executed? {
          GraphFollowsLoop(nodes, gated.(agent := run.state), limit - 2);
        }
      } else {
        GraphStep(nodes, gated, limit - 1);
        PassesNothing(Graph(nodes, SelectStep, gated, limit - 1));
        var turn := Iterate(nodes, g.agent);
        if turn.Executed? {
          GraphFollowsLoop(nodes, gated.(agent := turn.state), limit - 5);
        }
      }
    }
  }

  lemma PassesNothing(trace: Trace)
    ensures Before([], trace) == trace
  {
    assert [] + trace.events == trace.events;
  }

  /** An iteration that does not plan takes four supersteps behind the gate. */
  lemma GraphStep(nodes: Nodes, g: GraphState, limit: nat)
    requires !ShouldPlan(g.agent) && limit >= 5
    ensures Graph(nodes, SelectStep, g, limit) ==
            match Iterate(nodes, g.agent)
            case Ended(events, outcome) => Trace(events, outcome)
            case Executed(events, after) => Before(events, Graph(nodes, CycleGate, g.(agent := after), limit - 4))
  {
    hide RunNode, StartedEvents, FinishedEvents, Summarized;
    var selected := RunNode(g.agent, SelectNode, nodes.select);
    if selected.Executed? {
      var chosen := g.(agent := selected.state);
      if chosen.agent.finishes {
        assert Graph(nodes, Finalize, chosen, limit - 1) == Trace([], Summarized(nodes.summarize(chosen.agent)));
        assert selected.events + [] == selected.events;
      } else {
        var reacted := RunNode(chosen.agent, LoopNode, nodes.react);
        var rest :=
          if reacted.Ended? then Trace(reacted.events, reacted.outcome)
          else
            var gate := Graph(nodes, CycleGate, g.(agent := reacted.state), limit - 4);
            Before(reacted.events, Before(FinishedEvents(reacted.state), gate));
        assert Graph(nodes, ReactStep, chosen, limit - 2) == rest;
        assert Graph(nodes, StepStartedNode, chosen, limit - 1) == Before(StartedEvents(chosen.agent), rest);
        assert Graph(nodes, SelectStep, g, limit) == Before(selected.events, Before(StartedEvents(chosen.agent), rest));
        Associate(selected.events, StartedEvents(chosen.agent), rest);
        if reacted.Executed? {
          var last := Graph(nodes, CycleGate, g.(agent := reacted.state), limit - 4);
          var before := selected.events + StartedEvents(chosen.agent);
          Associate(before, reacted.events, Before(FinishedEvents(reacted.state), last));
          Associate(before + reacted.events, FinishedEvents(reacted.state), last);
        }
      }
    }
  }

  lemma Associate(a: seq<Event>, b: seq<Event>, trace: Trace)
    ensures Before(a, Before(b, trace)) == Before(a + b, trace)
  {
    assert a + (b + trace.events) == a + b + trace.events;
  }

  /** The plain loop never reports the graph's limit. */
  lemma {:induction false} NoRecursionLimit(nodes: Nodes, s: AgentState, iterations: nat)
    ensures !Legacy(nodes, s, iterations).outcome.RecursionLimit?
    decreases iterations
  {
    hide CurrentStep, StartedEvents, FinishedEvents;
    if iterations > 0 {
      var turn := Iterate(nodes, s);
      if turn.Executed? {
        NoRecursionLimit(nodes, turn.state, iterations - 1);
      }
    }
  }

  /** Equivalence. For all behaviours of the four nodes, the graph emits the same events in the same
      order as the plain loop and ends the same way, given at least 1 + 5 * 27 + 1 supersteps; its
      own limit of 178 is larger than that and never fires. The graph is invoked with the question
      only. A node that carries something from call to call is among the functions of the state,
      which may keep any number in a history field such as `turnsRead`. */
  lemma GraphEqualsLegacy(nodes: Nodes, question: string, limit: nat)
    requires limit >= 1 + 5 * MAX_ITERATIONS + 1
    ensures Graph(nodes, Bootstrap, GraphState(InitialState(question), 0, ""), limit)
         == Legacy(nodes, InitialState(question), MAX_ITERATIONS)
    ensures !Graph(nodes, Bootstrap, GraphState(InitialState(question), 0, ""), limit).outcome.RecursionLimit?
    ensures MAX_ITERATIONS == 27 && RECURSION_LIMIT == 178 >= 1 + 5 * MAX_ITERATIONS + 1
  {
    hide Legacy;
    var g := GraphState(InitialState(question), 0, "");
    assert Renewed(g.agent) == g.agent;
    GraphFollowsLoop(nodes, g, limit - 1);
    PassesNothing(Graph(nodes, CycleGate, g, limit - 1));
    NoRecursionLimit(nodes, g.agent, MAX_ITERATIONS);
  }
}
