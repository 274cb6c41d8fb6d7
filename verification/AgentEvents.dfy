/** What a run answers, which events it emits, and in which order: for all node behaviours, in terms of
    what the nodes return. */
module AgentEvents {
  import opened Common
  import opened AgentModel
  import opened AgentNodes
  import opened AgentEngine
  import opened AgentRuns

  // ----- how a run ends -----

  /** A node that raises, or returns a failed state, ends the run thus. */
  ghost predicate FailsAs(run: NodeRun, outcome: Outcome) {
    match run
    case RaisedIn(message, _) => outcome == NodeRaised(message)
    case Ran(state, _) => state.failed && outcome == NodeFailed(state.error)
  }

  ghost predicate Goes(run: NodeRun) {
    run.Ran? && !run.state.failed
  }

  /** The iteration at `s` ends the run, with this outcome. */
  ghost predicate EndsAs(nodes: Nodes, s: AgentState, outcome: Outcome) {
    if s.plan.None? || s.plannerMode == Some(Replan) || s.plannerMode == Some(StepReplan) then
      FailsAs(nodes.planner(s), outcome)
    else if !Goes(nodes.select(s)) then FailsAs(nodes.select(s), outcome)
    else
      var chosen := nodes.select(s).state;
      if chosen.finishes then
        match nodes.summarize(chosen)
        case Ok(text) => outcome == Answer(text)
        case Err(message) => outcome == NodeRaised(message)
      else FailsAs(nodes.react(chosen), outcome)
  }

  lemma IterateEnds(nodes: Nodes, s: AgentState)
    ensures Iterate(nodes, s).Executed? ==> forall outcome :: !EndsAs(nodes, s, outcome)
    ensures Iterate(nodes, s).Ended? ==>
              forall outcome :: EndsAs(nodes, s, outcome) <==> outcome == Iterate(nodes, s).outcome
    ensures Iterate(nodes, s).Ended? ==> !Iterate(nodes, s).outcome.IterationLimit?
  {
    hide LogEvents, NewLogs, StartedEvents, FinishedEvents;
  }

  /** How a run ends, exactly: it has an outcome other than the iteration limit if and only if some state
      reached within the limit ends with it, and it reports the limit if and only if it is still going
      after that many iterations. */
  lemma {:induction false} OutcomeExactly(nodes: Nodes, s: AgentState, iterations: nat, outcome: Outcome)
    ensures !outcome.IterationLimit? ==>
              (Legacy(nodes, s, iterations).outcome == outcome <==>
                 exists n :: 0 <= n < iterations && ReachesEnd(nodes, s, n, outcome))
    ensures Legacy(nodes, s, iterations).outcome.IterationLimit? <==> After(nodes, s, iterations).Some?
    decreases iterations
  {
    hide Iterate, EndsAs;
    if iterations > 0 {
      IterateEnds(nodes, s);
      var turn := Iterate(nodes, s);
      match turn {
        case Ended(_, _) =>
          assert ReachesEnd(nodes, s, 0, turn.outcome);
          forall n | 0 <= n < iterations && ReachesEnd(nodes, s, n, outcome) ensures outcome == turn.outcome {
            assert n == 0;
          }
        case Executed(_, s') =>
          OutcomeExactly(nodes, s', iterations - 1, outcome);
          forall n | 0 <= n < iterations
            ensures ReachesEnd(nodes, s, n, outcome) <==> n > 0 && ReachesEnd(nodes, s', n - 1, outcome)
          {
          }
          if n :| 0 <= n < iterations - 1 && ReachesEnd(nodes, s', n, outcome) {
            assert ReachesEnd(nodes, s, n + 1, outcome);
          }
      }
    }
  }

  ghost predicate ReachesEnd(nodes: Nodes, s: AgentState, n: nat, outcome: Outcome) {
    After(nodes, s, n).Some? && EndsAs(nodes, After(nodes, s, n).value, outcome)
  }

  /** The selector finishes in the state reached after `n` iterations, and this is the summary. */
  ghost predicate Summary(nodes: Nodes, s: AgentState, n: nat, summary: Result<string>) {
    match After(nodes, s, n)
    case None => false
    case Some(a) =>
      && a.plan.Some? && a.plannerMode != Some(Replan) && a.plannerMode != Some(StepReplan)
      && Goes(nodes.select(a)) && nodes.select(a).state.finishes
      && nodes.summarize(nodes.select(a).state) == summary
  }

  /** Both engines answer with a text if and only if it is what the summarizer made of a state in which
      the selector finished; and if the summarizer raised, so does the run. */
  lemma AnswerExactly(nodes: Nodes, question: string, text: string, message: string)
    ensures var start := InitialState(question);
            var loop := Legacy(nodes, start, 27).outcome;
            var graph := Graph(nodes, Bootstrap, GraphState(start, 0, ""), 178).outcome;
            && (loop == Answer(text) <==> exists n :: 0 <= n < 27 && Summary(nodes, start, n, Ok(text)))
            && ((exists n :: 0 <= n < 27 && Summary(nodes, start, n, Err(message))) ==> loop == NodeRaised(message))
            && graph == loop
  {
    hide Legacy, Graph, After, Iterate, InitialState;
    var start := InitialState(question);
    OutcomeExactly(nodes, start, 27, Answer(text));
    OutcomeExactly(nodes, start, 27, NodeRaised(message));
    GraphEqualsLegacy(nodes, question, 178);
    forall n: nat ensures ReachesEnd(nodes, start, n, Answer(text)) <==> Summary(nodes, start, n, Ok(text)) {
    }
    forall n: nat ensures Summary(nodes, start, n, Err(message)) ==> ReachesEnd(nodes, start, n, NodeRaised(message)) {
    }
  }

  // ----- the order of events -----

  /** Where a reader of the events is. */
  datatype Place = Gate | InPlanner | Selecting | Selected | Announced | Working | Worked | Dead

  /** The place after one more event, or none if the event is out of order. */
  function Follow(place: Place, event: Event): Option<Place> {
    match event
    case NodeStarted(PlannerNode) => if place.Gate? || place.Worked? then Some(InPlanner) else None
    case NodeStarted(SelectNode) => if place.Gate? || place.Worked? then Some(Selecting) else None
    case NodeStarted(LoopNode) => if place.Selected? || place.Announced? then Some(Working) else None
    case Emitted(_) => if Inside(place) then Some(place) else None
    case Log(_) => if Inside(place) then Some(place) else None
    case NodeFinished(node, failed, _) =>
      var next := match node
        case PlannerNode => if place.InPlanner? then Some(Gate) else None
        case SelectNode => if place.Selecting? then Some(Selected) else None
        case LoopNode => if place.Working? then Some(Worked) else None;
      if next.Some? && failed then Some(Dead) else next
    case StepStarted(_, _) => if place.Selected? then Some(Announced) else None
    case StepFinished(_, _) => if place.Worked? then Some(Gate) else None
  }

  predicate Inside(place: Place) {
    place.InPlanner? || place.Selecting? || place.Working?
  }

  function FollowAll(place: Place, events: seq<Event>): Option<Place>
    decreases |events|
  {
    if events == [] then Some(place)
    else
      match Follow(place, events[0])
      case None => None
      case Some(next) => FollowAll(next, events[1..])
  }

  lemma {:induction false} FollowAppend(place: Place, a: seq<Event>, b: seq<Event>)
    ensures FollowAll(place, a + b) ==
            match FollowAll(place, a)
            case None => None
            case Some(next) => FollowAll(next, b)
    decreases |a|
  {
    hide Follow;
    if a == [] {
      assert a + b == b;
    } else {
      assert (a + b)[1..] == a[1..] + b;
      if Follow(place, a[0]).Some? {
        FollowAppend(Follow(place, a[0]).value, a[1..], b);
      }
    }
  }

  lemma FollowOne(place: Place, event: Event)
    ensures FollowAll(place, [event]) == Follow(place, event)
  {
    hide Follow;
    assert [event][1..] == [];
  }

  /** While a node runs it emits neither logs nor events of nodes and steps: those are the engine's. */
  ghost predicate PlainEmitter(node: AgentState -> NodeRun) {
    forall s: AgentState :: OnlyEmitted(node(s).emitted)
  }

  ghost predicate OnlyEmitted(events: seq<Event>) {
    forall i :: 0 <= i < |events| ==> events[i].Emitted?
  }

  ghost predicate Plain(nodes: Nodes) {
    PlainEmitter(nodes.planner) && PlainEmitter(nodes.select) && PlainEmitter(nodes.react)
  }

  lemma {:induction false} InsideStays(place: Place, events: seq<Event>)
    requires Inside(place) && forall i :: 0 <= i < |events| ==> events[i].Emitted? || events[i].Log?
    ensures FollowAll(place, events) == Some(place)
  {
    if events != [] {
      InsideStays(place, events[1..]);
    }
  }

  lemma {:induction false} LogsOnly(items: seq<LogItem>)
    ensures forall i :: 0 <= i < |LogEvents(items)| ==> LogEvents(items)[i].Log?
  {
    if items != [] {
      LogsOnly(items[1..]);
    }
  }

  function Within(name: NodeName): Place {
    match name
    case PlannerNode => InPlanner
    case SelectNode => Selecting
    case LoopNode => Working
  }

  function Behind(name: NodeName): Place {
    match name
    case PlannerNode => Gate
    case SelectNode => Selected
    case LoopNode => Worked
  }

  /** One node: its events are bracketed by its start and its end, and the end says whether it failed. */
  lemma NodeFollows(s: AgentState, name: NodeName, node: AgentState -> NodeRun, place: Place)
    requires PlainEmitter(node) && Follow(place, NodeStarted(name)).Some?
    ensures var run := RunNode(s, name, node);
            if run.Executed? then FollowAll(place, run.events) == Some(Behind(name))
            else if run.outcome.NodeFailed? then FollowAll(place, run.events) == Some(Dead)
            else run.outcome.NodeRaised? && FollowAll(place, run.events) == Some(Within(name))
  {
    hide FollowAll;
    var emitted := node(s).emitted;
    assert OnlyEmitted(emitted);
    var inside := Within(name);
    FollowOne(place, NodeStarted(name));
    FollowAppend(place, [NodeStarted(name)], emitted);
    InsideStays(inside, emitted);
    if node(s).Ran? {
      var after := node(s).state;
      var logs := LogEvents(NewLogs(s, after));
      LogsOnly(NewLogs(s, after));
      InsideStays(inside, logs);
      FollowAppend(place, [NodeStarted(name)] + emitted, logs);
      var end := NodeFinished(name, after.failed, after.phase);
      FollowOne(inside, end);
      FollowAppend(place, [NodeStarted(name)] + emitted + logs, [end]);
    }
  }

  predicate AtHome(place: Place) {
    place.Gate? || place.Worked?
  }

  lemma IterationFollows(nodes: Nodes, s: AgentState, place: Place)
    requires Plain(nodes) && AtHome(place)
    ensures var turn := Iterate(nodes, s);
            var end := FollowAll(place, turn.events);
            && end.Some?
            && (turn.Executed? ==> AtHome(end.value))
            && (turn.Ended? ==> (end == Some(Dead) <==> turn.outcome.NodeFailed?))
  {
    hide FollowAll, RunNode, PlainEmitter, CurrentStep;
    if ShouldPlan(s) {
      NodeFollows(s, PlannerNode, nodes.planner, place);
    } else {
      NodeFollows(s, SelectNode, nodes.select, place);
      var selected := RunNode(s, SelectNode, nodes.select);
      if selected.Executed? && !selected.state.finishes {
        var chosen := selected.state;
        var started := selected.events + StartedEvents(chosen);
        FollowAppend(place, selected.events, StartedEvents(chosen));
        var before := StepPlaces(chosen);
        NodeFollows(chosen, LoopNode, nodes.react, before);
        var reacted := RunNode(chosen, LoopNode, nodes.react);
        FollowAppend(place, started, reacted.events);
        if reacted.Executed? {
          FollowAppend(place, started + reacted.events, FinishedEvents(reacted.state));
          FinishPlaces(reacted.state);
        }
      }
    }
  }

  lemma StepPlaces(s: AgentState) returns (place: Place)
    ensures FollowAll(Selected, StartedEvents(s)) == Some(place) && (place.Selected? || place.Announced?)
  {
    hide CurrentStep;
    place := if StartedEvents(s) == [] then Selected else Announced;
    if StartedEvents(s) != [] {
      FollowOne(Selected, StartedEvents(s)[0]);
    }
  }

  lemma FinishPlaces(s: AgentState)
    ensures FollowAll(Worked, FinishedEvents(s)).Some? && AtHome(FollowAll(Worked, FinishedEvents(s)).value)
  {
    hide CurrentStep;
    if FinishedEvents(s) != [] {
      FollowOne(Worked, FinishedEvents(s)[0]);
    }
  }

  /** The events of a run are in order: every node's events lie between its start and its end; a planner
      pass or a selection comes at the gate; the start of a step is announced between its selection and
      the loop, its finish after the loop; nothing follows a failed node, and one is reported exactly if
      the run ends by it. */
  lemma {:induction false} EventsInOrder(nodes: Nodes, s: AgentState, iterations: nat, place: Place)
    requires Plain(nodes) && AtHome(place)
    ensures var trace := Legacy(nodes, s, iterations);
            FollowAll(place, trace.events).Some?
            && (FollowAll(place, trace.events) == Some(Dead) <==> trace.outcome.NodeFailed?)
    decreases iterations
  {
    hide Iterate, FollowAll, Plain;
    if iterations == 0 {
      NothingFollows(place);
    } else {
      IterationFollows(nodes, s, place);
      match Iterate(nodes, s)
      case Ended(_, _) =>
      case Executed(events, after) =>
        EventsInOrder(nodes, after, iterations - 1, FollowAll(place, events).value);
        FollowAppend(place, events, Legacy(nodes, after, iterations - 1).events);
    }
  }

  lemma NothingFollows(place: Place)
    ensures FollowAll(place, []) == Some(place)
  {
  }

  function EmittedOf(events: seq<Event>): seq<Event> {
    if events == [] then []
    else (if events[0].Emitted? then [events[0]] else []) + EmittedOf(events[1..])
  }

  lemma {:induction false} EmittedAppend(a: seq<Event>, b: seq<Event>)
    ensures EmittedOf(a + b) == EmittedOf(a) + EmittedOf(b)
  {
    if a == [] {
      assert a + b == b;
    } else {
      EmittedAppend(a[1..], b);
      assert (a + b)[1..] == a[1..] + b && (a + b)[0] == a[0];
      var first := if a[0].Emitted? then [a[0]] else [];
      assert first + (EmittedOf(a[1..]) + EmittedOf(b)) == (first + EmittedOf(a[1..])) + EmittedOf(b);
    }
  }

  lemma {:induction false} EmittedAll(events: seq<Event>, emits: bool)
    requires forall i :: 0 <= i < |events| ==> events[i].Emitted? == emits
    ensures EmittedOf(events) == if emits then events else []
  {
    if events != [] {
      EmittedAll(events[1..], emits);
    }
  }

  /** Everything a node emits is passed on once and in order, also when it raises in the end; and the
      last event of a node that returned reports its status and its phase. */
  lemma NodeEmits(s: AgentState, name: NodeName, node: AgentState -> NodeRun)
    requires PlainEmitter(node)
    ensures var run := RunNode(s, name, node);
            && EmittedOf(run.events) == node(s).emitted
            && run.events != [] && run.events[0] == NodeStarted(name)
            && (node(s).Ran? ==>
                  run.events[|run.events| - 1] == NodeFinished(name, node(s).state.failed, node(s).state.phase))
  {
    hide EmittedOf;
    var emitted := node(s).emitted;
    assert OnlyEmitted(emitted);
    EmittedAll([NodeStarted(name)], false);
    EmittedAll(emitted, true);
    EmittedAppend([NodeStarted(name)], emitted);
    assert [] + emitted == emitted;
    if node(s).Ran? {
      var logs := LogEvents(NewLogs(s, node(s).state));
      var end := NodeFinished(name, node(s).state.failed, node(s).state.phase);
      LogsOnly(NewLogs(s, node(s).state));
      EmittedAll(logs, false);
      EmittedAll([end], false);
      EmittedAppend([NodeStarted(name)] + emitted, logs);
      EmittedAppend([NodeStarted(name)] + emitted + logs, [end]);
    }
  }

  // ----- log items -----

  function LogsOf(events: seq<Event>): seq<LogItem> {
    if events == [] then []
    else (if events[0].Log? then [events[0].item] else []) + LogsOf(events[1..])
  }

  lemma {:induction false} LogsAppend(a: seq<Event>, b: seq<Event>)
    ensures LogsOf(a + b) == LogsOf(a) + LogsOf(b)
  {
    if a == [] {
      assert a + b == b;
    } else {
      LogsAppend(a[1..], b);
      assert (a + b)[1..] == a[1..] + b && (a + b)[0] == a[0];
      var first := if a[0].Log? then [a[0].item] else [];
      assert first + (LogsOf(a[1..]) + LogsOf(b)) == (first + LogsOf(a[1..])) + LogsOf(b);
    }
  }

  lemma {:induction false} NoLogs(events: seq<Event>)
    requires forall i :: 0 <= i < |events| ==> !events[i].Log?
    ensures LogsOf(events) == []
  {
    if events != [] {
      NoLogs(events[1..]);
    }
  }

  lemma {:induction false} LogsBack(items: seq<LogItem>)
    ensures LogsOf(LogEvents(items)) == items
  {
    if items != [] {
      LogsBack(items[1..]);
      assert LogEvents(items)[1..] == LogEvents(items[1..]);
    }
  }

  /** The node keeps the log items there were and may append some. */
  ghost predicate Appends(node: AgentState -> NodeRun) {
    forall s: AgentState :: node(s).Ran? ==> s.logs <= node(s).state.logs
  }

  ghost predicate AllAppend(nodes: Nodes) {
    Plain(nodes) && Appends(nodes.planner) && Appends(nodes.select) && Appends(nodes.react)
  }

  lemma NodeLogs(s: AgentState, name: NodeName, node: AgentState -> NodeRun)
    requires PlainEmitter(node) && Appends(node) && RunNode(s, name, node).Executed?
    ensures var run := RunNode(s, name, node);
            s.logs <= run.state.logs && LogsOf(run.events) == run.state.logs[|s.logs|..]
  {
    hide LogsOf;
    var emitted := node(s).emitted;
    assert OnlyEmitted(emitted);
    var items := NewLogs(s, node(s).state);
    var end := NodeFinished(name, node(s).state.failed, node(s).state.phase);
    NoLogs([NodeStarted(name)]);
    NoLogs(emitted);
    NoLogs([end]);
    LogsBack(items);
    LogsAppend([NodeStarted(name)], emitted);
    LogsAppend([NodeStarted(name)] + emitted, LogEvents(items));
    LogsAppend([NodeStarted(name)] + emitted + LogEvents(items), [end]);
  }

  lemma IterationLogs(nodes: Nodes, s: AgentState)
    requires AllAppend(nodes) && Iterate(nodes, s).Executed?
    ensures var turn := Iterate(nodes, s);
            s.logs <= turn.state.logs && LogsOf(turn.events) == turn.state.logs[|s.logs|..]
  {
    hide LogsOf, RunNode, PlainEmitter, Appends, CurrentStep;
    if ShouldPlan(s) {
      NodeLogs(s, PlannerNode, nodes.planner);
    } else {
      NodeLogs(s, SelectNode, nodes.select);
      var selected := RunNode(s, SelectNode, nodes.select);
      var chosen := selected.state;
      NodeLogs(chosen, LoopNode, nodes.react);
      var reacted := RunNode(chosen, LoopNode, nodes.react);
      NoLogs(StartedEvents(chosen));
      NoLogs(FinishedEvents(reacted.state));
      LogsAppend(selected.events, StartedEvents(chosen));
      LogsAppend(selected.events + StartedEvents(chosen), reacted.events);
      LogsAppend(selected.events + StartedEvents(chosen) + reacted.events, FinishedEvents(reacted.state));
      TailsJoin(s.logs, chosen.logs, reacted.state.logs);
    }
  }

  lemma TailsJoin(a: seq<LogItem>, b: seq<LogItem>, c: seq<LogItem>)
    requires a <= b <= c
    ensures b[|a|..] + c[|b|..] == c[|a|..]
  {
  }

  /** Every log item is emitted exactly once and in order: the log events of the first `n` iterations are
      exactly the items added to the state's log. */
  lemma {:induction false} LogsOnce(nodes: Nodes, s: AgentState, n: nat)
    requires AllAppend(nodes) && After(nodes, s, n).Some?
    ensures var after := After(nodes, s, n).value;
            s.logs <= after.logs && LogsOf(Legacy(nodes, s, n).events) == after.logs[|s.logs|..]
    decreases n
  {
    hide Iterate, LogsOf, AllAppend;
    if n == 0 {
      NoLogs([]);
    } else {
      IterationLogs(nodes, s);
      var turn := Iterate(nodes, s);
      LogsOnce(nodes, turn.state, n - 1);
      LogsAppend(turn.events, Legacy(nodes, turn.state, n - 1).events);
      TailsJoin(s.logs, turn.state.logs, After(nodes, s, n).value.logs);
    }
  }
}
