/** The CLI's reader of an event stream: it buffers events until it knows its run. */
module CliStream {
  import opened Common
  import opened EventHubModel

  /** What `read_result_response` makes of a reply whose identifier matches. */
  datatype ReplyBody =
    | Failed(message: string)           // wrong version, error object, or no result
    | NotObject                         // a result that is not an object
    | Object(runId: Option<string>)     // `None`: no string under "run_id"

  /** `Push(None)` is an event push without an event object. */
  datatype Message = Push(event: Option<Event>) | Reply(id: string, body: ReplyBody)

  datatype Outcome = Exit(code: int) | Raised(message: string)

  const CLOSED := "daemon connection closed"

  predicate IsFinish(event: Event) {
    event.eventType == Some("run.finished")
  }

  function ExitCode(finish: Event): int {
    if finish.status == Some("finished") then 0 else 1
  }

  // ----- the parts of a stream -----

  predicate WellFormed(messages: seq<Message>) {
    forall i :: 0 <= i < |messages| ==> messages[i] != Push(None)
  }

  predicate IsEvent(message: Message) {
    message.Push? && message.event.Some?
  }

  /** The first message from `start` on that is not an event: a reply, or a malformed push. */
  function FirstOther(messages: seq<Message>, start: nat): (i: nat)
    requires start <= |messages|
    ensures start <= i <= |messages|
    ensures forall k :: start <= k < i ==> IsEvent(messages[k])
    ensures i < |messages| ==> !IsEvent(messages[i])
    decreases |messages| - start
  {
    if start < |messages| && IsEvent(messages[start]) then FirstOther(messages, start + 1) else start
  }

  /** The events pushed, in arrival order. */
  function Pushes(messages: seq<Message>): seq<Event> {
    if messages == [] then []
    else
      var last := messages[|messages| - 1];
      Pushes(messages[..|messages| - 1]) + if last.Push? && last.event.Some? then [last.event.value] else []
  }

  /** The events of one run. */
  function Own(events: seq<Event>, runId: string): seq<Event> {
    if events == [] then []
    else (if events[0].runId == Some(runId) then [events[0]] else []) + Own(events[1..], runId)
  }

  predicate HasFinish(events: seq<Event>) {
    exists i :: 0 <= i < |events| && IsFinish(events[i])
  }

  /** Everything up to and including the first `run.finished`. */
  function ThroughFinish(events: seq<Event>): (r: seq<Event>)
    ensures HasFinish(events) ==> r != []
  {
    if events == [] then []
    else if IsFinish(events[0]) then [events[0]]
    else
      assert forall i :: 1 <= i < |events| ==> events[i] == events[1..][i - 1];
      [events[0]] + ThroughFinish(events[1..])
  }

  lemma FinishMeans(event: Event)
    ensures IsFinish(event) <==> event.eventType == Some("run.finished")
    ensures ExitCode(event) == if event.status == Some("finished") then 0 else 1
  {
  }

  /** What the reader must do with the events it gets after the handshake with `runId`. */
  ghost predicate Handles(events: seq<Event>, runId: string, handled: seq<Event>, code: Option<int>) {
    && handled == ThroughFinish(Own(events, runId))
    && (code.Some? <==> HasFinish(Own(events, runId)))
    && (code.Some? ==> handled != [] && IsFinish(handled[|handled| - 1])
                       && code.value == ExitCode(handled[|handled| - 1]))
  }

  /** The replies the reader waits for: after any events the reply to the subscription, after any
      further events the reply to the run request, which names the run. */
  predicate Greets(messages: seq<Message>, subscribeId: string, requestId: string) {
    var a := FirstOther(messages, 0);
    && a < |messages| && messages[a].Reply? && messages[a].id == subscribeId && messages[a].body.Object?
    && var n := FirstOther(messages, a + 1);
       && n < |messages| && messages[n].Reply? && messages[n].id == requestId && messages[n].body.Object?
       && messages[n].body.runId.Some? && messages[n].body.runId.value != ""
  }

  function RunIdOf(messages: seq<Message>, subscribeId: string, requestId: string): string
    requires Greets(messages, subscribeId, requestId)
  {
    messages[FirstOther(messages, FirstOther(messages, 0) + 1)].body.runId.value
  }

  /** The reader has taken in the first `m` messages and handled what is due in them; it stopped at
      the end of the run, at the end of the stream, or at a malformed push. */
  ghost predicate ReadUpTo(messages: seq<Message>, m: nat, runId: string, outcome: Outcome, handled: seq<Event>) {
    && m <= |messages| && WellFormed(messages[..m])
    && Handles(Pushes(messages[..m]), runId, handled, if outcome.Exit? then Some(outcome.code) else None)
    && (outcome.Raised? ==> m == |messages| || messages[m] == Push(None))
  }

  // ----- lemmas -----

  lemma PushesSnoc(messages: seq<Message>, i: nat)
    requires i < |messages|
    ensures Pushes(messages[..i + 1]) == Pushes(messages[..i])
            + if messages[i].Push? && messages[i].event.Some? then [messages[i].event.value] else []
  {
    assert messages[..i + 1][..i] == messages[..i];
  }

  lemma {:induction false} OwnAppend(a: seq<Event>, b: seq<Event>, runId: string)
    ensures Own(a + b, runId) == Own(a, runId) + Own(b, runId)
  {
    if a == [] {
      assert a + b == b;
    } else {
      OwnAppend(a[1..], b, runId);
      assert (a + b)[1..] == a[1..] + b && (a + b)[0] == a[0];
      var first := if a[0].runId == Some(runId) then [a[0]] else [];
      assert first + (Own(a[1..], runId) + Own(b, runId)) == (first + Own(a[1..], runId)) + Own(b, runId);
    }
  }

  lemma {:induction false} ThroughAppend(a: seq<Event>, b: seq<Event>)
    ensures ThroughFinish(a + b) == if HasFinish(a) then ThroughFinish(a) else a + ThroughFinish(b)
    ensures HasFinish(a + b) <==> HasFinish(a) || HasFinish(b)
  {
    hide IsFinish, HasFinish;
    if a == [] {
      assert a + b == b;
      NoFinish();
    } else {
      ThroughAppend(a[1..], b);
      assert (a + b)[1..] == a[1..] + b;
      FinishFirst(a);
      FinishFirst(a + b);
      assert [a[0]] + (a[1..] + ThroughFinish(b)) == a + ThroughFinish(b);
    }
  }

  lemma NoFinish()
    ensures !HasFinish([])
  {
  }

  lemma FinishFirst(events: seq<Event>)
    requires events != []
    ensures HasFinish(events) <==> IsFinish(events[0]) || HasFinish(events[1..])
  {
    hide IsFinish;
    assert events == [events[0]] + events[1..];
    if i :| 0 <= i < |events| && IsFinish(events[i]) {
      if i > 0 {
        assert events[1..][i - 1] == events[i];
      }
    }
  }

  /** One more event before any finish of the run. */
  lemma HandleOne(events: seq<Event>, event: Event, runId: string, handled: seq<Event>)
    requires Handles(events, runId, handled, None)
    ensures if event.runId != Some(runId) then Handles(events + [event], runId, handled, None)
            else Handles(events + [event], runId, handled + [event],
                         if IsFinish(event) then Some(ExitCode(event)) else None)
  {
    hide IsFinish, ExitCode;
    OwnAppend(events, [event], runId);
    var mine := Own([event], runId);
    assert mine == if event.runId == Some(runId) then [event] else [];
    ThroughAppend(Own(events, runId), []);
    assert Own(events, runId) + [] == Own(events, runId);
    ThroughAppend(Own(events, runId), mine);
    if mine != [] {
      FinishFirst(mine);
      assert mine[1..] == [];
    } else {
      assert Own(events, runId) + [] == Own(events, runId);
    }
  }

  /** Once the run has finished, later events change nothing. */
  lemma HandleMore(events: seq<Event>, more: seq<Event>, runId: string, handled: seq<Event>, code: int)
    requires Handles(events, runId, handled, Some(code))
    ensures Handles(events + more, runId, handled, Some(code))
  {
    hide IsFinish, ExitCode;
    OwnAppend(events, more, runId);
    ThroughAppend(Own(events, runId), Own(more, runId));
  }

  lemma HandleNothing(runId: string)
    ensures Handles([], runId, [], None)
  {
  }

  lemma {:induction false} PushesAppend(a: seq<Message>, b: seq<Message>)
    ensures Pushes(a + b) == Pushes(a) + Pushes(b)
    decreases |b|
  {
    if b == [] {
      assert a + b == a;
    } else {
      var init := b[..|b| - 1];
      PushesAppend(a, init);
      assert (a + b)[..|a + b| - 1] == a + init;
    }
  }

  /** An exit comes from the event handled last: it finishes the run, and its status gives the code. */
  lemma ExitMeans(events: seq<Event>, runId: string, handled: seq<Event>, code: int)
    requires Handles(events, runId, handled, Some(code))
    ensures handled != [] && handled[|handled| - 1].eventType == Some("run.finished")
    ensures code == if handled[|handled| - 1].status == Some("finished") then 0 else 1
  {
    hide ThroughFinish, Own, HasFinish;
  }

  // ----- the reader -----

  function ReadResult(message: Message, expectedId: string): (r: Result<ReplyBody>)
    requires message.Reply?
  {
    if message.body.Failed? then Err(message.body.message)
    else if message.id != expectedId then Err("response id does not match request id")
    else Ok(message.body)
  }

  /** Reads up to the next reply; all events on the way go to the buffer. */
  method ReadReply(messages: seq<Message>, start: nat, expectedId: string)
    returns (next: nat, body: Result<ReplyBody>)
    requires start <= |messages|
    ensures var i := FirstOther(messages, start);
            body.Ok? <==>
              i < |messages| && messages[i].Reply? && messages[i].id == expectedId && !messages[i].body.Failed?
    ensures body.Ok? ==> next == FirstOther(messages, start) + 1 && body.value == messages[next - 1].body
    ensures next <= |messages|
  {
    next := start;
    while next < |messages|
      invariant start <= next <= |messages| && FirstOther(messages, start) == FirstOther(messages, next)
    {
      var message := messages[next];
      if message.Push? {
        if message.event.None? {
          return next, Err("event push event must be an object");
        }
        next := next + 1;
        continue;
      }
      return next + 1, ReadResult(message, expectedId);
    }
    body := Err(CLOSED);
  }

  /** Replays the buffered events, then follows the stream; `buffered` messages are already read. */
  method Follow(messages: seq<Message>, buffered: nat, runId: string) returns (outcome: Outcome, handled: seq<Event>)
    requires buffered <= |messages| && WellFormed(messages[..buffered])
    ensures exists m: nat :: buffered <= m && ReadUpTo(messages, m, runId, outcome, handled)
  {
    hide Handles;
    var pending := Pushes(messages[..buffered]);
    handled := [];
    HandleNothing(runId);
    for i := 0 to |pending|
      invariant Handles(pending[..i], runId, handled, None)
    {
      var event := pending[i];
      HandleOne(pending[..i], event, runId, handled);
      assert pending[..i] + [event] == pending[..i + 1];
      if event.runId == Some(runId) {
        handled := handled + [event];
        if IsFinish(event) {
          HandleMore(pending[..i + 1], pending[i + 1..], runId, handled, ExitCode(event));
          assert pending[..i + 1] + pending[i + 1..] == pending;
          assert ReadUpTo(messages, buffered, runId, Exit(ExitCode(event)), handled);
          return Exit(ExitCode(event)), handled;
        }
      }
    }
    assert pending[..|pending|] == pending;
    for m := buffered to |messages|
      invariant WellFormed(messages[..m]) && Handles(Pushes(messages[..m]), runId, handled, None)
    {
      var message := messages[m];
      if message == Push(None) {
        assert ReadUpTo(messages, m, runId, Raised("event push event must be an object"), handled);
        return Raised("event push event must be an object"), handled;
      }
      PushesSnoc(messages, m);
      if message.Reply? {
        assert Pushes(messages[..m + 1]) == Pushes(messages[..m]);
        continue;
      }
      var event := message.event.value;
      HandleOne(Pushes(messages[..m]), event, runId, handled);
      if event.runId == Some(runId) {
        handled := handled + [event];
        if IsFinish(event) {
          assert ReadUpTo(messages, m + 1, runId, Exit(ExitCode(event)), handled);
          return Exit(ExitCode(event)), handled;
        }
      }
    }
    outcome := Raised(CLOSED);
    assert ReadUpTo(messages, |messages|, runId, outcome, handled);
  }

  /** The whole command. The stream `messages` ends where the connection closes. The last clause
      also covers streams with a malformed push behind the point where the run has finished. */
  method RunAgentStream(messages: seq<Message>, subscribeId: string, requestId: string)
    returns (outcome: Outcome, handled: seq<Event>)
    ensures !Greets(messages, subscribeId, requestId) ==> outcome.Raised? && handled == []
    ensures Greets(messages, subscribeId, requestId) && WellFormed(messages) ==>
              Handles(Pushes(messages), RunIdOf(messages, subscribeId, requestId), handled,
                      if outcome.Exit? then Some(outcome.code) else None)
    ensures outcome.Exit? ==>
              && handled != [] && handled[|handled| - 1].eventType == Some("run.finished")
              && outcome.code == (if handled[|handled| - 1].status == Some("finished") then 0 else 1)
    ensures Greets(messages, subscribeId, requestId) ==>
              exists m: nat :: ReadUpTo(messages, m, RunIdOf(messages, subscribeId, requestId), outcome, handled)
  {
    hide Handles, Pushes, FirstOther;
    var a, first := ReadReply(messages, 0, subscribeId);
    if first.Err? || !first.value.Object? {
      return Raised("RPC result must be an object"), [];
    }
    var n, second := ReadReply(messages, a, requestId);
    if second.Err? || !second.value.Object? || second.value.runId.None? || second.value.runId.value == "" {
      return Raised("agent.run result must include run_id"), [];
    }
    var runId := second.value.runId.value;
    assert forall i :: 0 <= i < n ==> messages[i] != Push(None);
    outcome, handled := Follow(messages, n, runId);
    ghost var m: nat :| n <= m && ReadUpTo(messages, m, runId, outcome, handled);
    if outcome.Exit? {
      ExitMeans(Pushes(messages[..m]), runId, handled, outcome.code);
    }
    assert Greets(messages, subscribeId, requestId) && RunIdOf(messages, subscribeId, requestId) == runId;
    if WellFormed(messages) {
      PushesAppend(messages[..m], messages[m..]);
      assert messages[..m] + messages[m..] == messages;
      if outcome.Exit? {
        HandleMore(Pushes(messages[..m]), Pushes(messages[m..]), runId, handled, outcome.code);
      } else {
        assert messages[..m] == messages;
      }
    }
  }

  function Published(history: seq<Publication>): seq<Event> {
    if history == [] then [] else Published(history[..|history| - 1]) + [history[|history| - 1].event]
  }

  /** `client` wanted every event of the run when it was published. */
  ghost predicate WantsRun(history: seq<Publication>, client: ClientId, runId: string) {
    forall i :: 0 <= i < |history| && history[i].event.runId == Some(runId) ==>
      Wants(history[i].subscriptions, client, history[i].event)
  }

  /** A client that wants every event of a run is owed every event of that run, whatever else it wants
      or misses. */
  lemma {:induction false} OwnRunReaches(history: seq<Publication>, client: ClientId, runId: string)
    requires WantsRun(history, client, runId)
    ensures Own(Owed(history, client), runId) == Own(Published(history), runId)
  {
    hide Wants;
    if history != [] {
      var init, last := history[..|history| - 1], history[|history| - 1];
      assert forall i :: 0 <= i < |init| ==> init[i] == history[i];
      OwnRunReaches(init, client, runId);
      OwnAppend(Owed(init, client), [last.event], runId);
      OwnAppend(Published(init), [last.event], runId);
      OwnOne(last.event, runId);
      assert Owed(init, client) + [] == Owed(init, client);
      assert Own(Owed(init, client), runId) + [] == Own(Owed(init, client), runId);
    }
  }

  lemma OwnOne(event: Event, runId: string)
    ensures Own([event], runId) == if event.runId == Some(runId) then [event] else []
  {
    assert [event][1..] == [];
  }

  /** From end to end. The stream has brought some of what the hub owes the client, in order, the rest
      being still queued, and the client has wanted every event of the run. Once the reader has ended
      with an exit code, it has handled exactly the run's published events up to the first
      `run.finished`, in order, and the code is that event's; events of other runs, wanted or not, and
      events published before the subscription do not matter. Before that it has handled an initial
      part of those events. */
  lemma EndToEnd(history: seq<Publication>, client: ClientId, messages: seq<Message>, queue: seq<Event>,
                 runId: string, handled: seq<Event>, code: Option<int>)
    requires WantsRun(history, client, runId)
    requires Pushes(messages) + queue == Owed(history, client)
    requires Handles(Pushes(messages), runId, handled, code)
    ensures code.Some? ==> Handles(Published(history), runId, handled, code)
    ensures code.None? ==> handled <= ThroughFinish(Own(Published(history), runId))
  {
    hide IsFinish, ExitCode, HasFinish;
    OwnRunReaches(history, client, runId);
    if code.Some? {
      HandleMore(Pushes(messages), queue, runId, handled, code.value);
    } else {
      OwnAppend(Pushes(messages), queue, runId);
      ThroughAppend(Own(Pushes(messages), runId), []);
      assert Own(Pushes(messages), runId) + [] == Own(Pushes(messages), runId);
      ThroughAppend(Own(Pushes(messages), runId), Own(queue, runId));
    }
  }

  /** The CLI's own subscription, all topics and any run, matches every event that has a type. */
  lemma StarWantsAll(subscriptions: seq<Subscription>, i: nat, event: Event)
    requires i < |subscriptions| && subscriptions[i].topics == ["*"] && subscriptions[i].runId == None
    requires event.eventType.Some? && event.eventType.value != ""
    ensures Wants(subscriptions, subscriptions[i].client, event)
  {
    assert TopicMatches(subscriptions[i].topics[0], event.eventType.value);
    assert SubscriptionMatches(subscriptions[i], event);
  }
}
