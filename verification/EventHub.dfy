/** Event fan-out: bounded queues per client, removal of a client whose queue is full. */
module EventHubModel {
  import opened Common

  /** `None` stands for a field that is missing or not a string. */
  datatype Event = Event(eventType: Option<string>, runId: Option<string>, status: Option<string>, payload: string)

  type ClientId = string

  datatype Subscription = Subscription(id: string, client: ClientId, topics: seq<string>, runId: Option<string>)

  predicate TopicMatches(topic: string, eventType: string) {
    if topic == "*" then true
    else if topic != "" && topic[|topic| - 1] == '*' then topic[..|topic| - 1] <= eventType
    else topic == eventType
  }

  predicate SubscriptionMatches(subscription: Subscription, event: Event) {
    && (subscription.runId.Some? ==> event.runId == subscription.runId)
    && event.eventType.Some? && event.eventType.value != ""
    && exists i :: 0 <= i < |subscription.topics| && TopicMatches(subscription.topics[i], event.eventType.value)
  }

  /** Some subscription of the client matches the event. */
  predicate Wants(subscriptions: seq<Subscription>, client: ClientId, event: Event) {
    exists i :: 0 <= i < |subscriptions|
                && subscriptions[i].client == client && SubscriptionMatches(subscriptions[i], event)
  }

  /** An event together with the subscriptions in force when it was published. */
  datatype Publication = Publication(event: Event, subscriptions: seq<Subscription>)

  /** The events of `history` that `client` wanted when they were published, in order. */
  function Owed(history: seq<Publication>, client: ClientId): seq<Event> {
    if history == [] then []
    else
      var last := history[|history| - 1];
      Owed(history[..|history| - 1], client)
      + if Wants(last.subscriptions, client, last.event) then [last.event] else []
  }

  lemma OwedSnoc(history: seq<Publication>, p: Publication, client: ClientId)
    ensures Owed(history + [p], client)
         == Owed(history, client) + if Wants(p.subscriptions, client, p.event) then [p.event] else []
  {
    assert (history + [p])[..|history|] == history;
  }

  /** The subscriptions of the clients that are still there. */
  function KeepClients(subscriptions: seq<Subscription>, clients: set<ClientId>): (r: seq<Subscription>)
    ensures forall i :: 0 <= i < |r| ==> r[i].client in clients
  {
    if subscriptions == [] then []
    else
      (if subscriptions[0].client in clients then [subscriptions[0]] else [])
      + KeepClients(subscriptions[1..], clients)
  }

  lemma {:induction false} KeepAll(subscriptions: seq<Subscription>, clients: set<ClientId>)
    requires forall i :: 0 <= i < |subscriptions| ==> subscriptions[i].client in clients
    ensures KeepClients(subscriptions, clients) == subscriptions
  {
    if subscriptions != [] {
      KeepAll(subscriptions[1..], clients);
    }
  }

  lemma {:induction false} KeepTwice(subscriptions: seq<Subscription>, clients: set<ClientId>, fewer: set<ClientId>)
    requires fewer <= clients
    ensures KeepClients(KeepClients(subscriptions, clients), fewer) == KeepClients(subscriptions, fewer)
  {
    if subscriptions != [] {
      KeepTwice(subscriptions[1..], clients, fewer);
      var rest := KeepClients(subscriptions[1..], clients);
      if subscriptions[0].client in clients {
        assert ([subscriptions[0]] + rest)[1..] == rest;
      } else {
        assert [] + rest == rest;
        assert [] + KeepClients(subscriptions[1..], fewer) == KeepClients(subscriptions[1..], fewer);
      }
    }
  }

  lemma WantsSnoc(subscriptions: seq<Subscription>, i: nat, client: ClientId, event: Event)
    requires i < |subscriptions|
    ensures Wants(subscriptions[..i + 1], client, event) <==>
            || Wants(subscriptions[..i], client, event)
            || (subscriptions[i].client == client && SubscriptionMatches(subscriptions[i], event))
  {
    hide SubscriptionMatches;
    var more := subscriptions[..i + 1];
    if Wants(subscriptions[..i], client, event) {
      var fewer := subscriptions[..i];
      var k :| 0 <= k < i && fewer[k].client == client && SubscriptionMatches(fewer[k], event);
      assert more[k].client == client && SubscriptionMatches(more[k], event);
    }
    if subscriptions[i].client == client && SubscriptionMatches(subscriptions[i], event) {
      assert more[i].client == client && SubscriptionMatches(more[i], event);
    }
    if Wants(more, client, event) {
      var k :| 0 <= k < |more| && more[k].client == client && SubscriptionMatches(more[k], event);
      if k < i {
        assert subscriptions[..i][k] == more[k];
      }
    }
  }

  predicate IsFull(maxQueueSize: int, queue: seq<Event>) {
    maxQueueSize > 0 && |queue| >= maxQueueSize
  }

  type Queues = map<ClientId, seq<Event>>

  /** The client is registered, and not removed because it wants the event with a full queue. */
  ghost predicate Stays(client: ClientId, seen: seq<Subscription>, event: Event, before: Queues, max: int) {
    client in before && !(Wants(seen, client, event) && IsFull(max, before[client]))
  }

  /** The fan-out after the subscriptions `seen`: who stays, who was reached, and every queue. */
  ghost predicate Fanned(before: Queues, seen: seq<Subscription>, event: Event, max: int,
                         queues: Queues, reached: set<ClientId>) {
    && (forall c :: c in queues <==> Stays(c, seen, event, before, max))
    && (forall c :: c in queues ==>
          && queues[c] == before[c] + (if Wants(seen, c, event) then [event] else [])
          && (c in reached <==> Wants(seen, c, event)))
  }

  lemma FanStart(before: Queues, event: Event, max: int)
    ensures Fanned(before, [], event, max, before, {})
  {
  }

  /** One turn of the fan-out loop. */
  lemma FanTurn(before: Queues, all: seq<Subscription>, i: nat, event: Event, max: int,
                queues: Queues, reached: set<ClientId>)
    requires i < |all| && Fanned(before, all[..i], event, max, queues, reached)
    ensures var c := all[i].client;
            if c in reached || !SubscriptionMatches(all[i], event) || c !in queues then
              Fanned(before, all[..i + 1], event, max, queues, reached)
            else if IsFull(max, queues[c]) then
              Fanned(before, all[..i + 1], event, max, queues - {c}, reached)
            else
              Fanned(before, all[..i + 1], event, max, queues[c := queues[c] + [event]], reached + {c})
  {
    hide Wants, SubscriptionMatches;
    forall other: ClientId
      ensures Wants(all[..i + 1], other, event) <==>
              || Wants(all[..i], other, event)
              || (all[i].client == other && SubscriptionMatches(all[i], event))
    {
      WantsSnoc(all, i, other, event);
    }
  }

  /** What was sent to a client, followed by what is queued for it, is exactly what was published
      since its registration and matched one of its subscriptions at that time. */
  ghost predicate Delivered(client: ClientId, sent: seq<Event>, queue: seq<Event>,
                            history: seq<Publication>, since: nat) {
    since <= |history| && sent + queue == Owed(history[since..], client)
  }

  lemma DeliveredNext(client: ClientId, sent: seq<Event>, queue: seq<Event>,
                      history: seq<Publication>, since: nat, p: Publication)
    requires Delivered(client, sent, queue, history, since)
    ensures Delivered(client, sent, queue + (if Wants(p.subscriptions, client, p.event) then [p.event] else []),
                      history + [p], since)
  {
    hide Wants;
    assert (history + [p])[since..] == history[since..] + [p];
    OwedSnoc(history[since..], p, client);
  }

  lemma DeliveredSent(client: ClientId, sent: seq<Event>, queue: seq<Event>, history: seq<Publication>, since: nat)
    requires Delivered(client, sent, queue, history, since) && queue != []
    ensures Delivered(client, sent + [queue[0]], queue[1..], history, since)
  {
    assert sent + [queue[0]] + queue[1..] == sent + queue;
  }

  /** Every registered client has been delivered what it was owed, within the bound on its queue. */
  ghost predicate AllDelivered(queues: Queues, sent: map<ClientId, seq<Event>>, since: map<ClientId, nat>,
                               history: seq<Publication>, max: int) {
    && queues.Keys == sent.Keys == since.Keys
    && (forall c :: c in queues ==> Delivered(c, sent[c], queues[c], history, since[c]))
    && (forall c :: c in queues && max > 0 ==> |queues[c]| <= max)
  }

  lemma FannedDelivers(before: Queues, sent: map<ClientId, seq<Event>>, since: map<ClientId, nat>,
                       history: seq<Publication>, max: int, p: Publication, queues: Queues, reached: set<ClientId>)
    requires AllDelivered(before, sent, since, history, max)
    requires Fanned(before, p.subscriptions, p.event, max, queues, reached)
    ensures AllDelivered(queues, sent - (sent.Keys - queues.Keys), since - (since.Keys - queues.Keys),
                         history + [p], max)
    ensures queues.Keys <= before.Keys == sent.Keys == since.Keys
    ensures forall c :: c in queues <==> Stays(c, p.subscriptions, p.event, before, max)
    ensures forall c :: c in before ==>
              (c !in queues <==> Wants(p.subscriptions, c, p.event) && max > 0 && |before[c]| >= max)
    ensures forall c :: c in queues ==>
              queues[c] == before[c] + (if Wants(p.subscriptions, c, p.event) then [p.event] else [])
  {
    hide Wants, Delivered;
    forall c | c in queues ensures Delivered(c, sent[c], queues[c], history + [p], since[c]) {
      DeliveredNext(c, sent[c], before[c], history, since[c], p);
    }
  }

  /** The subscriptions other than the one with the given identifier. */
  function DropId(subscriptions: seq<Subscription>, id: string): seq<Subscription> {
    if subscriptions == [] then []
    else (if subscriptions[0].id == id then [] else [subscriptions[0]]) + DropId(subscriptions[1..], id)
  }

  lemma {:induction false} DropIdClients(subscriptions: seq<Subscription>, id: string, clients: set<ClientId>)
    requires forall i :: 0 <= i < |subscriptions| ==> subscriptions[i].client in clients
    ensures forall i :: 0 <= i < |DropId(subscriptions, id)| ==> DropId(subscriptions, id)[i].client in clients
  {
    if subscriptions != [] {
      DropIdClients(subscriptions[1..], id, clients);
    }
  }

  // ----- matching -----

  /** Topics: "*" matches every type, a topic that ends with "*" every type it is a prefix of without the
      star, any other topic the type that is the same. */
  lemma TopicMeans(topic: string, eventType: string)
    ensures TopicMatches(topic + "*", eventType) <==> topic <= eventType
    ensures topic == "" || topic[|topic| - 1] != '*' ==> (TopicMatches(topic, eventType) <==> topic == eventType)
  {
    assert (topic + "*")[..|topic|] == topic;
  }

  /** What a client with one subscription gets: events that have a type, of the run it asked for if it
      asked for one, whose type some topic matches. */
  lemma WantsMeans(s: Subscription, client: ClientId, event: Event)
    ensures Wants([s], client, event) <==>
            && s.client == client
            && event.eventType.Some? && event.eventType.value != ""
            && (s.runId == None || event.runId == s.runId)
            && exists i :: 0 <= i < |s.topics| && TopicMatches(s.topics[i], event.eventType.value)
    ensures !Wants([], client, event)
  {
    hide TopicMatches;
    assert [s][0] == s;
  }

  lemma WantsAny(a: seq<Subscription>, b: seq<Subscription>, client: ClientId, event: Event)
    ensures Wants(a + b, client, event) <==> Wants(a, client, event) || Wants(b, client, event)
  {
    hide SubscriptionMatches;
    var all := a + b;
    if i :| 0 <= i < |a| && a[i].client == client && SubscriptionMatches(a[i], event) {
      assert all[i] == a[i];
    }
    if i :| 0 <= i < |b| && b[i].client == client && SubscriptionMatches(b[i], event) {
      assert all[|a| + i] == b[i];
    }
    if i :| 0 <= i < |all| && all[i].client == client && SubscriptionMatches(all[i], event) {
      assert i >= |a| ==> all[i] == b[i - |a|];
    }
  }

  /** Which subscriptions stay when clients go, or when one is cancelled: in order, exactly those of the
      other clients, or with another identifier. */
  lemma SubscriptionsStay(s: Subscription, more: seq<Subscription>, clients: set<ClientId>, id: string)
    ensures KeepClients([s] + more, clients) == (if s.client in clients then [s] else []) + KeepClients(more, clients)
    ensures DropId([s] + more, id) == (if s.id != id then [s] else []) + DropId(more, id)
    ensures KeepClients([], clients) == [] && DropId([], id) == []
  {
    assert ([s] + more)[1..] == more;
  }

  class EventHub {
    const maxQueueSize: int
    var queues: Queues                          // the registered clients
    var sent: map<ClientId, seq<Event>>         // what each client's send loop has written
    var subscriptions: seq<Subscription>
    ghost var history: seq<Publication>
    ghost var since: map<ClientId, nat>         // length of the history at registration

    ghost predicate Valid()
      reads this
    {
      && AllDelivered(queues, sent, since, history, maxQueueSize)
      && (forall i :: 0 <= i < |subscriptions| ==> subscriptions[i].client in queues)
    }

    constructor (maxQueueSize: int)
      ensures Valid() && queues == map[] && subscriptions == [] && history == []
      ensures this.maxQueueSize == maxQueueSize
    {
      this.maxQueueSize := maxQueueSize;
      queues, sent, subscriptions, history, since := map[], map[], [], [], map[];
    }

    /** `client` is a new unique identifier. */
    method RegisterClient(client: ClientId)
      requires Valid() && client !in queues
      modifies this
      ensures Valid()
      ensures queues == old(queues)[client := []] && sent == old(sent)[client := []]
      ensures subscriptions == old(subscriptions) && history == old(history)
      ensures since == old(since)[client := |history|]
    {
      queues, sent, since := queues[client := []], sent[client := []], since[client := |history|];
      assert history[|history|..] == [];
    }

    method Subscribe(client: ClientId, id: string, topics: seq<string>, runId: Option<string>)
      returns (r: Result<Subscription>)
      requires Valid()
      modifies this
      ensures Valid()
      ensures queues == old(queues) && sent == old(sent) && history == old(history) && since == old(since)
      ensures r.Ok? <==> client in queues
      ensures subscriptions == old(subscriptions) + if r.Ok? then [r.value] else []
      ensures r.Ok? ==> r.value == Subscription(id, client, topics, runId)
    {
      if client !in queues {
        return Err("unknown client_id");
      }
      var subscription := Subscription(id, client, topics, runId);
      subscriptions := subscriptions + [subscription];
      r := Ok(subscription);
    }

    method Unsubscribe(id: string)
      requires Valid()
      modifies this
      ensures Valid()
      ensures queues == old(queues) && sent == old(sent) && history == old(history) && since == old(since)
      ensures subscriptions == DropId(old(subscriptions), id)
    {
      DropIdClients(subscriptions, id, queues.Keys);
      subscriptions := DropId(subscriptions, id);
    }

    /** No subscription outlives its client. */
    method RemoveClient(client: ClientId)
      requires Valid()
      modifies this
      ensures Valid()
      ensures queues == old(queues) - {client} && sent == old(sent) - {client}
      ensures since == old(since) - {client} && history == old(history)
      ensures subscriptions == KeepClients(old(subscriptions), queues.Keys)
    {
      hide Delivered, KeepClients;
      queues, sent, since := queues - {client}, sent - {client}, since - {client};
      subscriptions := KeepClients(subscriptions, queues.Keys);
    }

    /** One turn of a client's send loop. */
    method SendOne(client: ClientId) returns (event: Event)
      requires Valid() && client in queues && queues[client] != []
      modifies this
      ensures Valid()
      ensures event == old(queues)[client][0]
      ensures queues == old(queues)[client := old(queues)[client][1..]]
      ensures sent == old(sent)[client := old(sent)[client] + [event]]
      ensures subscriptions == old(subscriptions) && history == old(history) && since == old(since)
    {
      hide Delivered;
      DeliveredSent(client, sent[client], queues[client], history, since[client]);
      event := queues[client][0];
      queues, sent := queues[client := queues[client][1..]], sent[client := sent[client] + [event]];
    }

    /** Every registered client that wants the event gets it once at the end of its queue, unless
        the queue is full: then the client and all its subscriptions are gone. */
    method Publish(event: Event)
      requires Valid()
      modifies this
      ensures Valid()
      ensures history == old(history) + [Publication(event, old(subscriptions))]
      ensures queues.Keys <= old(queues.Keys)
      ensures forall c :: c in queues <==> Stays(c, old(subscriptions), event, old(queues), maxQueueSize)
      ensures forall c :: c in old(queues) ==>
                (c !in queues <==> && Wants(old(subscriptions), c, event) && maxQueueSize > 0
                                   && |old(queues)[c]| >= maxQueueSize)
      ensures forall c :: c in queues ==>
                && queues[c] == old(queues)[c] + (if Wants(old(subscriptions), c, event) then [event] else [])
                && sent[c] == old(sent)[c] && since[c] == old(since)[c]
      ensures subscriptions == KeepClients(old(subscriptions), queues.Keys)
    {
      hide Wants, SubscriptionMatches, AllDelivered, KeepClients, Stays, Fanned;
      ghost var before := queues;
      ghost var p := Publication(event, subscriptions);
      FanOut(event);
      ghost var reached :| Fanned(before, p.subscriptions, event, maxQueueSize, queues, reached);
      FannedDelivers(before, sent, since, history, maxQueueSize, p, queues, reached);
      sent, since := sent - (sent.Keys - queues.Keys), since - (since.Keys - queues.Keys);
      history := history + [p];
    }

    /** The loop over the subscriptions in force. */
    method FanOut(event: Event)
      requires forall i :: 0 <= i < |subscriptions| ==> subscriptions[i].client in queues
      modifies this`queues, this`subscriptions
      ensures exists reached: set<ClientId> ::
                Fanned(old(queues), old(subscriptions), event, maxQueueSize, queues, reached)
      ensures subscriptions == KeepClients(old(subscriptions), queues.Keys)
    {
      hide Wants, SubscriptionMatches, Fanned, IsFull, KeepClients, Stays;
      ghost var before := queues;
      var snapshot := subscriptions;
      var sentClients: set<ClientId> := {};
      KeepAll(subscriptions, queues.Keys);
      FanStart(queues, event, maxQueueSize);
      for i := 0 to |snapshot|
        invariant Fanned(before, snapshot[..i], event, maxQueueSize, queues, sentClients)
        invariant subscriptions == KeepClients(snapshot, queues.Keys)
      {
        var subscription := snapshot[i];
        var c := subscription.client;
        FanTurn(before, snapshot, i, event, maxQueueSize, queues, sentClients);
        if c in sentClients || !SubscriptionMatches(subscription, event) || c !in queues {
          continue;
        }
        if IsFull(maxQueueSize, queues[c]) {
          KeepTwice(snapshot, queues.Keys, queues.Keys - {c});
          assert (queues - {c}).Keys == queues.Keys - {c};
          queues := queues - {c};
          subscriptions := KeepClients(subscriptions, queues.Keys);
        } else {
          assert queues[c := queues[c] + [event]].Keys == queues.Keys;
          queues := queues[c := queues[c] + [event]];
          sentClients := sentClients + {c};
        }
      }
      assert snapshot[..|snapshot|] == snapshot;
    }
  }
}
