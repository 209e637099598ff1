/**
 * The plotter backend's shared state and the handlers that touch it.
 *
 * The server keeps two dictionaries, `subscribers` (topic to subscription
 * handle) and `latestPayloads` (topic to the last envelope received), guarded
 * by one lock. Every handler's critical section runs under that lock, so
 * each handler is one atomic method here. What a handler emits is returned
 * as the sequence of events it sent, in order. Each state-changing handler
 * is proved to move the state exactly as the matching function of module
 * Registry does; the properties of those functions are in module Properties
 * and module Traces.
 */
module Server {
  import opened Wrappers
  import opened Messages
  import opened Registry
  import Properties

  /**
   * A middleware subscription handle, bound to one topic. Creating one starts
   * message delivery for the topic; `Unregister` stops it.
   */
  class Subscription {
    const topic: Topic
    /** How many times the handle has been unregistered. */
    ghost var unregisterCalls: nat

    constructor (topic: Topic)
      ensures this.topic == topic && unregisterCalls == 0
    {
      this.topic := topic;
      unregisterCalls := 0;
    }

    method Unregister()
      modifies this
      ensures unregisterCalls == old(unregisterCalls) + 1
    {
      unregisterCalls := unregisterCalls + 1;
    }
  }

  class Server {
    var subscribers: map<Topic, Subscription>
    var latestPayloads: map<Topic, Envelope>
    /** How many subscription handles the server has created. */
    ghost var subscriptionsMade: nat

    /**
     * Each registered topic has its own live handle (bound to that topic and
     * never unregistered), so there is at most one handle per topic, and each
     * cache entry is stamped with its own topic.
     */
    ghost predicate Valid()
      reads this, subscribers.Values
    {
      && (forall t :: t in subscribers ==> subscribers[t].topic == t && subscribers[t].unregisterCalls == 0)
      && WellStamped(latestPayloads)
    }

    /** The registry and cache as a value. */
    ghost function State(): View
      reads this
    {
      View(subscribers.Keys, latestPayloads)
    }

    /** A server starts with no subscriptions and an empty cache. */
    constructor ()
      ensures Valid()
      ensures subscribers == map[] && latestPayloads == map[] && subscriptionsMade == 0
    {
      subscribers := map[];
      latestPayloads := map[];
      subscriptionsMade := 0;
    }

    /**
     * Handles a client's `subscribe` request. `typeResolves` is whether the
     * middleware can resolve the topic's message type; it is consulted only
     * for a topic that is not yet registered. A new handle is created only
     * for a newly registered topic; existing handles are kept.
     */
    method HandleSubscribe(data: Option<string>, typeResolves: bool) returns (emitted: seq<Event>)
      requires Valid()
      modifies this
      ensures Valid()
      ensures Reply(State(), emitted) == Subscribe(old(State()), data, typeResolves)
      ensures forall t :: t in old(subscribers) ==> t in subscribers && subscribers[t] == old(subscribers)[t]
      ensures forall t :: t in subscribers && t !in old(subscribers) ==> fresh(subscribers[t])
      ensures subscriptionsMade == old(subscriptionsMade) + if subscribers == old(subscribers) then 0 else 1
    {
      var topicName := TopicOf(data);
      if topicName.None? {
        return [];
      }
      var t := topicName.value;
      if t !in subscribers {
        if !typeResolves {
          return [ServerLog(Error, TypeNotFoundMsg(t))];
        }
        var handle := new Subscription(t);
        subscribers := subscribers[t := handle];
        subscriptionsMade := subscriptionsMade + 1;
      }
      emitted := [SubscribeAck(t)];
    }

    /**
     * Handles a client's `unsubscribe` request. The topic's handle, if any,
     * is unregistered exactly once; no other handle is touched.
     */
    method HandleUnsubscribe(data: Option<string>) returns (emitted: seq<Event>)
      requires Valid()
      modifies this, subscribers.Values
      ensures Valid()
      ensures Reply(State(), emitted) == Unsubscribe(old(State()), data)
      ensures forall t :: t in subscribers ==> subscribers[t] == old(subscribers)[t]
      ensures forall t :: t in old(subscribers) ==>
                old(subscribers)[t].unregisterCalls == if TopicOf(data) == Some(t) then 1 else 0
      ensures subscriptionsMade == old(subscriptionsMade)
    {
      var topicName := TopicOf(data);
      if topicName.None? {
        return [];
      }
      var t := topicName.value;
      if t in subscribers {
        var handle := subscribers[t];
        handle.Unregister();
        subscribers := subscribers - {t};
      }
      if t in latestPayloads {
        latestPayloads := latestPayloads - {t};
      }
      emitted := [ServerLog(Info, UnsubscribedMsg(t))];
    }

    /**
     * The subscription callback for one message on `topicName`. `decoded` is
     * the converter's output (None when it raised) and `now` the middleware
     * clock. Emits nothing.
     */
    method RecordArrival(topicName: Topic, decoded: Option<Value>, now: real)
      requires Valid()
      modifies this
      ensures Valid()
      ensures State() == Arrive(old(State()), topicName, decoded, now)
      ensures subscribers == old(subscribers) && subscriptionsMade == old(subscriptionsMade)
    {
      if decoded.Some? {
        latestPayloads := latestPayloads[topicName := Envelope(topicName, now, decoded.value)];
      }
    }

    /**
     * One tick of the broadcast loop: snapshot the cache and, when it is not
     * empty, emit one batch of all its envelopes. The order of the batch is
     * the order `order` in which the loop visits the topics.
     */
    method Tick() returns (emitted: seq<Event>, ghost order: seq<Topic>)
      ensures latestPayloads == map[] ==> emitted == []
      ensures latestPayloads != map[] ==>
                |emitted| == 1 && emitted[0].DataBatch? && IsBatchOf(emitted[0].batch, latestPayloads, order)
    {
      var currentData := latestPayloads;
      emitted, order := [], [];
      if currentData != map[] {
        var batch: seq<Envelope> := [];
        var remaining := currentData.Keys;
        while remaining != {}
          invariant remaining <= currentData.Keys
          invariant forall t :: t in order <==> t in currentData && t !in remaining
          invariant forall i, j :: 0 <= i < j < |order| ==> order[i] != order[j]
          invariant |batch| == |order|
          invariant forall i :: 0 <= i < |batch| ==> order[i] in currentData && batch[i] == currentData[order[i]]
          decreases remaining
        {
          var t :| t in remaining;
          batch := batch + [currentData[t]];
          order := order + [t];
          remaining := remaining - {t};
        }
        Properties.EnumerationLength(order, currentData.Keys);
        if batch != [] {
          emitted := [DataBatch(batch)];
        }
      }
    }

    /**
     * A client connects: greet it, then replay one acknowledgement per
     * registered topic, in the order `order` the loop visits them.
     */
    method OnConnect() returns (emitted: seq<Event>, ghost order: seq<Topic>)
      ensures |emitted| >= 1 && emitted[0] == ServerLog(Success, ConnectedMsg)
      ensures IsReplayOf(emitted[1..], subscribers.Keys, order)
    {
      emitted := [ServerLog(Success, ConnectedMsg)];
      order := [];
      var remaining := subscribers.Keys;
      while remaining != {}
        invariant remaining <= subscribers.Keys
        invariant forall t :: t in order <==> t in subscribers && t !in remaining
        invariant forall i, j :: 0 <= i < j < |order| ==> order[i] != order[j]
        invariant |emitted| == |order| + 1 && emitted[0] == ServerLog(Success, ConnectedMsg)
        invariant forall i :: 0 <= i < |order| ==> emitted[i + 1] == SubscribeAck(order[i])
        decreases remaining
      {
        var t :| t in remaining;
        emitted := emitted + [SubscribeAck(t)];
        order := order + [t];
        remaining := remaining - {t};
      }
    }
  }

  /**
   * Subscribing twice to a new topic whose type resolves: both requests are
   * acknowledged, the topic is registered once and exactly one handle is
   * created.
   */
  method SubscribeTwice(server: Server, t: Topic) returns (first: seq<Event>, second: seq<Event>)
    requires server.Valid() && t != "" && t !in server.subscribers
    modifies server
    ensures server.Valid()
    ensures first == second == [SubscribeAck(t)]
    ensures server.subscribers.Keys == old(server.subscribers.Keys) + {t}
    ensures server.subscriptionsMade == old(server.subscriptionsMade) + 1
  {
    first := server.HandleSubscribe(Some(t), true);
    second := server.HandleSubscribe(Some(t), true);
  }

  /**
   * Subscribe to "/odom", receive P1 and then P2 before a tick: the tick
   * broadcasts the single envelope of P2. Unsubscribing is answered with its
   * info log, and the next tick broadcasts nothing.
   */
  method OdomScenario(p1: Value, p2: Value, t1: real, t2: real)
    returns (acks: seq<Event>, firstTick: seq<Event>, logs: seq<Event>, secondTick: seq<Event>)
    ensures acks == [SubscribeAck("/odom")]
    ensures firstTick == [DataBatch([Envelope("/odom", t2, p2)])]
    ensures logs == [ServerLog(Info, UnsubscribedMsg("/odom"))]
    ensures secondTick == []
  {
    var server := new Server();
    acks := server.HandleSubscribe(Some("/odom"), true);
    server.RecordArrival("/odom", Some(p1), t1);
    server.RecordArrival("/odom", Some(p2), t2);
    ghost var order;
    firstTick, order := server.Tick();
    Properties.SingletonCacheBatch(firstTick[0].batch, "/odom", Envelope("/odom", t2, p2), order);
    logs := server.HandleUnsubscribe(Some("/odom"));
    secondTick, order := server.Tick();
  }
}
