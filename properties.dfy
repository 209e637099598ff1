/**
 * Properties of the registry and cache handlers: what one request does, what
 * two requests in a row do, and which invariants each handler keeps.
 */
module Properties {
  import opened Wrappers
  import opened Messages
  import opened Registry

  /**
   * Subscribing twice: once the first request has left the topic registered
   * (or was ignored for want of a topic), a second identical request changes
   * nothing, whatever the type lookup would answer, and repeats the first
   * reply (the same acknowledgement).
   */
  lemma SubscribeIdempotent(v: View, data: Option<string>, resolves1: bool, resolves2: bool)
    ensures var r1 := Subscribe(v, data, resolves1);
            TopicOf(data).None? || TopicOf(data).value in r1.view.registered ==>
              Subscribe(r1.view, data, resolves2) == r1
  {
  }

  /** A registered topic is acknowledged without the type lookup: its answer does not matter and nothing changes. */
  lemma SubscribeRegisteredSkipsLookup(v: View, t: Topic)
    requires t != "" && t in v.registered
    ensures Subscribe(v, Some(t), false) == Subscribe(v, Some(t), true) == Reply(v, [SubscribeAck(t)])
  {
  }

  /** An unregistered topic whose type does not resolve gets one error log, no acknowledgement, and no state change. */
  lemma SubscribeUnresolved(v: View, t: Topic)
    requires t != "" && t !in v.registered
    ensures Subscribe(v, Some(t), false) == Reply(v, [ServerLog(Error, TypeNotFoundMsg(t))])
  {
  }

  /** A second identical unsubscribe leaves the state as the first one left it. */
  lemma UnsubscribeIdempotent(v: View, data: Option<string>)
    ensures var r1 := Unsubscribe(v, data);
            var r2 := Unsubscribe(r1.view, data);
            r2.view == r1.view && r2.events == r1.events
  {
  }

  /** Of two successful arrivals on one topic only the later is kept. */
  lemma LastWriteWins(v: View, t: Topic, p1: Value, t1: real, p2: Value, t2: real)
    ensures Arrive(Arrive(v, t, Some(p1), t1), t, Some(p2), t2) == Arrive(v, t, Some(p2), t2)
  {
  }

  /** Arrivals on two different topics do not interfere: their order does not matter. */
  lemma ArrivalsOnDistinctTopicsCommute(v: View, a: Topic, pa: Option<Value>, ta: real, b: Topic, pb: Option<Value>, tb: real)
    requires a != b
    ensures Arrive(Arrive(v, a, pa, ta), b, pb, tb) == Arrive(Arrive(v, b, pb, tb), a, pa, ta)
  {
  }

  /** Every handler keeps each cache entry stamped with its own key. */
  lemma HandlersKeepStamps(v: View, data: Option<string>, resolves: bool, t: Topic, decoded: Option<Value>, now: real)
    requires WellStamped(v.cache)
    ensures WellStamped(Subscribe(v, data, resolves).view.cache)
    ensures WellStamped(Unsubscribe(v, data).view.cache)
    ensures WellStamped(Arrive(v, t, decoded, now).cache)
  {
  }

  /**
   * Subscribe and unsubscribe keep the cache within the registry, and so does
   * an arrival on a registered topic.
   */
  lemma HandlersKeepCacheWithinRegistry(v: View, data: Option<string>, resolves: bool, t: Topic, decoded: Option<Value>, now: real)
    requires CacheWithinRegistry(v)
    ensures CacheWithinRegistry(Subscribe(v, data, resolves).view)
    ensures CacheWithinRegistry(Unsubscribe(v, data).view)
    ensures t in v.registered ==> CacheWithinRegistry(Arrive(v, t, decoded, now))
  {
  }

  /** The registration condition above is needed: an arrival for a topic nobody subscribed to leaves a cache entry outside the registry. */
  lemma ArrivalWhenUnregisteredEscapesRegistry(v: View, t: Topic, p: Value, now: real)
    requires t !in v.registered
    ensures !CacheWithinRegistry(Arrive(v, t, Some(p), now))
  {
    assert t in Arrive(v, t, Some(p), now).cache;
  }

  /** An enumeration of a key set is exactly as long as the set is large. */
  lemma {:induction false} EnumerationLength(order: seq<Topic>, keys: set<Topic>)
    requires Enumerates(order, keys)
    ensures |order| == |keys|
    decreases |order|
  {
    if order == [] {
      assert keys == {};
    } else {
      var last := order[|order| - 1];
      var rest := order[..|order| - 1];
      assert forall t :: t in rest <==> t in order && t != last by {
        forall t | t in order && t != last ensures t in rest {
          var i :| 0 <= i < |order| && order[i] == t;
          assert i != |order| - 1;
          assert rest[i] == t;
        }
      }
      assert Enumerates(rest, keys - {last});
      EnumerationLength(rest, keys - {last});
    }
  }

  /**
   * A batch holds exactly the cache's values: as many envelopes as topics,
   * one envelope per topic (no topic twice), and every cached value in it.
   */
  lemma BatchIsOneEnvelopePerTopic(batch: seq<Envelope>, cache: map<Topic, Envelope>, order: seq<Topic>)
    requires WellStamped(cache)
    requires IsBatchOf(batch, cache, order)
    ensures |batch| == |cache|
    ensures forall e :: e in batch <==> e in cache.Values
    ensures forall i, j :: 0 <= i < j < |batch| ==> batch[i].topic != batch[j].topic
    ensures forall t :: t in cache ==> exists i :: 0 <= i < |batch| && batch[i].topic == t && batch[i] == cache[t]
  {
    EnumerationLength(order, cache.Keys);
    forall t | t in cache ensures exists i :: 0 <= i < |batch| && batch[i].topic == t && batch[i] == cache[t] {
      var i :| 0 <= i < |order| && order[i] == t;
      assert batch[i] == cache[t];
    }
    forall e | e in cache.Values ensures e in batch {
      var t :| t in cache && cache[t] == e;
      var i :| 0 <= i < |order| && order[i] == t;
      assert batch[i] == e;
    }
  }

  /** An empty cache has only the empty batch. */
  lemma EmptyCacheBatch(batch: seq<Envelope>, order: seq<Topic>)
    requires IsBatchOf(batch, map[], order)
    ensures batch == []
  {
    EnumerationLength(order, {});
  }

  /** A cache with one topic has one batch: its single envelope. */
  lemma SingletonCacheBatch(batch: seq<Envelope>, t: Topic, e: Envelope, order: seq<Topic>)
    requires IsBatchOf(batch, map[t := e], order)
    ensures batch == [e]
  {
    EnumerationLength(order, {t});
    assert order[0] in map[t := e];
  }

  /** A connecting client is acknowledged once for each registered topic and for no other. */
  lemma ReplayAcknowledgesEachRegisteredTopicOnce(acks: seq<Event>, registered: set<Topic>, order: seq<Topic>)
    requires IsReplayOf(acks, registered, order)
    ensures |acks| == |registered|
    ensures forall t :: SubscribeAck(t) in acks <==> t in registered
    ensures forall i, j :: 0 <= i < j < |acks| ==> acks[i] != acks[j]
  {
    EnumerationLength(order, registered);
    forall t ensures SubscribeAck(t) in acks <==> t in registered {
      if t in registered {
        var i :| 0 <= i < |order| && order[i] == t;
        assert acks[i] == SubscribeAck(t);
      }
      if SubscribeAck(t) in acks {
        var i :| 0 <= i < |acks| && acks[i] == SubscribeAck(t);
        assert order[i] == t;
      }
    }
  }
}
