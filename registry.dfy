/**
 * The registry of subscribed topics and the latest-value cache, as values.
 *
 * A `View` is what the server's two dictionaries hold, seen from outside:
 * the set of topics that have a live subscription (the keys of
 * `subscribers`) and the map from topic to the last envelope received for it
 * (`latest_payloads`). Each request handler is a function from the old view
 * to the new view and the events it emitted; the imperative server in module
 * Server is proved to behave exactly like these functions.
 */
module Registry {
  import opened Wrappers
  import opened Messages

  datatype View = View(registered: set<Topic>, cache: map<Topic, Envelope>)

  /** The state a handler leaves behind and the events it emitted, in order. */
  datatype Reply = Reply(view: View, events: seq<Event>)

  /**
   * The topic named by a subscribe or unsubscribe request: the `topic` field
   * when it is present and not empty. A missing or empty field makes the
   * handler return at once.
   */
  function TopicOf(data: Option<string>): (r: Option<Topic>)
    ensures r.Some? <==> data.Some? && data.value != ""
    ensures r.Some? ==> r.value == data.value
  {
    if data.Some? && data.value != "" then Some(data.value) else None
  }

  /** Every cache entry is stamped with the topic it is stored under. */
  ghost predicate WellStamped(cache: map<Topic, Envelope>)
  {
    forall t :: t in cache ==> cache[t].topic == t
  }

  /** The cache holds only topics that have a subscription. */
  ghost predicate CacheWithinRegistry(v: View)
  {
    v.cache.Keys <= v.registered
  }

  /**
   * A subscribe request. A topic already registered is acknowledged without
   * consulting the type lookup; otherwise a topic whose type resolves is
   * registered and acknowledged, and one whose type does not resolve is
   * answered with an error log. The cache is never touched.
   */
  function Subscribe(v: View, data: Option<string>, typeResolves: bool): (r: Reply)
    ensures r.view.cache == v.cache
    ensures TopicOf(data).None? ==> r == Reply(v, [])
    ensures TopicOf(data).Some? ==>
      var t := TopicOf(data).value;
      && v.registered <= r.view.registered <= v.registered + {t}
      && (r.events == [SubscribeAck(t)] <==> t in r.view.registered)
      && (t !in r.view.registered ==> r.events == [ServerLog(Error, TypeNotFoundMsg(t))])
      && (t in r.view.registered <==> t in v.registered || typeResolves)
  {
    match TopicOf(data)
    case None => Reply(v, [])
    case Some(t) =>
      if t in v.registered then Reply(v, [SubscribeAck(t)])
      else if !typeResolves then Reply(v, [ServerLog(Error, TypeNotFoundMsg(t))])
      else Reply(v.(registered := v.registered + {t}), [SubscribeAck(t)])
  }

  /**
   * An unsubscribe request. The topic leaves both the registry and the cache
   * (the cache entry goes whether or not the topic was registered), every
   * other topic keeps its entries, and an info log is always emitted.
   */
  function Unsubscribe(v: View, data: Option<string>): (r: Reply)
    ensures TopicOf(data).None? ==> r == Reply(v, [])
    ensures TopicOf(data).Some? ==>
      var t := TopicOf(data).value;
      && r.view.registered == v.registered - {t}
      && r.view.cache.Keys == v.cache.Keys - {t}
      && (forall u :: u in r.view.cache ==> r.view.cache[u] == v.cache[u])
      && r.events == [ServerLog(Info, UnsubscribedMsg(t))]
  {
    match TopicOf(data)
    case None => Reply(v, [])
    case Some(t) => Reply(View(v.registered - {t}, v.cache - {t}), [ServerLog(Info, UnsubscribedMsg(t))])
  }

  /**
   * A message arrival on `topic`, already passed through the converter:
   * `decoded` is None when the conversion failed. A successful arrival
   * overwrites the topic's cache entry with a fresh envelope stamped `now`;
   * a failed one changes nothing. Nothing is emitted either way.
   */
  function Arrive(v: View, topic: Topic, decoded: Option<Value>, now: real): (r: View)
    ensures r.registered == v.registered
    ensures decoded.None? ==> r == v
    ensures decoded.Some? ==>
      && r.cache.Keys == v.cache.Keys + {topic}
      && r.cache[topic] == Envelope(topic, now, decoded.value)
      && (forall u :: u in v.cache && u != topic ==> r.cache[u] == v.cache[u])
  {
    if decoded.None? then v
    else v.(cache := v.cache[topic := Envelope(topic, now, decoded.value)])
  }

  /** `order` lists every key of `keys` exactly once, in some order. */
  ghost predicate Enumerates(order: seq<Topic>, keys: set<Topic>)
  {
    && (forall i, j :: 0 <= i < j < |order| ==> order[i] != order[j])
    && (forall t :: t in order <==> t in keys)
  }

  /** `batch` holds the cache's values, one per key, in the key order `order`. */
  ghost predicate IsBatchOf(batch: seq<Envelope>, cache: map<Topic, Envelope>, order: seq<Topic>)
  {
    && Enumerates(order, cache.Keys)
    && |batch| == |order|
    && forall i :: 0 <= i < |batch| ==> order[i] in cache && batch[i] == cache[order[i]]
  }

  /** `acks` holds one subscribe acknowledgement per registered topic, in the order `order`. */
  ghost predicate IsReplayOf(acks: seq<Event>, registered: set<Topic>, order: seq<Topic>)
  {
    && Enumerates(order, registered)
    && |acks| == |order|
    && forall i :: 0 <= i < |acks| ==> acks[i] == SubscribeAck(order[i])
  }
}
