/**
 * Runs of the server: any interleaving of requests, arrivals, broadcast ticks
 * and connections, each handler atomic under the server's single lock.
 */
module Traces {
  import opened Wrappers
  import opened Messages
  import opened Registry

  /** One atomic handler invocation, with the answers of the foreign calls it makes. */
  datatype Op =
    | SubscribeRequest(data: Option<string>, typeResolves: bool)
    | UnsubscribeRequest(data: Option<string>)
    | Arrival(topic: Topic, decoded: Option<Value>, now: real)
    | BroadcastTick
    | ClientConnect

  /** The state after one handler; ticks and connections only read the state. */
  function Step(v: View, op: Op): View
  {
    match op
    case SubscribeRequest(data, resolves) => Subscribe(v, data, resolves).view
    case UnsubscribeRequest(data) => Unsubscribe(v, data).view
    case Arrival(t, decoded, now) => Arrive(v, t, decoded, now)
    case BroadcastTick => v
    case ClientConnect => v
  }

  /** The state after a whole run. */
  function Run(v: View, ops: seq<Op>): View
    decreases |ops|
  {
    if ops == [] then v else Run(Step(v, ops[0]), ops[1..])
  }

  /**
   * Arrivals come only for registered topics: the middleware invokes a
   * topic's callback only while its subscription is live.
   */
  ghost predicate ArrivalsFromLiveSubscriptions(v: View, ops: seq<Op>)
    decreases |ops|
  {
    ops == [] ||
    ((ops[0].Arrival? ==> ops[0].topic in v.registered) &&
     ArrivalsFromLiveSubscriptions(Step(v, ops[0]), ops[1..]))
  }

  /** The invariant of the two maps: the cache stays within the registry and each entry carries its own topic. */
  ghost predicate Consistent(v: View)
  {
    CacheWithinRegistry(v) && WellStamped(v.cache)
  }

  /** One handler keeps the invariant, provided an arrival is for a registered topic. */
  lemma StepKeepsConsistent(v: View, op: Op)
    requires Consistent(v)
    requires op.Arrival? ==> op.topic in v.registered
    ensures Consistent(Step(v, op))
  {
  }

  /** Every run whose arrivals come from live subscriptions keeps the invariant. */
  lemma {:induction false} RunKeepsConsistent(v: View, ops: seq<Op>)
    requires Consistent(v)
    requires ArrivalsFromLiveSubscriptions(v, ops)
    ensures Consistent(Run(v, ops))
    decreases |ops|
  {
    if ops != [] {
      StepKeepsConsistent(v, ops[0]);
      RunKeepsConsistent(Step(v, ops[0]), ops[1..]);
    }
  }

  /** What a run says about one topic's cache entry, read from its end. */
  datatype Trail = Untouched | Cleared | Latest(e: Envelope)

  /**
   * The last thing in `ops` that decides topic `t`'s cache entry: its last
   * successful arrival (an envelope), an unsubscribe of `t` after every
   * such arrival (the entry is gone), or nothing at all.
   */
  function LastWord(t: Topic, ops: seq<Op>): Trail
    decreases |ops|
  {
    if ops == [] then Untouched
    else
      var op := ops[|ops| - 1];
      if op.Arrival? && op.topic == t && op.decoded.Some? then Latest(Envelope(t, op.now, op.decoded.value))
      else if op.UnsubscribeRequest? && TopicOf(op.data) == Some(t) then Cleared
      else LastWord(t, ops[..|ops| - 1])
  }

  /** Running a sequence is running its prefix, then its last handler. */
  lemma {:induction false} RunSnoc(v: View, ops: seq<Op>, op: Op)
    ensures Run(v, ops + [op]) == Step(Run(v, ops), op)
    decreases |ops|
  {
    if ops == [] {
      assert [op][1..] == [];
    } else {
      assert (ops + [op])[1..] == ops[1..] + [op];
      RunSnoc(Step(v, ops[0]), ops[1..], op);
    }
  }

  /**
   * Last write wins over a whole run: after any run, topic `t` is cached
   * exactly when some message for it arrived and was not cleared by a later
   * unsubscribe (or it was cached before and nothing touched it), and the
   * cached envelope is the one from the last such arrival.
   */
  lemma {:induction false} RunCachesLastArrival(v: View, ops: seq<Op>, t: Topic)
    ensures var c := Run(v, ops).cache;
            match LastWord(t, ops)
            case Untouched => (t in c <==> t in v.cache) && (t in c ==> c[t] == v.cache[t])
            case Cleared => t !in c
            case Latest(e) => t in c && c[t] == e
    decreases |ops|
  {
    if ops != [] {
      var prefix, op := ops[..|ops| - 1], ops[|ops| - 1];
      assert ops == prefix + [op];
      RunSnoc(v, prefix, op);
      RunCachesLastArrival(v, prefix, t);
    }
  }
}
