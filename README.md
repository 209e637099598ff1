# Web plotter backend: subscription registry and latest-value cache

The web plotter backend bridges a robotics middleware's topics to browser
clients. Clients ask it to `subscribe` and `unsubscribe` to topics; each
incoming middleware message overwrites the topic's entry in a latest-value
cache; a background loop broadcasts the whole cache as one `ros_data_batch`
about twenty times a second; a newly connected client is told which topics
are already subscribed. All of this lives in two process-wide dictionaries,
`subscribers` (topic to subscription handle) and `latest_payloads` (topic to
the last message envelope), guarded by a single lock.

This project models that registry and cache:

- `messages.dfy` (module `Messages`): topics, decoded payloads, envelopes
  `{topic, timestamp, msg}` and the emitted events (`server_log`,
  `subscribe_ack`, `ros_data_batch`) with their message texts.
- `registry.dfy` (module `Registry`): the state as a value (registered topics
  and the cache) and each handler as a function from the old state to the new
  state and the events it emits; what a batch and a connect replay must
  contain.
- `properties.dfy` (module `Properties`): what one or two handler calls do
  (idempotence, last write wins, the invariants each handler keeps, what a
  batch contains).
- `traces.dfy` (module `Traces`): any run of atomic handlers keeps the
  invariant between the two maps, and after any run each topic's cache entry
  is the one from its last arrival not cleared by a later unsubscribe.
- `server.dfy` (module `Server`): the server as a class whose fields are the
  two dictionaries, with one atomic method per handler, each proved to change
  the state exactly as the matching `Registry` function says. Subscription
  handles are objects that count how often they are unregistered.

The foreign calls are parameters: whether the middleware resolves a topic's
message type is a `bool`; the message converter's result is an `Option`
(None when it raises); the middleware clock is a `real` timestamp. `emit` is
modelled as the sequence of events a handler returns, in order.

An unsubscribe request always emits its `info` log and deletes the topic's
cache entry, even for a topic that was never registered (server.py:129-138).

## Model

| member | source | states |
|---|---|---|
| Registry.TopicOf | web_plotter_backend/scripts/server.py:105-106 | a request names a topic exactly when its `topic` field is present and non-empty, and then names that field's value |
| Registry.Subscribe | web_plotter_backend/scripts/server.py:102-121 | no topic: no change, no event; otherwise the registry grows by at most the requested topic, the cache is untouched, the reply is one `subscribe_ack` exactly when the topic ends up registered and one `error` log otherwise, and it ends up registered iff it already was or its type resolves |
| Registry.Unsubscribe | web_plotter_backend/scripts/server.py:123-138 | no topic: no change, no event; otherwise the topic leaves both the registry and the cache, every other cache entry is unchanged, and one `info` log is emitted |
| Registry.Arrive | web_plotter_backend/scripts/server.py:62-73 | a successful conversion sets the topic's entry to an envelope with that topic, timestamp and payload, adds no other key and keeps every other entry; a failed conversion changes nothing; the registry is never touched |
| Properties.SubscribeIdempotent | web_plotter_backend/scripts/server.py:109-121 | once a subscribe has left the topic registered, repeating it changes nothing and returns the same acknowledgement, whatever the type lookup answers |
| Properties.SubscribeRegisteredSkipsLookup | web_plotter_backend/scripts/server.py:108-121 | for a registered topic the type lookup's answer is irrelevant: state unchanged, one `subscribe_ack` |
| Properties.SubscribeUnresolved | web_plotter_backend/scripts/server.py:110-113 | an unregistered topic whose type does not resolve gets exactly one `error` log, no acknowledgement, and both maps stay unchanged |
| Properties.UnsubscribeIdempotent | web_plotter_backend/scripts/server.py:129-138 | a second identical unsubscribe leaves the state as the first left it and emits the same log |
| Properties.LastWriteWins | web_plotter_backend/scripts/server.py:67-71 | two successful arrivals on one topic leave the state the later one alone would leave |
| Properties.ArrivalsOnDistinctTopicsCommute | web_plotter_backend/scripts/server.py:67-71 | arrivals on different topics do not interfere: their order does not matter |
| Properties.HandlersKeepStamps | web_plotter_backend/scripts/server.py:62-138 | subscribe, unsubscribe and arrival keep every cache entry stamped with the topic it is stored under |
| Properties.HandlersKeepCacheWithinRegistry | web_plotter_backend/scripts/server.py:108-135 | subscribe, unsubscribe and an arrival on a registered topic keep the cache's keys within the registry's keys |
| Properties.ArrivalWhenUnregisteredEscapesRegistry | web_plotter_backend/scripts/server.py:62-73 | the callback does not check registration, so an arrival on an unregistered topic leaves a cache entry outside the registry |
| Properties.BatchIsOneEnvelopePerTopic | web_plotter_backend/scripts/server.py:47-54 | a batch of a well-stamped cache has one envelope per cached topic, no topic twice, and holds exactly the cache's values |
| Properties.EmptyCacheBatch | web_plotter_backend/scripts/server.py:47-52 | the only batch of an empty cache is empty |
| Properties.SingletonCacheBatch | web_plotter_backend/scripts/server.py:48-50 | the only batch of a one-topic cache is that topic's envelope |
| Properties.ReplayAcknowledgesEachRegisteredTopicOnce | web_plotter_backend/scripts/server.py:79-81 | the connect replay acknowledges every registered topic once and no other topic |
| Traces.StepKeepsConsistent | web_plotter_backend/scripts/server.py:44-138 | each atomic handler keeps the two-map invariant (cache within registry, entries stamped with their key) when arrivals are for registered topics |
| Traces.RunKeepsConsistent | web_plotter_backend/scripts/server.py:62-138 | every run whose arrivals come from live subscriptions keeps the two-map invariant |
| Traces.RunCachesLastArrival | web_plotter_backend/scripts/server.py:67-135 | after any run a topic is cached exactly when its last successful arrival was not followed by an unsubscribe of it, and the cached envelope is that last arrival's (or the entry is as before if the run never touched the topic) |
| Server.Server.constructor | web_plotter_backend/scripts/server.py:29-30 | the server starts with both dictionaries empty and no handle created |
| Server.Server.HandleSubscribe | web_plotter_backend/scripts/server.py:102-121 | moves the state and emits exactly as `Registry.Subscribe`; keeps every existing handle, creates a fresh handle only for a newly registered topic and counts it |
| Server.Server.HandleUnsubscribe | web_plotter_backend/scripts/server.py:123-138 | moves the state and emits exactly as `Registry.Unsubscribe`; the removed topic's handle is unregistered exactly once and no other handle is unregistered |
| Server.Server.RecordArrival | web_plotter_backend/scripts/server.py:62-73 | moves the cache exactly as `Registry.Arrive`; the registry is unchanged and nothing is emitted |
| Server.Server.Tick | web_plotter_backend/scripts/server.py:44-56 | an empty cache emits nothing; otherwise exactly one `ros_data_batch` holding the cache's envelopes, one per topic, in the loop's visiting order; the cache is not modified |
| Server.Server.OnConnect | web_plotter_backend/scripts/server.py:75-81 | one `success` log first, then one `subscribe_ack` per registered topic and no other; the state is not modified |
| Server.SubscribeTwice | web_plotter_backend/scripts/server.py:109-121 | subscribing twice to a new resolvable topic acknowledges both, registers it once and creates exactly one handle |
| Server.OdomScenario | web_plotter_backend/scripts/server.py:41-138 | subscribe to "/odom" (acknowledged), two arrivals P1 then P2: the tick broadcasts the single envelope of P2; unsubscribing answers with its `info` log and the next tick broadcasts nothing |

## Left out

- The HTTP routes `index` and `get_topics` (server.py:87-100): page serving and a pass-through over the middleware's topic list.
- The channel transport: delivery of `emit`, broadcast to all clients versus reply to one, and the swallowed transport exceptions around the broadcast (server.py:53-56). An emit is an event in the returned sequence.
- The lock, the background thread, process startup and the disconnect handler (server.py:27, 83-85, 140-147): each handler is atomic. One consequence is not captured: the callback converts the message before taking the lock, so an arrival already in flight when its topic is unsubscribed can still write a cache entry for a topic that is no longer registered. `Properties.ArrivalWhenUnregisteredEscapesRegistry` shows that such an arrival breaks the cache-within-registry invariant, which is why the trace lemmas assume arrivals only for registered topics.
- The loop's timing: wall-clock start time, elapsed time, the 50 ms period and the sleep (server.py:37-42, 58-60), and the wall-clock formatting of `get_time_str` (server.py:32-33). These are floating point and real time; the model has one broadcast tick per `Tick` call.
- The internals of the middleware subscription, the type lookup and the message converter: they are the `Subscription` object, a `bool` and an `Option<Value>` argument. A lookup that raises instead of returning no type is not modelled.
- The deep copy of the cache (server.py:45): the snapshot is a value copy of the map.
- Batch and replay order: Python iterates dictionaries in insertion order; the model visits keys in an unspecified order and states contents, not order.
- Request payloads that are not a mapping, or a `topic` field that is not a string: a request is an optional string, None for a missing field.
- Logging through `print`.
