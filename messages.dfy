/**
 * The values the plotter backend stores and emits: topic names, the decoded
 * message payloads, the envelopes kept in the latest-value cache, and the
 * events sent over the bidirectional channel.
 */
module Messages {

  /** A middleware topic name, e.g. "/odom"; the key of both server maps. */
  type Topic = string

  /**
   * A decoded message: the nested mapping / list / scalar structure that the
   * message converter produces from a middleware message.
   */
  datatype Value =
    | Null
    | Bool(b: bool)
    | Int(i: int)
    | Float(x: real)
    | Str(s: string)
    | List(items: seq<Value>)
    | Dict(fields: map<string, Value>)

  /** One cache entry: the topic it came from, its receipt time (middleware clock, seconds) and its payload. */
  datatype Envelope = Envelope(topic: Topic, timestamp: real, msg: Value)

  /** The `level` field of a `server_log` event. */
  datatype Level = Success | Info | Error

  /** The events the server emits. */
  datatype Event =
    | ServerLog(level: Level, msg: string)     // 'server_log' {level, msg}
    | SubscribeAck(topic: Topic)              // 'subscribe_ack' {topic}
    | DataBatch(batch: seq<Envelope>)         // 'ros_data_batch' [envelope, ...]

  /** The greeting sent to a client when it connects. */
  const ConnectedMsg: string := "Connected."

  /** The error text sent when a topic's message type cannot be resolved. */
  function TypeNotFoundMsg(topic: Topic): string { "Type not found: " + topic }

  /** The text sent after an unsubscribe request. */
  function UnsubscribedMsg(topic: Topic): string { "Unsubscribed " + topic }
}
