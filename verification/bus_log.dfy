/**
 * The part of the message bus the cache talks to, as an append-only log: every
 * `sendResponseMessage` becomes a `Send` record and every channel `close` a `Close` record.
 * Subscribers are not stored; what a subscriber receives is computed from the log (see
 * CacheStreams).
 */
module BusLog {
  import opened JsValues

  /** `CacheStateChange(id, type, value)`: the payload of every cache broadcast. */
  datatype StateChange<S> = StateChange(id: string, changeType: S, value: JsValue)

  datatype BusOp<S> =
    | Send(channel: string, change: StateChange<S>, sender: string)
    | Close(channel: string, sender: string)
}
