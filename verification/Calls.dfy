/** The calls a socket receives, made one at a time. */
module Calls {
  import opened Bytes
  import opened WebSocketSpec

  /** The calls the transport, the server and the application make, and the close timer. */
  datatype Call =
    | Receives(data: seq<byte>)
    | Ends(finished: bool)
    | Accepts(offered: bool)
    | Sends(text: bool, data: seq<byte>)
    | Closes(code: int, reason: seq<byte>)
    | TimesOut

  /** The timer callback armed by `close`. */
  function TimeOut(c: Core): Core {
    if c.timer then Finish(Emit(c.(timer := false), Aborted), 1006, []) else c
  }

  function Make(env: Env, s: Socket, call: Call): Outcome {
    match call
    case Receives(data) => ReceiveData(env, s, data)
    case Ends(finished) => Outcome(ReceiveEnd(env, s, finished), false)
    case Accepts(offered) => Accept(env, s, offered)
    case Sends(text, data) =>
      var r := SendMessage(env, s.core, text, data); Outcome(s.(core := r.core), r.rejected)
    case Closes(code, reason) =>
      var r := CloseSocket(env, s.core, code, reason); Outcome(s.(core := r.core), r.rejected)
    case TimesOut => Outcome(s.(core := TimeOut(s.core)), false)
  }
}
