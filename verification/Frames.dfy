/** The frames that clients send, as the ingress pipeline passes them on to the daemon. */
module Frames {
  import opened Common

  datatype Kind = NewOrder | Cancel | Replace | Heartbeat

  datatype Frame = Frame(kind: Kind, account: U64, nonce: U64, receivedTime: I64, payload: seq<Byte>)
}
