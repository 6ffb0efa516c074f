/** The messages that clients and server exchange. */
module Protocol {
  import opened Common
  import opened Tries
  import opened Topics

  /** Message ids, client ids: counters that never wrap here. */
  type MsgId = nat

  newtype Byte = b: int | 0 <= b < 256

  type Payload = seq<Byte>

  datatype RspStatus = Answer | Timeout

  datatype BusError =
    | Refused(reason: DirectoryError)
    | ServiceNotFound(topic: Topic)
    | InvalidRequestId
    | DeliveryFailed(client: ClientId)
    | UnknownClient(client: ClientId)

  datatype ProtocolClient =
    | Sub(topic: Topic)
    | Pub(topic: Topic, payload: Payload)
    | Srv(topic: Topic)
    | Req(topic: Topic, payload: Payload)
    | Rsp(reqId: MsgId, status: RspStatus, payload: Payload)
    | Unsub(topic: Topic)
    | Unsrv(topic: Topic)
    | Stop
    | KeepAlive

  datatype ProtocolServer =
    | Pub(topic: Topic, payload: Payload)
    | Req(topic: Topic, payload: Payload)
    | Rsp(reqId: MsgId, status: RspStatus, payload: Payload)
    | Ack(msgId: MsgId, err: Option<BusError>, recipients: Option<nat>)

  datatype Msg<T> = Msg(id: MsgId, content: T)

  type ClientMsg = Msg<ProtocolClient>
  type ServerMsg = Msg<ProtocolServer>

  /** What reaches the server's core, in one queue. */
  datatype Task =
    | Register
    | Deregister(client: ClientId)
    | Message(client: ClientId, msg: ClientMsg)
    | RequestTimeout(reqId: MsgId)
}
