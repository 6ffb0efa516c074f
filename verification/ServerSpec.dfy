/** The server core as a state machine: what one task does to the whole state. The last five fields are
    history. They record what happened and never influence it. */
module ServerSpec {
  import opened Common
  import opened Matching
  import opened Tries
  import opened FlatDirectories
  import opened Topics
  import opened Protocol

  datatype Pending = Pending(requestId: MsgId, requester: ClientId, responder: ClientId)

  /** A request that was forwarded: the task that asked, and to whom it went. */
  datatype Acceptance =
    Acceptance(at: int, requester: ClientId, requestId: MsgId, responder: ClientId, topic: Topic, payload: Payload)

  /** How an accepted request ended. `Responded` says which task (`at`) and client (`author`, 0 for the server's own
      timeout) it came from, and where in the requester's channel the response stands. */
  datatype Outcome =
    | Responded(at: int, author: ClientId, pos: nat, rspId: MsgId, status: RspStatus, payload: Payload)
    | Undeliverable
    | Cancelled

  datatype Core = Core(
    senders: set<ClientId>,
    dir: Flat,
    nextClientId: ClientId,
    nextMsgId: MsgId,
    pending: map<MsgId, Pending>,
    timers: set<MsgId>,
    sent: map<ClientId, seq<ServerMsg>>,
    processed: seq<Task>,
    accepted: map<MsgId, Acceptance>,
    acceptedBy: map<int, MsgId>,
    outcome: map<MsgId, Outcome>,
    source: map<MsgId, MsgId>
  ) {
    function Channel(c: ClientId): seq<ServerMsg> {
      if c in sent then sent[c] else []
    }
  }

  /** What the world decides during one task: which clients' channels may be closing, which sends then fail, in
      what order a set of subscribers is visited, and whether unclaiming a wildcard topic notices it. */
  datatype Env = Env(leaving: set<ClientId>, failing: set<MsgId>, order: seq<ClientId>, sawWildcard: bool)

  datatype Verdict = Continue | Finish | Fail(error: BusError) | Panic

  const KILL: Pattern := ["bus", "kill"]

  /** The topic that the source writes as `bus:kill`. */
  lemma KillTopic()
    ensures IsTopicPattern(KILL) && Parse("bus:kill") == Ok(FromSegments(KILL)) && Segments(FromSegments(KILL)) == KILL
  {
    assert KILL[1..] == ["kill"];
    var kill := FromSegments(KILL);
    assert kill.protocol == "bus" && kill.path == "kill";
    assert Print(kill) == "bus:kill";
    ParsePrint(kill);
  }

  function InitCore(): Core {
    Core({}, Flat({(0, KILL)}, map[]), 1, 0, map[], {}, map[], [], map[], map[], map[], map[])
  }

  // ---------- Clients come and go ----------

  function RegisterClient(s: Core): Core {
    s.(nextClientId := s.nextClientId + 1,
       senders := s.senders + {s.nextClientId},
       sent := s.sent[s.nextClientId := []])
  }

  predicate Involves(p: Pending, c: ClientId) {
    p.requester == c || p.responder == c
  }

  function DeregisterClient(s: Core, c: ClientId): Core {
    s.(senders := s.senders - {c},
       dir := s.dir.DropClient(c),
       pending := map m | m in s.pending && !Involves(s.pending[m], c) :: s.pending[m],
       outcome := s.outcome + map m | m in s.pending && Involves(s.pending[m], c) :: Cancelled)
  }

  // ---------- One message to one client ----------

  function Deliver(s: Core, c: ClientId, content: ProtocolServer, env: Env): (Core, Result<MsgId, BusError>) {
    var id := s.nextMsgId;
    var s1 := s.(nextMsgId := id + 1);
    if c !in s.senders then (s1, Err(UnknownClient(c)))
    else if c in env.leaving && id in env.failing then (DeregisterClient(s1, c), Err(DeliveryFailed(c)))
    else (s1.(sent := s.sent[c := s.Channel(c) + [Msg(id, content)]]), Ok(id))
  }

  // ---------- The handlers ----------

  function Serve(s: Core, c: ClientId, topic: Topic): (Core, Option<BusError>) {
    var (dir, r) := s.dir.Claim(c, Segments(topic));
    (s.(dir := dir), if r.Ok? then None else Some(Refused(r.error)))
  }

  function Unserve(s: Core, c: ClientId, topic: Topic, env: Env): (Core, Option<BusError>) {
    (s.(dir := s.dir.Unclaim(c, Segments(topic))),
     if !Concrete(Segments(topic)) && env.sawWildcard then Some(Refused(ClaimWildcardNotSupported)) else None)
  }

  function Request(s: Core, c: ClientId, reqId: MsgId, topic: Topic, payload: Payload, env: Env)
    : (Core, Option<BusError>)
  {
    match s.dir.Owner(Segments(topic))
    case None => (s, Some(ServiceNotFound(topic)))
    case Some(owner) =>
      match Deliver(s, owner, ProtocolServer.Req(topic, payload), env)
      case (s1, Err(e)) => (s1, Some(e))
      case (s1, Ok(m)) =>
        (s1.(pending := s1.pending[m := Pending(reqId, c, owner)],
             timers := s1.timers + {m},
             accepted := s1.accepted[m := Acceptance(|s1.processed| - 1, c, reqId, owner, topic, payload)],
             acceptedBy := s1.acceptedBy[|s1.processed| - 1 := m]),
         None)
  }

  function Respond(s: Core, c: ClientId, m: MsgId, status: RspStatus, payload: Payload, env: Env)
    : (Core, Option<BusError>)
  {
    if m !in s.pending then (s, Some(InvalidRequestId))
    else if c != 0 && s.pending[m].responder != c then (s, Some(InvalidRequestId))
    else
      var p := s.pending[m];
      var s1 := s.(pending := s.pending - {m});
      match Deliver(s1, p.requester, ProtocolServer.Rsp(p.requestId, status, payload), env)
      case (s2, Err(e)) => (s2.(outcome := s2.outcome[m := Undeliverable]), Some(e))
      case (s2, Ok(id)) =>
        (s2.(outcome := s2.outcome[m := Responded(|s.processed| - 1, c, |s.Channel(p.requester)|, id, status, payload)],
             source := s2.source[id := m]),
         None)
  }

  datatype Published = AllSent | NotSent(error: BusError) | Killed

  /** The fan-out loop over the subscribers still to be visited. */
  function PublishTo(s: Core, clients: seq<ClientId>, content: ProtocolServer, env: Env): (Core, Published)
    decreases |clients|
  {
    if clients == [] then (s, AllSent)
    else if clients[0] == 0 then (s, Killed)
    else
      match Deliver(s, clients[0], content, env)
      case (s1, Err(e)) => (s1, NotSent(e))
      case (s1, Ok(_)) => PublishTo(s1, clients[1..], content, env)
  }

  /** Every message but Pub: the new state and the error that the Ack will report. */
  function Handle(s: Core, c: ClientId, msg: ClientMsg, env: Env): (Core, Option<BusError>)
    requires !msg.content.Pub?
  {
    match msg.content
    case Sub(topic) => (s.(dir := s.dir.Subscribe(c, Segments(topic))), None)
    case Unsub(topic) => (s.(dir := s.dir.Unsubscribe(c, Segments(topic))), None)
    case Srv(topic) => Serve(s, c, topic)
    case Unsrv(topic) => Unserve(s, c, topic, env)
    case Req(topic, payload) => Request(s, c, msg.id, topic, payload, env)
    case Rsp(m, status, payload) => Respond(s, c, m, status, payload, env)
    case Stop => (s, None)
    case KeepAlive => (s, None)
  }

  function Acknowledge(s: Core, c: ClientId, msgId: MsgId, err: Option<BusError>, recipients: Option<nat>,
                       env: Env): Core {
    // whether the Ack arrives changes nothing here
    Deliver(s, c, ProtocolServer.Ack(msgId, err, recipients), env).0
  }

  function ProcessMsg(s: Core, c: ClientId, msg: ClientMsg, env: Env): (Core, Verdict) {
    if msg.content.Pub? then
      match PublishTo(s, env.order, ProtocolServer.Pub(msg.content.topic, msg.content.payload), env)
      case (s1, Killed) => (s1, Panic)
      case (s1, AllSent) => (Acknowledge(s1, c, msg.id, None, Some(|env.order|), env), Continue)
      case (s1, NotSent(e)) => (Acknowledge(s1, c, msg.id, Some(e), None, env), Continue)
    else
      var (s1, err) := Handle(s, c, msg, env);
      (Acknowledge(s1, c, msg.id, err, None, env), if msg.content.Stop? then Finish else Continue)
  }

  function ProcessTask(s: Core, task: Task, env: Env): (Core, Verdict) {
    var s0 := s.(processed := s.processed + [task]);
    match task
    case Register => (RegisterClient(s0), Continue)
    case Deregister(c) => (DeregisterClient(s0, c), Continue)
    case Message(c, msg) => ProcessMsg(s0, c, msg, env)
    case RequestTimeout(m) =>
      var (s1, err) := Respond(s0, 0, m, Timeout, [], env);
      (s1, if err.Some? then Fail(err.value) else Continue)
  }
}
