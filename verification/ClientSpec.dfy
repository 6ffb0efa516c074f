/** The client core as a state machine: callback tables, identified by their keys, and a local directory. */
module ClientSpec {
  import opened Common
  import opened Matching
  import opened FlatDirectories
  import opened Topics
  import opened Protocol

  datatype ClientTask =
    | TaskPub(topic: Topic, payload: Payload)
    | TaskSub(topic: Topic)
    | TaskReq(topic: Topic, payload: Payload)
    | TaskRsp(reqId: MsgId, status: RspStatus, payload: Payload)
    | TaskSrv(topic: Topic)
    | TaskUnsub(topic: Topic)
    | TaskUnsrv(topic: Topic)
    | TaskStop
    | TaskStopBus
    | TaskKeepAlive

  /** What a callback is sent. */
  datatype Call =
    | CallAck(id: MsgId, err: Option<BusError>, recipients: Option<nat>)
    | CallRsp(id: MsgId, status: RspStatus, payload: Payload)
    | CallPub(id: MsgId, topic: Topic, payload: Payload)
    | CallReq(id: MsgId, reqId: MsgId, topic: Topic, payload: Payload)

  datatype Client = Client(
    nextMsgId: MsgId,
    acks: set<MsgId>,
    rsps: set<MsgId>,
    pubs: set<MsgId>,
    reqs: set<MsgId>,
    dir: Flat,
    calls: seq<Call>)  // history: every callback that was reached, in order

  /** How one step of the client's loop ends: go on, leave the loop with an error, or fail an `unwrap`. */
  datatype Ending = Alive | Failed | Panicked

  function InitClient(): Client {
    Client(0, {}, {}, {}, {}, Flat({}, map[]), [])
  }

  // ---------- Sending ----------

  /** The message that goes out, unless the step fails. */
  function BeforeSend(s: Client, task: ClientTask): (Client, Ending, seq<ClientMsg>) {
    var id := s.nextMsgId + 1;
    var s1 := s.(nextMsgId := id);
    match task
    case TaskPub(topic, payload) =>
      (s1.(acks := s.acks + {id}), Alive, [Msg(id, ProtocolClient.Pub(topic, payload))])
    case TaskSub(topic) =>
      (s1.(acks := s.acks + {id}, pubs := s.pubs + {id}, dir := s.dir.Subscribe(id, Segments(topic))),
       Alive, [Msg(id, ProtocolClient.Sub(topic))])
    case TaskReq(topic, payload) =>
      (s1.(acks := s.acks + {id}, rsps := s.rsps + {id}), Alive, [Msg(id, ProtocolClient.Req(topic, payload))])
    case TaskRsp(reqId, status, payload) =>
      (s1.(acks := s.acks + {id}), Alive, [Msg(id, ProtocolClient.Rsp(reqId, status, payload))])
    case TaskUnsub(topic) => (s1, Alive, [Msg(id, ProtocolClient.Unsub(topic))])
    case TaskUnsrv(topic) =>
      (match s.dir.Owner(Segments(topic))
       case None => (s1, Panicked, [])
       case Some(owner) =>
         (s1.(dir := s.dir.Unclaim(owner, Segments(topic))), Alive, [Msg(id, ProtocolClient.Unsrv(topic))]))
    case TaskSrv(topic) =>
      var (dir, r) := s.dir.Claim(id, Segments(topic));
      var s2 := s1.(acks := s.acks + {id}, reqs := s.reqs + {id}, dir := dir);
      if r.Err? then (s2, Failed, []) else (s2, Alive, [Msg(id, ProtocolClient.Srv(topic))])
    case TaskStop => (s1, Panicked, [])
    case TaskStopBus => (s1.(acks := s.acks + {id}), Alive, [Msg(id, ProtocolClient.Stop)])
    case TaskKeepAlive => (s1, Alive, [Msg(id, ProtocolClient.KeepAlive)])
  }

  /** The message is built and goes out, unless it is among those that the connection refuses. */
  function Send(s: Client, task: ClientTask, lost: set<MsgId>): (Client, Ending, seq<ClientMsg>) {
    var (s1, ending, out) := BeforeSend(s, task);
    if ending == Alive && s1.nextMsgId in lost then (s1, Failed, []) else (s1, ending, out)
  }

  // ---------- Receiving ----------

  /** What the world decides: the order in which callbacks are visited, which of them were dropped by their
      users, in what order the topics that a dropped callback leaves empty are listed, and which messages the
      connection refuses. */
  datatype Choices = Choices(order: seq<MsgId>, dead: set<MsgId>, emptied: map<MsgId, seq<Topic>>, lost: set<MsgId>)

  /** One Unsub message per topic, until one is refused. */
  function Unsubscribe(s: Client, topics: seq<Topic>, lost: set<MsgId>): (Client, Ending, seq<ClientMsg>)
    decreases |topics|
  {
    if topics == [] then (s, Alive, [])
    else
      var (s1, ending, out) := Send(s, TaskUnsub(topics[0]), lost);
      if ending != Alive then (s1, ending, out)
      else
        var (s2, ending2, more) := Unsubscribe(s1, topics[1..], lost);
        (s2, ending2, out + more)
  }

  /** Forget a callback whose user is gone. */
  function Forget(s: Client, id: MsgId, topics: seq<Topic>, lost: set<MsgId>): (Client, Ending, seq<ClientMsg>) {
    Unsubscribe(s.(pubs := s.pubs - {id}, dir := s.dir.DropClient(id)), topics, lost)
  }

  /** The topics that a dropped callback leaves without subscribers, listed in some order. */
  ghost predicate ListsEmptied(s: Client, id: MsgId, topics: seq<Topic>) {
    Distinct(topics) && forall t: Topic :: t in topics <==> Segments(t) in s.dir.SoleSubscriptions(id)
  }

  function Listed(ch: Choices, id: MsgId): seq<Topic> {
    if id in ch.emptied then ch.emptied[id] else []
  }

  function Called(s: Client, call: Call): Client {
    s.(calls := s.calls + [call])
  }

  /** One turn of the delivery loop: the callback is reached, or forgotten because its user is gone. */
  function CallOne(s: Client, id: MsgId, topic: Topic, payload: Payload, ch: Choices)
    : (Client, Ending, seq<ClientMsg>)
  {
    if id in ch.dead then Forget(s, id, Listed(ch, id), ch.lost)
    else (Called(s, CallPub(id, topic, payload)), Alive, [])
  }

  /** The delivery loop over the callbacks still to be visited. */
  function CallAll(s: Client, ids: seq<MsgId>, topic: Topic, payload: Payload, ch: Choices)
    : (Client, Ending, seq<ClientMsg>)
    decreases |ids|
  {
    if ids == [] then (s, Alive, [])
    else if ids[0] !in s.pubs then (s, Panicked, [])
    else
      var (s1, ending, out) := CallOne(s, ids[0], topic, payload, ch);
      if ending != Alive then (s1, ending, out)
      else
        var (s2, ending2, more) := CallAll(s1, ids[1..], topic, payload, ch);
        (s2, ending2, out + more)
  }

  /** The choices fit what the loop meets. */
  ghost predicate Fits(s: Client, ids: seq<MsgId>, topic: Topic, payload: Payload, ch: Choices)
    decreases |ids|
  {
    ids != [] && ids[0] in s.pubs ==>
      var (s1, ending, _) := CallOne(s, ids[0], topic, payload, ch);
      && (ids[0] in ch.dead ==> ListsEmptied(s, ids[0], Listed(ch, ids[0])))
      && (ending == Alive ==> Fits(s1, ids[1..], topic, payload, ch))
  }

  function AfterReceive(s: Client, msg: ServerMsg, ch: Choices): (Client, Ending, seq<ClientMsg>) {
    match msg.content
    case Ack(msgId, err, recipients) =>
      if msgId !in s.acks then (s, Alive, [])
      else (Called(s.(acks := s.acks - {msgId}), CallAck(msgId, err, recipients)), Alive, [])
    case Rsp(reqId, status, payload) =>
      if reqId !in s.rsps then (s, Panicked, [])
      else (Called(s.(rsps := s.rsps - {reqId}), CallRsp(reqId, status, payload)), Alive, [])
    case Pub(topic, payload) => CallAll(s, ch.order, topic, payload, ch)
    case Req(topic, payload) =>
      match s.dir.Owner(Segments(topic))
      case None => (s, Alive, [])
      case Some(owner) =>
        if owner !in s.reqs then (s, Panicked, [])
        else if owner in ch.dead then (s, Failed, [])
        else (Called(s, CallReq(owner, msg.id, topic, payload)), Alive, [])
  }

  ghost predicate Possible(s: Client, msg: ServerMsg, ch: Choices) {
    msg.content.Pub? ==>
      && Lists(ch.order, s.dir.Subscribers(Segments(msg.content.topic)))
      && Fits(s, ch.order, msg.content.topic, msg.content.payload, ch)
  }

  // ---------- The tables agree with the directory ----------

  ghost predicate Subscribes(f: Flat, id: MsgId) {
    exists p :: (id, p) in f.subs
  }

  /** Subscribed ids are the keys of the publish callbacks, with one topic each; owners have request callbacks;
      no id serves both ways, and none is ahead of the counter. */
  ghost predicate Agrees(s: Client) {
    && WellFormed(s.dir)
    && (forall id: MsgId :: id in s.pubs <==> Subscribes(s.dir, id))
    && (forall d, e | d in s.dir.subs && e in s.dir.subs && d.0 == e.0 :: d == e)
    && (forall p | p in s.dir.owners :: s.dir.owners[p] in s.reqs)
    && s.pubs !! s.reqs
    && (forall id | id in s.pubs :: id <= s.nextMsgId)
    && (forall id | id in s.reqs :: id <= s.nextMsgId)
    && (forall id | id in s.rsps :: id <= s.nextMsgId)
  }

  lemma InitAgrees()
    ensures Agrees(InitClient())
  {}

  lemma SubscribeAgrees(s: Client, topic: Topic)
    requires Agrees(s)
    ensures Agrees(BeforeSend(s, TaskSub(topic)).0)
  {
    var s' := BeforeSend(s, TaskSub(topic)).0;
    var id := s.nextMsgId + 1;
    WellFormedKept(s.dir, DoSubscribe(id, topic));
    forall n: MsgId ensures n in s'.pubs <==> Subscribes(s'.dir, n) {
      if Subscribes(s'.dir, n) {
        var p :| (n, p) in s'.dir.subs;
        if n != id { assert (n, p) in s.dir.subs; }
      }
      if n in s.pubs { var p :| (n, p) in s.dir.subs; assert (n, p) in s'.dir.subs; }
      if n == id { assert (id, Segments(topic)) in s'.dir.subs; }
    }
    forall d | d in s.dir.subs ensures d.0 != id { assert d == (d.0, d.1) && Subscribes(s.dir, d.0); }
  }

  /** Sending keeps the tables in agreement, and the only `unwrap` that can fail is the one for an Unsrv on a
      topic that this client does not serve. */
  lemma BeforeSendAgrees(s: Client, task: ClientTask)
    requires Agrees(s)
    ensures var (s', ending, out) := BeforeSend(s, task);
            && Agrees(s')
            && (ending.Panicked? <==> task.TaskStop? || (task.TaskUnsrv? && s.dir.Owner(Segments(task.topic)).None?))
            && (ending.Failed? <==>
                  task.TaskSrv? && !(Concrete(Segments(task.topic)) && s.dir.Owner(Segments(task.topic)).None?))
            && (ending.Alive? <==> out != [])
  {
    match task
    case TaskSub(topic) => SubscribeAgrees(s, topic);
    case TaskSrv(topic) =>
      WellFormedKept(s.dir, DoClaim(s.nextMsgId + 1, topic));
      SameSubs(s, BeforeSend(s, task).0);
    case TaskUnsrv(topic) =>
      var owner := s.dir.Owner(Segments(topic));
      if owner.Some? {
        WellFormedKept(s.dir, DoUnclaim(owner.value, topic));
        SameSubs(s, BeforeSend(s, task).0);
      }
    case _ => SameSubs(s, BeforeSend(s, task).0);
  }

  lemma SameSubs(s: Client, s': Client)
    requires s'.dir.subs == s.dir.subs
    ensures forall id: MsgId :: Subscribes(s.dir, id) <==> Subscribes(s'.dir, id)
  {}

  /** The connection takes the next `n` messages. */
  ghost predicate Writable(last: MsgId, n: nat, lost: set<MsgId>) {
    forall id | last < id <= last + n :: id !in lost
  }

  lemma WritableSplit(last: MsgId, n: nat, k: nat, lost: set<MsgId>)
    ensures Writable(last, n + k, lost) <==> Writable(last, n, lost) && Writable(last + n, k, lost)
  {}

  /** Sending as a whole: besides the failures of `BeforeSend`, the connection may refuse the message. */
  lemma SendAgrees(s: Client, task: ClientTask, lost: set<MsgId>)
    requires Agrees(s)
    ensures var (s', ending, out) := Send(s, task, lost);
            && Agrees(s') && s' == BeforeSend(s, task).0
            && (ending.Panicked? <==> BeforeSend(s, task).1.Panicked?)
            && (ending.Alive? <==> BeforeSend(s, task).1.Alive? && Writable(s.nextMsgId, 1, lost))
  {
    BeforeSendAgrees(s, task);
    hide Agrees;
  }

  lemma UnsubscribeAgrees(s: Client, topics: seq<Topic>, lost: set<MsgId>)
    requires Agrees(s)
    ensures var (s', ending, out) := Unsubscribe(s, topics, lost);
            && Agrees(s') && s.nextMsgId <= s'.nextMsgId && s' == s.(nextMsgId := s'.nextMsgId) && ending != Panicked
            && (ending == Alive <==> Writable(s.nextMsgId, |topics|, lost))
            && (ending == Alive ==> s'.nextMsgId == s.nextMsgId + |topics|)
    decreases |topics|
  {
    hide Agrees;
    if topics != [] {
      SendAgrees(s, TaskUnsub(topics[0]), lost);
      WritableSplit(s.nextMsgId, 1, |topics| - 1, lost);
      hide Writable;
      UnsubscribeAgrees(Send(s, TaskUnsub(topics[0]), lost).0, topics[1..], lost);
    }
  }

  lemma DropAgrees(s: Client, id: MsgId)
    requires Agrees(s) && id in s.pubs
    ensures Agrees(s.(pubs := s.pubs - {id}, dir := s.dir.DropClient(id)))
  {
    var s' := s.(pubs := s.pubs - {id}, dir := s.dir.DropClient(id));
    WellFormedKept(s.dir, DoDrop(id));
    forall n: MsgId ensures n in s'.pubs <==> Subscribes(s'.dir, n) {
      if Subscribes(s'.dir, n) { var p :| (n, p) in s'.dir.subs; assert (n, p) in s.dir.subs; }
      if n in s'.pubs { var p :| (n, p) in s.dir.subs; assert (n, p) in s'.dir.subs; }
    }
  }

  /** The calls that reach the living callbacks among `ids`. */
  function LiveCalls(ids: seq<MsgId>, topic: Topic, payload: Payload, dead: set<MsgId>): seq<Call> {
    if ids == [] then []
    else (if ids[0] in dead then [] else [CallPub(ids[0], topic, payload)]) + LiveCalls(ids[1..], topic, payload, dead)
  }

  /** How many Unsub messages the visit calls for. */
  function Unsubs(ids: seq<MsgId>, ch: Choices): nat {
    if ids == [] then 0 else (if ids[0] in ch.dead then |Listed(ch, ids[0])| else 0) + Unsubs(ids[1..], ch)
  }

  lemma CallAllTurn(s: Client, ids: seq<MsgId>, topic: Topic, payload: Payload, ch: Choices)
    requires ids != [] && ids[0] in s.pubs
    ensures var (s1, ending1, _) := CallAll(s, ids, topic, payload, ch);
            var (t, ending, _) := CallOne(s, ids[0], topic, payload, ch);
            var (s2, ending2, _) := CallAll(t, ids[1..], topic, payload, ch);
            if ending == Alive then s1 == s2 && ending1 == ending2 else s1 == t && ending1 == ending
  {}

  lemma NothingToVisit(s: Client, topic: Topic, payload: Payload, ch: Choices)
    ensures CallAll(s, [], topic, payload, ch) == (s, Alive, []) && Writable(s.nextMsgId, Unsubs([], ch), ch.lost)
    ensures Elements<MsgId>([]) == {} && LiveCalls([], topic, payload, ch.dead) == []
  {}

  lemma VisitSplit(ids: seq<MsgId>, topic: Topic, payload: Payload, ch: Choices)
    requires ids != []
    ensures LiveCalls(ids, topic, payload, ch.dead)
            == LiveCalls([ids[0]], topic, payload, ch.dead) + LiveCalls(ids[1..], topic, payload, ch.dead)
    ensures Elements(ids) == {ids[0]} + Elements(ids[1..])
    ensures Unsubs(ids, ch) == Unsubs([ids[0]], ch) + Unsubs(ids[1..], ch)
  {
    assert ids == [ids[0]] + ids[1..] && [ids[0]][1..] == [];
  }

  lemma CallOneAgrees(s: Client, id: MsgId, topic: Topic, payload: Payload, ch: Choices)
    requires Agrees(s) && id in s.pubs
    ensures var (s1, ending, _) := CallOne(s, id, topic, payload, ch);
            && Agrees(s1) && s1.rsps == s.rsps && s1.reqs == s.reqs && s1.dir.owners == s.dir.owners
            && ending != Panicked
            && s1.pubs == (if id in ch.dead then s.pubs - {id} else s.pubs)
            && s1.calls == s.calls + LiveCalls([id], topic, payload, ch.dead)
            && (ending == Alive <==> Writable(s.nextMsgId, Unsubs([id], ch), ch.lost))
            && (ending == Alive ==> s1.nextMsgId == s.nextMsgId + Unsubs([id], ch))
  {
    assert [id][1..] == [] && Unsubs([id], ch) == if id in ch.dead then |Listed(ch, id)| else 0;
    if id in ch.dead {
      DropAgrees(s, id);
      UnsubscribeAgrees(s.(pubs := s.pubs - {id}, dir := s.dir.DropClient(id)), Listed(ch, id), ch.lost);
      DropsNoOwner(s, id);
    } else {
      SameSubs(s, Called(s, CallPub(id, topic, payload)));
    }
  }

  /** The delivery loop never misses a callback, although it drops some while it runs: each living one is
      reached exactly once, in the order of the visit. Only a refused Unsub ends it early, and then no callback
      was reached twice or out of order. */
  lemma {:induction false} CallAllAgrees(s: Client, ids: seq<MsgId>, topic: Topic, payload: Payload, ch: Choices)
    requires Agrees(s) && Distinct(ids) && forall id | id in ids :: id in s.pubs
    ensures var (s', ending, out) := CallAll(s, ids, topic, payload, ch);
            && Agrees(s') && ending != Panicked && s'.rsps == s.rsps && s'.reqs == s.reqs
            && s'.dir.owners == s.dir.owners
            && (ending == Alive <==> Writable(s.nextMsgId, Unsubs(ids, ch), ch.lost))
            && s.pubs - (Elements(ids) * ch.dead) <= s'.pubs <= s.pubs
            && s'.calls <= s.calls + LiveCalls(ids, topic, payload, ch.dead)
            && (ending == Alive ==>
                  && s'.pubs == s.pubs - (Elements(ids) * ch.dead)
                  && s'.calls == s.calls + LiveCalls(ids, topic, payload, ch.dead))
    decreases |ids|
  {
    hide Agrees, CallOne, CallAll, LiveCalls, Elements, Writable, Unsubs;
    if ids == [] {
      NothingToVisit(s, topic, payload, ch);
    } else {
      var (s1, ending, _) := CallOne(s, ids[0], topic, payload, ch);
      CallAllTurn(s, ids, topic, payload, ch);
      CallOneAgrees(s, ids[0], topic, payload, ch);
      VisitSplit(ids, topic, payload, ch);
      WritableSplit(s.nextMsgId, Unsubs([ids[0]], ch), Unsubs(ids[1..], ch), ch.lost);
      if ending == Alive { CallAllAgrees(s1, ids[1..], topic, payload, ch); }
    }
  }

  lemma DropsNoOwner(s: Client, id: MsgId)
    requires Agrees(s) && id in s.pubs
    ensures s.dir.DropClient(id).owners == s.dir.owners
  {}

  /** Receiving keeps the tables in agreement; the only `unwrap` that can fail is the one for a response to
      a request that is not waiting for one. */
  lemma AfterReceiveAgrees(s: Client, msg: ServerMsg, ch: Choices)
    requires Agrees(s) && Possible(s, msg, ch)
    ensures var (s', ending, out) := AfterReceive(s, msg, ch);
            && Agrees(s')
            && (ending.Panicked? <==> msg.content.Rsp? && msg.content.reqId !in s.rsps)
            && (ending.Failed? <==>
                  || (msg.content.Req? && s.dir.Owner(Segments(msg.content.topic)).Some?
                      && s.dir.Owner(Segments(msg.content.topic)).value in ch.dead)
                  || (msg.content.Pub? && !Writable(s.nextMsgId, Unsubs(ch.order, ch), ch.lost)))
            && s'.rsps == (if msg.content.Rsp? then s.rsps - {msg.content.reqId} else s.rsps)
            && s'.dir.owners == s.dir.owners
  {
    match msg.content
    case Pub(topic, payload) => PublicationReaches(s, msg, ch); hide CallAll, Writable, Unsubs;
    case _ => SameSubs(s, AfterReceive(s, msg, ch).0);
  }

  /** A publication reaches every matching local callback whose user is still there exactly once, and forgets
      exactly the matching ones whose user is gone, unless the connection refuses one of the Unsubs. */
  lemma PublicationReaches(s: Client, msg: ServerMsg, ch: Choices)
    requires Agrees(s) && Possible(s, msg, ch) && msg.content.Pub?
    ensures var (s', ending, out) := AfterReceive(s, msg, ch);
            var matching := s.dir.Subscribers(Segments(msg.content.topic));
            var live := LiveCalls(ch.order, msg.content.topic, msg.content.payload, ch.dead);
            && Agrees(s') && ending != Panicked && s'.rsps == s.rsps && s'.dir.owners == s.dir.owners
            && Lists(ch.order, matching)
            && (ending == Alive <==> Writable(s.nextMsgId, Unsubs(ch.order, ch), ch.lost))
            && s'.calls <= s.calls + live && s.pubs - (matching * ch.dead) <= s'.pubs <= s.pubs
            && (ending == Alive ==> s'.calls == s.calls + live && s'.pubs == s.pubs - (matching * ch.dead))
  {
    forall id | id in ch.order ensures id in s.pubs {
      assert id in Elements(ch.order);
      var e :| e in s.dir.subs && e.0 == id;
      assert e == (id, e.1);
    }
    CallAllAgrees(s, ch.order, msg.content.topic, msg.content.payload, ch);
  }
}
