/** Where the messages in a client's channel come from, over whole runs: each was put there while one task was
    processed, and that task accounts for it. */
module Origins {
  import opened Common
  import opened Tries
  import opened FlatDirectories
  import opened Topics
  import opened Protocol
  import opened ServerSpec
  import opened ServerInvariants
  import opened ServerEffects
  import opened Systems
  import opened ServerTheorems
  import opened ServerPromises

  // ---------- One task ----------

  /** `task`, processed with directory `dir`, is a reason to send `x` to `c`. */
  predicate Caused(dir: Flat, task: Task, env: Env, c: ClientId, x: ProtocolServer) {
    match x
    case Ack(msgId, err, recipients) =>
      && task.Message? && task.client == c && task.msg.id == msgId
      && recipients == (if task.msg.content.Pub? && err.None? then Some(|env.order|) else None)
    case Pub(topic, payload) =>
      task.Message? && task.msg.content == ProtocolClient.Pub(topic, payload) && c in env.order
    case Req(topic, payload) =>
      && task.Message? && task.msg.content == ProtocolClient.Req(topic, payload)
      && dir.Owner(Segments(topic)) == Some(c)
    case Rsp(_, _, _) => task.RequestTimeout? || (task.Message? && task.msg.content.Rsp?)
  }

  /** Message `i` of `c` came between `s` and `s'`. */
  predicate IsNew(s: Core, s': Core, c: ClientId, i: nat) {
    |s.Channel(c)| <= i < |s'.Channel(c)|
  }

  /** From `s` to `s'` channels only grew, each by messages that `task` is a reason for; Acks only if `acks`. */
  ghost predicate Adds(s: Core, s': Core, dir: Flat, task: Task, env: Env, acks: bool) {
    && (forall c: ClientId :: s.Channel(c) <= s'.Channel(c))
    && (forall c: ClientId, i: nat | IsNew(s, s', c, i) ::
          Caused(dir, task, env, c, s'.Channel(c)[i].content) && (s'.Channel(c)[i].content.Ack? ==> acks))
  }

  lemma AddsTransitive(s: Core, t: Core, u: Core, dir: Flat, task: Task, env: Env, a: bool, b: bool)
    requires Adds(s, t, dir, task, env, a) && Adds(t, u, dir, task, env, b)
    ensures Adds(s, u, dir, task, env, a || b)
  {
    hide Caused;
    forall c: ClientId ensures s.Channel(c) <= u.Channel(c) {
      assert s.Channel(c) <= t.Channel(c) && t.Channel(c) <= u.Channel(c);
    }
    forall c: ClientId, i: nat | IsNew(s, u, c, i)
      ensures Caused(dir, task, env, c, u.Channel(c)[i].content) && (u.Channel(c)[i].content.Ack? ==> a || b)
    {
      assert t.Channel(c) <= u.Channel(c);
      assert if i < |t.Channel(c)| then IsNew(s, t, c, i) else IsNew(t, u, c, i);
    }
  }

  lemma SameChannels(s: Core, s': Core, dir: Flat, task: Task, env: Env)
    requires s'.sent == s.sent
    ensures Adds(s, s', dir, task, env, false)
  {
    assert forall c: ClientId :: s'.Channel(c) == s.Channel(c);
  }

  lemma DeliverAdds(s: Core, c: ClientId, x: ProtocolServer, env: Env, dir: Flat, task: Task)
    requires Caused(dir, task, env, c, x)
    ensures Adds(s, Deliver(s, c, x, env).0, dir, task, env, x.Ack?)
  {
    hide Caused;
    DeliverShape(s, c, x, env);
    hide Deliver;
  }

  /** At most one message is added, at the end of one channel. */
  lemma DeliverShape(s: Core, c: ClientId, x: ProtocolServer, env: Env)
    ensures var (s', r) := Deliver(s, c, x, env);
            && (forall d: ClientId | d != c :: s'.Channel(d) == s.Channel(d))
            && s'.Channel(c) == (if r.Ok? then s.Channel(c) + [Msg(s.nextMsgId, x)] else s.Channel(c))
            && (r.Ok? ==> r.value == s.nextMsgId) && s'.accepted == s.accepted && s'.processed == s.processed
  {}

  lemma {:induction false} PublishAdds(s: Core, clients: seq<ClientId>, x: ProtocolServer, env: Env, dir: Flat,
                                       task: Task)
    requires !x.Ack? && forall c | c in clients :: Caused(dir, task, env, c, x)
    ensures Adds(s, PublishTo(s, clients, x, env).0, dir, task, env, false)
    decreases |clients|
  {
    hide Adds, Deliver, Caused;
    SameChannels(s, s, dir, task, env);
    if clients != [] && clients[0] != 0 {
      var (s1, r) := Deliver(s, clients[0], x, env);
      DeliverAdds(s, clients[0], x, env, dir, task);
      if r.Ok? {
        PublishAdds(s1, clients[1..], x, env, dir, task);
        AddsTransitive(s, s1, PublishTo(s1, clients[1..], x, env).0, dir, task, env, false, false);
      }
    }
  }

  lemma RequestAdds(s: Core, c: ClientId, msg: ClientMsg, env: Env)
    requires msg.content.Req?
    ensures Adds(s, Handle(s, c, msg, env).0, s.dir, Message(c, msg), env, false)
  {
    hide Adds, Deliver;
    var task, x := Message(c, msg), ProtocolServer.Req(msg.content.topic, msg.content.payload);
    SameChannels(s, s, s.dir, task, env);
    var owner := s.dir.Owner(Segments(msg.content.topic));
    if owner.Some? {
      var s1, s' := Deliver(s, owner.value, x, env).0, Handle(s, c, msg, env).0;
      DeliverAdds(s, owner.value, x, env, s.dir, task);
      SameChannels(s1, s', s.dir, task, env);
      AddsTransitive(s, s1, s', s.dir, task, env, false, false);
    }
  }

  lemma RespondAdds(s: Core, author: ClientId, m: MsgId, status: RspStatus, payload: Payload, env: Env, task: Task)
    requires task.RequestTimeout? || (task.Message? && task.msg.content.Rsp?)
    ensures Adds(s, Respond(s, author, m, status, payload, env).0, s.dir, task, env, false)
  {
    hide Adds, Deliver;
    SameChannels(s, s, s.dir, task, env);
    if m in s.pending && (author == 0 || s.pending[m].responder == author) {
      var p := s.pending[m];
      var s1 := s.(pending := s.pending - {m});
      var x := ProtocolServer.Rsp(p.requestId, status, payload);
      var s2, s' := Deliver(s1, p.requester, x, env).0, Respond(s, author, m, status, payload, env).0;
      SameChannels(s, s1, s.dir, task, env);
      DeliverAdds(s1, p.requester, x, env, s.dir, task);
      SameChannels(s2, s', s.dir, task, env);
      AddsTransitive(s, s1, s2, s.dir, task, env, false, false);
      AddsTransitive(s, s2, s', s.dir, task, env, false, false);
    }
  }

  lemma HandleAdds(s: Core, c: ClientId, msg: ClientMsg, env: Env)
    requires !msg.content.Pub?
    ensures Adds(s, Handle(s, c, msg, env).0, s.dir, Message(c, msg), env, false)
  {
    hide Adds, Request, Respond, Serve, Unserve;
    if msg.content.Req? {
      RequestAdds(s, c, msg, env);
    } else if msg.content.Rsp? {
      RespondAdds(s, c, msg.content.reqId, msg.content.status, msg.content.payload, env, Message(c, msg));
    } else {
      OnlyDirectory(s, c, msg, env);
      SameChannels(s, Handle(s, c, msg, env).0, s.dir, Message(c, msg), env);
    }
  }

  /** The state in which the Ack is sent, and the Ack, unless the server dies of the message. */
  function BeforeAck(s: Core, c: ClientId, msg: ClientMsg, env: Env): (Core, Option<ProtocolServer>) {
    if msg.content.Pub? then
      match PublishTo(s, env.order, ProtocolServer.Pub(msg.content.topic, msg.content.payload), env)
      case (s1, Killed) => (s1, None)
      case (s1, AllSent) => (s1, Some(ProtocolServer.Ack(msg.id, None, Some(|env.order|))))
      case (s1, NotSent(e)) => (s1, Some(ProtocolServer.Ack(msg.id, Some(e), None)))
    else
      var (s1, err) := Handle(s, c, msg, env);
      (s1, Some(ProtocolServer.Ack(msg.id, err, None)))
  }

  lemma AckComesLast(s: Core, c: ClientId, msg: ClientMsg, env: Env)
    ensures var (s1, ack) := BeforeAck(s, c, msg, env);
            && ProcessMsg(s, c, msg, env).0 == (if ack.Some? then Deliver(s1, c, ack.value, env).0 else s1)
            && (ack.Some? ==> ack.value.Ack? && Caused(s.dir, Message(c, msg), env, c, ack.value))
  {
    hide PublishTo, Handle, Deliver;
  }

  lemma BeforeAckAdds(s: Core, c: ClientId, msg: ClientMsg, env: Env)
    ensures Adds(s, BeforeAck(s, c, msg, env).0, s.dir, Message(c, msg), env, false)
  {
    hide Adds, PublishTo, Handle;
    if msg.content.Pub? {
      var x := ProtocolServer.Pub(msg.content.topic, msg.content.payload);
      PublishAdds(s, env.order, x, env, s.dir, Message(c, msg));
    } else {
      HandleAdds(s, c, msg, env);
    }
  }

  /** A new Ack is the last message in its channel. */
  ghost predicate AcksLast(s: Core, s': Core) {
    forall c: ClientId, i: nat | IsNew(s, s', c, i) && s'.Channel(c)[i].content.Ack? :: i == |s'.Channel(c)| - 1
  }

  lemma MessageAdds(s: Core, c: ClientId, msg: ClientMsg, env: Env)
    ensures var s' := ProcessMsg(s, c, msg, env).0;
            Adds(s, s', s.dir, Message(c, msg), env, true) && AcksLast(s, s')
  {
    hide BeforeAck, ProcessMsg, Deliver, Caused;
    var (s1, ack) := BeforeAck(s, c, msg, env);
    var s' := ProcessMsg(s, c, msg, env).0;
    AckComesLast(s, c, msg, env);
    BeforeAckAdds(s, c, msg, env);
    if ack.Some? {
      DeliverAdds(s1, c, ack.value, env, s.dir, Message(c, msg));
      AddsTransitive(s, s1, s', s.dir, Message(c, msg), env, false, true);
      NewAckLast(s, s1, c, ack.value, env, s.dir, Message(c, msg));
    }
  }

  lemma NewAckLast(s: Core, s1: Core, c: ClientId, ack: ProtocolServer, env: Env, dir: Flat, task: Task)
    requires Adds(s, s1, dir, task, env, false)
    ensures AcksLast(s, Deliver(s1, c, ack, env).0)
  {
    hide Caused;
    DeliverShape(s1, c, ack, env);
    var s' := Deliver(s1, c, ack, env).0;
    hide Deliver;
    forall d: ClientId, i: nat | IsNew(s, s', d, i) && s'.Channel(d)[i].content.Ack? ensures i == |s'.Channel(d)| - 1 {
      assert i < |s1.Channel(d)| ==> IsNew(s, s1, d, i);
    }
  }

  lemma TaskAdds(s: Core, task: Task, env: Env)
    requires s.nextClientId !in s.sent
    ensures var s' := ProcessTask(s, task, env).0; Adds(s, s', s.dir, task, env, true) && AcksLast(s, s')
  {
    hide Adds, Caused, ProcessMsg, Respond;
    var s0, s' := s.(processed := s.processed + [task]), ProcessTask(s, task, env).0;
    assert forall c: ClientId :: s0.Channel(c) == s.Channel(c);
    match task {
      case Register => NoNewMessages(s, s', task, env) by { RegisterShape(s0); }
      case Deregister(c) => NoNewMessages(s, s', task, env);
      case Message(c, msg) =>
        MessageAdds(s0, c, msg, env);
        SameStart(s, s0, s', task, env);
      case RequestTimeout(m) =>
        RespondAdds(s0, 0, m, Timeout, [], env, task);
        NoAcks(s0, s', s.dir, task, env);
        SameStart(s, s0, s', task, env);
    }
  }

  lemma RegisterShape(s: Core)
    requires s.nextClientId !in s.sent
    ensures forall c: ClientId :: RegisterClient(s).Channel(c) == s.Channel(c)
  {}

  lemma NoNewMessages(s: Core, s': Core, task: Task, env: Env)
    requires forall c: ClientId :: s'.Channel(c) == s.Channel(c)
    ensures Adds(s, s', s.dir, task, env, true) && AcksLast(s, s')
  {}

  lemma NoAcks(s: Core, s': Core, dir: Flat, task: Task, env: Env)
    requires Adds(s, s', dir, task, env, false)
    ensures Adds(s, s', dir, task, env, true) && AcksLast(s, s')
  {
    hide Caused;
  }

  lemma SameStart(s: Core, s0: Core, s': Core, task: Task, env: Env)
    requires s0.sent == s.sent && s0.dir == s.dir && Adds(s0, s', s.dir, task, env, true) && AcksLast(s0, s')
    ensures Adds(s, s', s.dir, task, env, true) && AcksLast(s, s')
  {
    hide Caused;
    assert forall c: ClientId :: s0.Channel(c) == s.Channel(c);
    assert forall c: ClientId, i: nat | IsNew(s, s', c, i) :: IsNew(s0, s', c, i);
  }

  // ---------- Whole runs ----------

  /** Event `k` processed a task and put message `i` into `c`'s channel. */
  ghost predicate PutAt(events: seq<Event>, k: nat, c: ClientId, i: nat) {
    && k < |events| && events[k].Process? && StateAfter(events[..k]).queue != []
    && IsNew(StateAfter(events[..k]).core, StateAfter(events[..k + 1]).core, c, i)
  }

  /** The task that event `k` processed. */
  function TaskAt(events: seq<Event>, k: nat): Task
    requires k < |events| && StateAfter(events[..k]).queue != []
  {
    StateAfter(events[..k]).queue[0]
  }

  /** Every message in a channel was put there by some event. */
  lemma {:induction false} PutSomewhere(events: seq<Event>, c: ClientId, i: nat) returns (k: nat)
    requires IsRun(events) && i < |StateAfter(events).core.Channel(c)|
    ensures PutAt(events, k, c, i)
    decreases |events|
  {
    assert events != [];
    hide IsRun, StateAfter, Enabled, ProcessTask;
    k := |events| - 1;
    var before := events[..k];
    assert events[..k + 1] == events;
    UpTo(events, k);
    if i < |StateAfter(before).core.Channel(c)| {
      k := PutSomewhere(before, c, i);
      assert before[..k] == events[..k] && before[..k + 1] == events[..k + 1];
    } else {
      OnlyProcessingSends(StateAfter(before), events[k], c);
    }
  }

  lemma OnlyProcessingSends(y: System, e: Event, c: ClientId)
    requires |y.core.Channel(c)| < |Apply(y, e).core.Channel(c)|
    ensures e.Process? && y.queue != []
  {
    hide ProcessTask;
  }

  /** There it stays, and its task is its cause. */
  lemma CauseOf(events: seq<Event>, k: nat, c: ClientId, i: nat)
    requires IsRun(events) && PutAt(events, k, c, i)
    ensures i < |StateAfter(events).core.Channel(c)|
    ensures var x := StateAfter(events).core.Channel(c)[i];
            && Caused(StateAfter(events[..k]).core.dir, TaskAt(events, k), events[k].env, c, x.content)
            && x == StateAfter(events[..k + 1]).core.Channel(c)[i]
            && (x.content.Ack? ==> i == |StateAfter(events[..k + 1]).core.Channel(c)| - 1)
  {
    hide IsRun, StateAfter, Enabled, Caused, ProcessTask, SystemInv;
    var y := StateAfter(events[..k]);
    UpTo(events, k);
    RunExtends(events, k + 1);
    InvAfter(events[..k]);
    FreshClient(y.core);
    TaskAdds(y.core, y.queue[0], events[k].env);
  }

  lemma FreshClient(s: Core)
    requires Inv(s, {})
    ensures s.nextClientId !in s.sent
  {}

  /** A publication is sent to all whose subscriptions match, in some order. */
  lemma OrderListed(events: seq<Event>, k: nat)
    requires IsRun(events) && k < |events| && events[k].Process? && StateAfter(events[..k]).queue != []
    requires TaskAt(events, k).Message? && TaskAt(events, k).msg.content.Pub?
    ensures var dir, pub := StateAfter(events[..k]).core.dir, TaskAt(events, k).msg.content;
            Lists(events[k].env.order, dir.Subscribers(Segments(pub.topic)))
  {
    hide IsRun, StateAfter, Apply, Lists;
    UpTo(events, k);
  }

  /** `k` is the event that sent `c` the Ack at place `i`, for the message it processed: an Ack without an error
      reports, for a publication, how many clients held a matching subscription at that moment. */
  ghost predicate Acknowledges(events: seq<Event>, k: nat, c: ClientId, i: nat) {
    && PutAt(events, k, c, i) && i < |StateAfter(events).core.Channel(c)|
    && var ack, task := StateAfter(events).core.Channel(c)[i].content, TaskAt(events, k);
       && ack.Ack? && task.Message? && task.client == c && task.msg.id == ack.msgId
       && ack.recipients == (
            if task.msg.content.Pub? && ack.err.None?
            then Some(|StateAfter(events[..k]).core.dir.Subscribers(Segments(task.msg.content.topic))|)
            else None)
  }

  lemma AckAnswersMessage(events: seq<Event>, c: ClientId, i: nat) returns (k: nat)
    requires IsRun(events) && i < |StateAfter(events).core.Channel(c)|
    requires StateAfter(events).core.Channel(c)[i].content.Ack?
    ensures Acknowledges(events, k, c, i)
  {
    k := PutSomewhere(events, c, i);
    AckFrom(events, k, c, i);
  }

  lemma AckFrom(events: seq<Event>, k: nat, c: ClientId, i: nat)
    requires IsRun(events) && PutAt(events, k, c, i) && i < |StateAfter(events).core.Channel(c)|
    requires StateAfter(events).core.Channel(c)[i].content.Ack?
    ensures Acknowledges(events, k, c, i)
  {
    CauseOf(events, k, c, i);
    hide IsRun, StateAfter, PutAt, IsNew;
    if TaskAt(events, k).msg.content.Pub? {
      OrderListed(events, k);
      DistinctCount(events[k].env.order);
    }
  }

  /** The history of processed tasks shows what event `k` processed. */
  lemma ProcessedAt(events: seq<Event>, k: nat)
    requires IsRun(events) && k < |events| && events[k].Process? && StateAfter(events[..k]).queue != []
    ensures var p, now := |StateAfter(events[..k]).core.processed|, StateAfter(events).core.processed;
            p < |now| && now[p] == TaskAt(events, k) && p < |StateAfter(events[..k + 1]).core.processed|
  {
    hide IsRun, StateAfter, Enabled, ProcessTask, SystemInv;
    var y := StateAfter(events[..k]);
    UpTo(events, k);
    Reachable(events[..k]);
    TaskRecorded(y, events[k].env);
    RunExtends(events, k + 1);
  }

  lemma LaterProcessed(events: seq<Event>, k: nat, l: nat)
    requires IsRun(events) && k < l < |events| && events[k].Process? && StateAfter(events[..k]).queue != []
    ensures |StateAfter(events[..k]).core.processed| < |StateAfter(events[..l]).core.processed|
  {
    hide IsRun, StateAfter;
    ProcessedAt(events, k);
    UpTo(events, l);
    assert events[..l][..k + 1] == events[..k + 1];
    RunExtends(events[..l], k + 1);
  }

  /** Two Acks, wherever they stand, answer two different messages: those at two places in the history of
      processed tasks. */
  lemma OneAckPerMessage(events: seq<Event>, c: ClientId, i: nat, d: ClientId, j: nat) returns (k: nat, l: nat)
    requires IsRun(events) && (c, i) != (d, j)
    requires var s := StateAfter(events).core;
             && i < |s.Channel(c)| && s.Channel(c)[i].content.Ack?
             && j < |s.Channel(d)| && s.Channel(d)[j].content.Ack?
    ensures Acknowledges(events, k, c, i) && Acknowledges(events, l, d, j)
    ensures |StateAfter(events[..k]).core.processed| != |StateAfter(events[..l]).core.processed|
  {
    hide IsRun, StateAfter, Acknowledges;
    k := AckAnswersMessage(events, c, i);
    l := AckAnswersMessage(events, d, j);
    OneAckPerEvent(events, k, l, c, i, d, j);
    if k < l { LaterProcessed(events, k, l); }
    if l < k { LaterProcessed(events, l, k); }
  }

  lemma OneAckPerEvent(events: seq<Event>, k: nat, l: nat, c: ClientId, i: nat, d: ClientId, j: nat)
    requires IsRun(events) && (c, i) != (d, j) && Acknowledges(events, k, c, i) && Acknowledges(events, l, d, j)
    ensures k != l
    ensures k < |events| && events[k].Process? && StateAfter(events[..k]).queue != []
    ensures l < |events| && events[l].Process? && StateAfter(events[..l]).queue != []
  {
    hide IsRun, StateAfter, Caused, IsNew;
    CauseOf(events, k, c, i);
    CauseOf(events, l, d, j);
  }

  /** If a publication is acknowledged without an error, each client with a matching subscription was sent one copy
      just before the Ack, and nobody else was sent anything. */
  lemma AcknowledgedMeansSent(events: seq<Event>, k: nat, c: ClientId, i: nat) returns (s1: Core)
    requires IsRun(events) && Acknowledges(events, k, c, i)
    requires TaskAt(events, k).msg.content.Pub? && StateAfter(events).core.Channel(c)[i].content.err.None?
    ensures var s, pub := StateAfter(events[..k]).core, TaskAt(events, k).msg.content;
            var matching := s.dir.Subscribers(Segments(pub.topic));
            && (forall d: ClientId :: OneCopy(s, s1, d, ProtocolServer.Pub(pub.topic, pub.payload), d in matching))
            && StateAfter(events[..k + 1]).core
               == Acknowledge(s1, c, TaskAt(events, k).msg.id, None, Some(|matching|), events[k].env)
  {
    CauseOf(events, k, c, i);
    OrderListed(events, k);
    UpTo(events, k);
    hide IsRun, StateAfter, Enabled, Caused, ProcessTask;
    s1 := PublicationAcked(StateAfter(events[..k]).core, c, TaskAt(events, k).msg, events[k].env, i);
  }

  lemma PublicationAcked(s: Core, c: ClientId, msg: ClientMsg, env: Env, i: nat) returns (s1: Core)
    requires msg.content.Pub? && Lists(env.order, s.dir.Subscribers(Segments(msg.content.topic)))
    requires var s' := ProcessTask(s, Message(c, msg), env).0;
             IsNew(s, s', c, i) && s'.Channel(c)[i].content.Ack? && s'.Channel(c)[i].content.err.None?
    ensures var matching := s.dir.Subscribers(Segments(msg.content.topic));
            var x := ProtocolServer.Pub(msg.content.topic, msg.content.payload);
            && (forall d: ClientId :: OneCopy(s, s1, d, x, d in matching))
            && ProcessTask(s, Message(c, msg), env).0 == Acknowledge(s1, c, msg.id, None, Some(|matching|), env)
  {
    var s0 := s.(processed := s.processed + [Message(c, msg)]);
    var x := ProtocolServer.Pub(msg.content.topic, msg.content.payload);
    var matching := s.dir.Subscribers(Segments(msg.content.topic));
    var k := FanOut(s0, env.order, x, env);
    var (s2, r) := PublishTo(s0, env.order, x, env);
    s1 := s2;
    AckSaysAllSent(s0, c, msg, env, i);
    DistinctCount(env.order);
    assert env.order[..k] == env.order;
    hide PublishTo, Acknowledge;
    forall d: ClientId ensures OneCopy(s, s1, d, x, d in matching) {
      assert OneCopy(s0, s1, d, x, d in env.order[..k]) && s0.Channel(d) == s.Channel(d);
      assert d in matching <==> d in Elements(env.order);
    }
  }

  lemma AckSaysAllSent(s: Core, c: ClientId, msg: ClientMsg, env: Env, i: nat)
    requires msg.content.Pub?
    requires var s' := ProcessMsg(s, c, msg, env).0;
             IsNew(s, s', c, i) && s'.Channel(c)[i].content.Ack? && s'.Channel(c)[i].content.err.None?
    ensures PublishTo(s, env.order, ProtocolServer.Pub(msg.content.topic, msg.content.payload), env).1.AllSent?
  {
    hide PublishTo, Deliver, ProcessMsg, Caused;
    AckComesLast(s, c, msg, env);
    BeforeAckAdds(s, c, msg, env);
    var (s1, ack) := BeforeAck(s, c, msg, env);
    assert i < |s1.Channel(c)| ==> IsNew(s, s1, c, i);
    if ack.Some? { DeliverShape(s1, c, ack.value, env); }
  }

  /** Every publication in a channel was published, under that topic and with that payload, at a moment when the
      client held a matching subscription. */
  lemma PublicationOrigin(events: seq<Event>, c: ClientId, i: nat) returns (k: nat)
    requires IsRun(events) && i < |StateAfter(events).core.Channel(c)|
    requires StateAfter(events).core.Channel(c)[i].content.Pub?
    ensures PutAt(events, k, c, i)
    ensures var x, task := StateAfter(events).core.Channel(c)[i].content, TaskAt(events, k);
            && task.Message? && task.msg.content == ProtocolClient.Pub(x.topic, x.payload)
            && c in StateAfter(events[..k]).core.dir.Subscribers(Segments(x.topic))
  {
    k := PutSomewhere(events, c, i);
    CauseOf(events, k, c, i);
    hide IsRun, StateAfter, PutAt, IsNew;
    OrderListed(events, k);
    assert c in Elements(events[k].env.order);
  }

  /** Every request in a channel is an accepted one, forwarded to this client as the topic's owner of that moment. */
  lemma RequestRouted(events: seq<Event>, c: ClientId, i: nat) returns (k: nat)
    requires IsRun(events) && i < |StateAfter(events).core.Channel(c)|
    requires StateAfter(events).core.Channel(c)[i].content.Req?
    ensures PutAt(events, k, c, i)
    ensures var s, x, task := StateAfter(events).core, StateAfter(events).core.Channel(c)[i], TaskAt(events, k);
            && x.id in s.accepted && s.accepted[x.id].responder == c
            && s.accepted[x.id].topic == x.content.topic && s.accepted[x.id].payload == x.content.payload
            && task == Message(s.accepted[x.id].requester,
                               Msg(s.accepted[x.id].requestId, ProtocolClient.Req(x.content.topic, x.content.payload)))
            && StateAfter(events[..k]).core.dir.Owner(Segments(x.content.topic)) == Some(c)
  {
    k := PutSomewhere(events, c, i);
    CauseOf(events, k, c, i);
    UpTo(events, k);
    RunExtends(events, k + 1);
    hide IsRun, StateAfter, Enabled, ProcessTask, Core.Channel;
    SentMeansAccepted(StateAfter(events[..k]).core, TaskAt(events, k), events[k].env, c, i);
  }

  lemma SentMeansAccepted(s: Core, task: Task, env: Env, c: ClientId, i: nat)
    requires task.Message? && task.msg.content.Req?
    requires var s' := ProcessTask(s, task, env).0; IsNew(s, s', c, i) && s'.Channel(c)[i].content.Req?
    ensures var s' := ProcessTask(s, task, env).0;
            var x := s'.Channel(c)[i];
            x.id in s'.accepted && s'.accepted[x.id] == Acceptance(|s.processed|, task.client, task.msg.id, c,
                                                                   task.msg.content.topic, task.msg.content.payload)
  {
    hide Deliver, Segments, Respond, Serve, Unserve;
    var s0 := s.(processed := s.processed + [task]);
    var (s1, err) := Handle(s0, task.client, task.msg, env);
    var owner := s0.dir.Owner(Segments(task.msg.content.topic));
    assert s0.Channel(c) == s.Channel(c);
    DeliverShape(s1, task.client, ProtocolServer.Ack(task.msg.id, err, None), env);
    if owner.Some? {
      DeliverShape(s0, owner.value, ProtocolServer.Req(task.msg.content.topic, task.msg.content.payload), env);
    }
  }
}
