/** More promises of the server: exclusive service, publish fan-out, and exactly when it stops. */
module ServerPromises {
  import opened Common
  import opened Matching
  import opened Tries
  import opened Topics
  import opened Protocol
  import opened ServerSpec
  import opened ServerInvariants
  import opened ServerEffects
  import opened Systems
  import opened ServerTheorems

  // ---------- Publish ----------

  /** `d`'s channel grew by one message with this content, or, if not `copied`, not at all. */
  ghost predicate OneCopy(s: Core, s': Core, d: ClientId, content: ProtocolServer, copied: bool) {
    var was, now := s.Channel(d), s'.Channel(d);
    if copied then |now| == |was| + 1 && now[..|was|] == was && now[|was|].content == content else now == was
  }

  lemma DeliverOneCopy(s: Core, c: ClientId, content: ProtocolServer, env: Env, d: ClientId)
    ensures var (s', r) := Deliver(s, c, content, env);
            && (r.Ok? <==> c in s.senders && !(c in env.leaving && s.nextMsgId in env.failing))
            && OneCopy(s, s', d, content, r.Ok? && d == c)
  {}

  /** The fan-out visits distinct clients in order and stops at the first that cannot be reached: exactly the
      first `k` got one copy each, nobody else got anything. */
  lemma {:induction false} FanOut(s: Core, clients: seq<ClientId>, content: ProtocolServer, env: Env) returns (k: nat)
    requires Distinct(clients)
    ensures k <= |clients|
    ensures var (s', r) := PublishTo(s, clients, content, env);
            && (r.AllSent? <==> k == |clients|)
            && (r.Killed? ==> k < |clients| && clients[k] == 0)
            && (r.NotSent? ==>
                  && k < |clients| && clients[k] != 0 && !CanReach(s, clients[k], k, env)
                  && r.error == if clients[k] in s.senders then DeliveryFailed(clients[k])
                                else UnknownClient(clients[k]))
            && (forall j: nat | j < k :: clients[j] != 0 && CanReach(s, clients[j], j, env))
            && forall d: ClientId :: OneCopy(s, s', d, content, d in clients[..k])
    decreases |clients|
  {
    k := 0;
    var (s', r) := PublishTo(s, clients, content, env);
    if clients != [] && clients[0] != 0 {
      var (s1, r1) := Deliver(s, clients[0], content, env);
      DeliverOneCopy(s, clients[0], content, env, 0);
      DeliverFails(s, clients[0], content, env);
      hide Deliver;
      if r1.Ok? {
        var j := FanOut(s1, clients[1..], content, env);
        k := j + 1;
        assert clients[..k] == [clients[0]] + clients[1..][..j];
        assert clients[0] !in clients[1..];
        forall i: nat | i < k ensures clients[i] != 0 && CanReach(s, clients[i], i, env) {
          assert i > 0 ==> clients[i] == clients[1..][i - 1] && CanReach(s1, clients[1..][i - 1], i - 1, env);
        }
      }
      forall d: ClientId ensures OneCopy(s, s', d, content, d in clients[..k]) {
        DeliverOneCopy(s, clients[0], content, env, d);
        if r1.Ok? { assert OneCopy(s1, s', d, content, d in clients[1..][..k - 1]); }
      }
    }
  }

  /** When a send fails, and with which error; otherwise it leaves the registrations alone. */
  lemma DeliverFails(s: Core, c: ClientId, content: ProtocolServer, env: Env)
    ensures var (s', r) := Deliver(s, c, content, env);
            && (r.Ok? <==> CanReach(s, c, 0, env))
            && (r.Err? ==> r.error == if c in s.senders then DeliveryFailed(c) else UnknownClient(c))
            && (r.Ok? ==> s'.senders == s.senders && s'.nextMsgId == s.nextMsgId + 1)
  {}

  /** Publishing on a topic that does not match the kill topic. If the Ack reports n recipients, every matching
      client and no other was sent exactly one copy, and n is their number. If it reports an error, the copies
      went to distinct matching clients. */
  lemma PublishReport(s: Core, c: ClientId, msg: ClientMsg, env: Env) returns (s1: Core, k: nat, err: Option<BusError>)
    requires Inv(s, {}) && msg.content.Pub?
    requires Lists(env.order, s.dir.Subscribers(Segments(msg.content.topic)))
             && !Overlap(KILL, Segments(msg.content.topic))
    ensures var matching := s.dir.Subscribers(Segments(msg.content.topic));
            var content := ProtocolServer.Pub(msg.content.topic, msg.content.payload);
            && ProcessMsg(s, c, msg, env)
               == (Acknowledge(s1, c, msg.id, err, if err.None? then Some(|matching|) else None, env), Continue)
            && (err.None? <==> k == |env.order|)
            && (err.None? ==> forall d: ClientId :: OneCopy(s, s1, d, content, d in matching))
            && k <= |env.order| && Distinct(env.order[..k]) && Elements(env.order[..k]) <= matching
            && (forall d: ClientId :: OneCopy(s, s1, d, content, d in env.order[..k]))
  {
    var q := Segments(msg.content.topic);
    var content := ProtocolServer.Pub(msg.content.topic, msg.content.payload);
    k := FanOut(s, env.order, content, env);
    var (s', r) := PublishTo(s, env.order, content, env);
    s1 := s';
    err := if r.NotSent? then Some(r.error) else None;
    DistinctCount(env.order);
    NoKill(s, q);
    forall d ensures d in env.order <==> d in s.dir.Subscribers(q) {
      assert d in env.order <==> d in Elements(env.order);
    }
    if k == |env.order| { assert env.order[..k] == env.order; }
    hide Inv, PublishTo, Acknowledge, OneCopy;
    forall d | d in Elements(env.order[..k]) ensures d in s.dir.Subscribers(q) { assert d in env.order; }
  }

  lemma NoKill(s: Core, q: Pattern)
    requires Inv(s, {})
    ensures 0 in s.dir.Subscribers(q) <==> Overlap(KILL, q)
  {
    if 0 in s.dir.Subscribers(q) {
      var e :| e in s.dir.subs && Overlap(e.1, q) && e.0 == 0;
    }
    if Overlap(KILL, q) { assert (0, KILL) in s.dir.subs; }
  }

  // ---------- Exclusive service ----------

  /** As far as this step goes, `c` keeps owning `p` unless it loses its registration. */
  ghost predicate KeepsOwner(s: Core, s': Core, c: ClientId, p: Pattern) {
    && s'.senders <= s.senders
    && (s.dir.Owner(p) == Some(c) && (c in s.senders ==> c in s'.senders) ==> s'.dir.Owner(p) == Some(c))
  }

  lemma KeepsOwnerTransitive(s: Core, t: Core, u: Core, c: ClientId, p: Pattern)
    requires KeepsOwner(s, t, c, p) && KeepsOwner(t, u, c, p)
    ensures KeepsOwner(s, u, c, p)
  {}

  lemma DeliverKeepsOwner(s: Core, d: ClientId, content: ProtocolServer, env: Env, c: ClientId, p: Pattern)
    ensures KeepsOwner(s, Deliver(s, d, content, env).0, c, p)
  {}

  lemma PublishKeepsOwner(s: Core, clients: seq<ClientId>, content: ProtocolServer, env: Env, c: ClientId, p: Pattern)
    ensures KeepsOwner(s, PublishTo(s, clients, content, env).0, c, p)
    decreases |clients|
  {
    if clients != [] && clients[0] != 0 {
      var (s1, r) := Deliver(s, clients[0], content, env);
      DeliverKeepsOwner(s, clients[0], content, env, c, p);
      if r.Ok? {
        PublishKeepsOwner(s1, clients[1..], content, env, c, p);
        hide KeepsOwner;
        KeepsOwnerTransitive(s, s1, PublishTo(s1, clients[1..], content, env).0, c, p);
      }
    }
  }

  /** The message by which a client gives up a topic. */
  predicate GivesUp(task: Task, c: ClientId, p: Pattern) {
    task.Message? && task.client == c && task.msg.content.Unsrv? && Segments(task.msg.content.topic) == p
  }

  lemma HandleKeepsOwner(s: Core, d: ClientId, msg: ClientMsg, env: Env, c: ClientId, p: Pattern)
    requires !msg.content.Pub? && !GivesUp(Message(d, msg), c, p)
    ensures KeepsOwner(s, Handle(s, d, msg, env).0, c, p)
  {
    match msg.content
    case Req(topic, payload) =>
      var owner := s.dir.Owner(Segments(topic));
      if owner.Some? { DeliverKeepsOwner(s, owner.value, ProtocolServer.Req(topic, payload), env, c, p); }
    case Rsp(m, status, payload) =>
      if m in s.pending {
        var r := s.pending[m];
        DeliverKeepsOwner(s.(pending := s.pending - {m}), r.requester,
                          ProtocolServer.Rsp(r.requestId, status, payload), env, c, p);
      }
      hide Deliver;
    case _ =>
  }

  lemma TaskKeepsOwner(s: Core, task: Task, env: Env, c: ClientId, p: Pattern)
    requires !GivesUp(task, c, p) && task != Deregister(c) && s.dir.Owner(p) == Some(c)
    requires c in s.senders ==> c in ProcessTask(s, task, env).0.senders
    requires c != s.nextClientId
    ensures ProcessTask(s, task, env).0.dir.Owner(p) == Some(c)
  {
    var s0 := s.(processed := s.processed + [task]);
    match task
    case Register =>
    case Deregister(d) =>
    case RequestTimeout(m) =>
      if m in s.pending {
        var r := s.pending[m];
        DeliverKeepsOwner(s0.(pending := s.pending - {m}), r.requester,
                          ProtocolServer.Rsp(r.requestId, Timeout, []), env, c, p);
      }
      hide Deliver;
    case Message(d, msg) => MessageKeepsOwner(s0, d, msg, env, c, p); hide ProcessMsg;
  }

  lemma MessageKeepsOwner(s: Core, d: ClientId, msg: ClientMsg, env: Env, c: ClientId, p: Pattern)
    requires !GivesUp(Message(d, msg), c, p)
    ensures KeepsOwner(s, ProcessMsg(s, d, msg, env).0, c, p)
  {
    hide KeepsOwner, GivesUp;
    if msg.content.Pub? {
      var content := ProtocolServer.Pub(msg.content.topic, msg.content.payload);
      var (s1, r) := PublishTo(s, env.order, content, env);
      PublishKeepsOwner(s, env.order, content, env, c, p);
      if !r.Killed? {
        var err, n := if r.AllSent? then None else Some(r.error), if r.AllSent? then Some(|env.order|) else None;
        DeliverKeepsOwner(s1, d, ProtocolServer.Ack(msg.id, err, n), env, c, p);
        KeepsOwnerTransitive(s, s1, Acknowledge(s1, d, msg.id, err, n, env), c, p);
      }
    } else {
      var (s1, err) := Handle(s, d, msg, env);
      HandleKeepsOwner(s, d, msg, env, c, p);
      DeliverKeepsOwner(s1, d, ProtocolServer.Ack(msg.id, err, None), env, c, p);
      KeepsOwnerTransitive(s, s1, Acknowledge(s1, d, msg.id, err, None, env), c, p);
    }
  }

  /** Event `e` does not make `c` lose `p`: no Unsrv of its own, no Deregister, no failed send to it. */
  ghost predicate Undisturbed(y: System, e: Event, c: ClientId, p: Pattern) {
    e.Process? && y.queue != [] ==>
      && !GivesUp(y.queue[0], c, p) && y.queue[0] != Deregister(c)
      && (c in y.core.senders ==> c in Apply(y, e).core.senders)
  }

  lemma EventKeepsOwner(y: System, e: Event, c: ClientId, p: Pattern)
    requires SystemInv(y) && Enabled(y, e) && Undisturbed(y, e, c, p)
    requires y.core.dir.Owner(p) == Some(c)
    ensures Apply(y, e).core.dir.Owner(p) == Some(c)
  {
    if e.Process? {
      OwnerIsClient(y, c, p);
      hide SystemInv;
      TaskKeepsOwner(y.core, y.queue[0], e.env, c, p);
    }
  }

  lemma OwnerIsClient(y: System, c: ClientId, p: Pattern)
    requires SystemInv(y) && y.core.dir.Owner(p) == Some(c)
    ensures c in y.core.sent && c != y.core.nextClientId
  {
    assert y.core.dir.owners[p] == c && !Gone(y.core, c);
    assert c != 0;
  }

  /** From the moment a client owns a topic until it gives the topic up or is removed, it stays the owner. */
  lemma {:induction false} ExclusiveService(events: seq<Event>, n: nat, c: ClientId, p: Pattern)
    requires IsRun(events) && n <= |events| && StateAfter(events[..n]).core.dir.Owner(p) == Some(c)
    requires forall k | n <= k < |events| :: Undisturbed(StateAfter(events[..k]), events[k], c, p)
    ensures StateAfter(events).core.dir.Owner(p) == Some(c)
    decreases |events|
  {
    hide SystemInv, Enabled, Apply;
    if n == |events| {
      assert events[..n] == events;
    } else {
      var before, e := events[..|events| - 1], events[|events| - 1];
      forall k | n <= k < |before| ensures Undisturbed(StateAfter(before[..k]), before[k], c, p) {
        assert before[..k] == events[..k] && before[k] == events[k];
      }
      assert before[..n] == events[..n];
      ExclusiveService(before, n, c, p);
      Reachable(before);
      assert events[..|before|] == before;
      EventKeepsOwner(StateAfter(before), e, c, p);
    }
  }

  /** Meanwhile every other client's Srv is refused and changes nothing; the owner's own succeeds. */
  lemma SrvWhileOwned(s: Core, d: ClientId, msg: ClientMsg, env: Env, c: ClientId)
    requires Inv(s, {}) && msg.content.Srv? && s.dir.Owner(Segments(msg.content.topic)) == Some(c)
    ensures Handle(s, d, msg, env) == (s, if d == c then None else Some(Refused(TopicAlreadyClaimed)))
  {
    assert Segments(msg.content.topic) in s.dir.owners;
  }

  /** A Srv succeeds exactly on a topic without wildcards that nobody else owns; then its sender owns it. */
  lemma SrvOutcome(s: Core, c: ClientId, msg: ClientMsg, env: Env)
    requires Inv(s, {}) && msg.content.Srv?
    ensures var p := Segments(msg.content.topic);
            var (s', err) := Handle(s, c, msg, env);
            && (err.None? <==> Concrete(p) && s.dir.Owner(p) in {None, Some(c)})
            && (err.None? ==> s'.dir.Owner(p) == Some(c))
            && (forall q | q != p :: s'.dir.Owner(q) == s.dir.Owner(q)) && s'.dir.subs == s.dir.subs
  {}

  /** And every Req is forwarded to the owner or to nobody. */
  lemma ReqWhileOwned(s: Core, d: ClientId, msg: ClientMsg, env: Env, c: ClientId, e: ClientId)
    requires msg.content.Req? && s.dir.Owner(Segments(msg.content.topic)) == Some(c)
    ensures var (s', err) := Handle(s, d, msg, env);
            OneCopy(s, s', e, ProtocolServer.Req(msg.content.topic, msg.content.payload), err.None? && e == c)
  {
    DeliverOneCopy(s, c, ProtocolServer.Req(msg.content.topic, msg.content.payload), env, e);
  }

  /** The client whose Srv succeeds owns the topic from the next event on. */
  lemma SrvMakesOwner(y: System, env: Env, c: ClientId, msg: ClientMsg)
    requires SystemInv(y) && Enabled(y, Process(env)) && y.queue[0] == Message(c, msg) && msg.content.Srv?
    requires Handle(y.core.(processed := y.core.processed + [y.queue[0]]), c, msg, env).1.None?
    requires c in y.core.senders ==> c in Apply(y, Process(env)).core.senders
    ensures Apply(y, Process(env)).core.dir.Owner(Segments(msg.content.topic)) == Some(c)
  {
    var s := y.core.(processed := y.core.processed + [y.queue[0]]);
    var (s1, err) := Handle(s, c, msg, env);
    assert Inv(y.core, {});
    hide SystemInv;
    ClaimSucceeded(s, c, msg, env);
    DeliverKeepsOwner(s1, c, ProtocolServer.Ack(msg.id, err, None), env, c, Segments(msg.content.topic));
    hide Inv, Handle;
  }

  lemma ClaimSucceeded(s: Core, c: ClientId, msg: ClientMsg, env: Env)
    requires msg.content.Srv? && Handle(s, c, msg, env).1.None?
    ensures Handle(s, c, msg, env).0.dir.Owner(Segments(msg.content.topic)) == Some(c)
    ensures Handle(s, c, msg, env).0.senders == s.senders
  {}

  /** Event `e` processes a Srv of `c` that succeeds. */
  ghost predicate StartsService(y: System, e: Event, c: ClientId, srv: ClientMsg) {
    && e.Process? && y.queue != [] && y.queue[0] == Message(c, srv) && srv.content.Srv?
    && Handle(y.core.(processed := y.core.processed + [y.queue[0]]), c, srv, e.env).1.None?
  }

  lemma ServiceStarts(events: seq<Event>, n: nat, c: ClientId, srv: ClientMsg)
    requires IsRun(events) && n < |events| && StartsService(StateAfter(events[..n]), events[n], c, srv)
    requires Undisturbed(StateAfter(events[..n]), events[n], c, Segments(srv.content.topic))
    ensures StateAfter(events[..n + 1]).core.dir.Owner(Segments(srv.content.topic)) == Some(c)
  {
    hide IsRun, StateAfter, SystemInv, Handle, Apply, Enabled;
    UpTo(events, n);
    Reachable(events[..n]);
    SrvMakesOwner(StateAfter(events[..n]), events[n].env, c, srv);
  }

  /** The clients in `to` were sent one copy each, and nobody else anything. */
  ghost predicate OnlyTo(s: Core, s': Core, to: set<ClientId>, content: ProtocolServer) {
    forall d: ClientId :: OneCopy(s, s', d, content, d in to)
  }

  /** What an owned topic means for the next message on it: another client's Srv is refused and changes nothing,
      and a Req goes to the owner or to nobody. */
  ghost predicate ReservedFor(s: Core, c: ClientId, d: ClientId, msg: ClientMsg, env: Env)
    requires msg.content.Srv? || msg.content.Req?
  {
    var (s', err) := Handle(s, d, msg, env);
    if msg.content.Srv? then d != c ==> s' == s && err == Some(Refused(TopicAlreadyClaimed))
    else OnlyTo(s, s', if err.None? then {c} else {}, ProtocolServer.Req(msg.content.topic, msg.content.payload))
  }

  lemma OwnedIsReserved(s: Core, c: ClientId, d: ClientId, msg: ClientMsg, env: Env)
    requires Inv(s, {}) && (msg.content.Srv? || msg.content.Req?) && s.dir.Owner(Segments(msg.content.topic)) == Some(c)
    ensures ReservedFor(s, c, d, msg, env)
  {
    if msg.content.Srv? {
      SrvWhileOwned(s, d, msg, env, c);
    } else {
      var (s', err) := Handle(s, d, msg, env);
      var to := if err.None? then {c} else {};
      hide Inv, Handle, OneCopy;
      var x := ProtocolServer.Req(msg.content.topic, msg.content.payload);
      forall e: ClientId ensures OneCopy(s, s', e, x, e in to) {
        ReqWhileOwned(s, d, msg, env, c, e);
        assert e in to <==> err.None? && e == c;
      }
    }
  }

  /** Exclusive service over a run: from a client's successful Srv for as long as nothing makes it lose the topic,
      the topic is reserved for it. */
  lemma ServiceIsExclusive(events: seq<Event>, n: nat, c: ClientId, srv: ClientMsg, d: ClientId, msg: ClientMsg,
                           env: Env)
    requires IsRun(events) && n < |events| && StartsService(StateAfter(events[..n]), events[n], c, srv)
    requires forall k | n <= k < |events| ::
               Undisturbed(StateAfter(events[..k]), events[k], c, Segments(srv.content.topic))
    requires (msg.content.Srv? || msg.content.Req?) && msg.content.topic == srv.content.topic
    ensures ReservedFor(StateAfter(events).core, c, d, msg, env)
  {
    hide IsRun, StateAfter, Undisturbed, Handle, ReservedFor, Inv, Segments;
    ServiceStarts(events, n, c, srv);
    ExclusiveService(events, n + 1, c, Segments(srv.content.topic));
    InvAfter(events);
    OwnedIsReserved(StateAfter(events).core, c, d, msg, env);
  }

  // ---------- Stopping ----------

  /** A send to `c` that takes the id `ahead` steps from now succeeds. */
  ghost predicate CanReach(s: Core, c: ClientId, ahead: nat, env: Env) {
    c in s.senders && !(c in env.leaving && s.nextMsgId + ahead in env.failing)
  }

  /** The response to the pending request `m` can be handed to its requester's channel. */
  ghost predicate CanAnswer(s: Core, m: MsgId, env: Env) {
    m in s.pending && CanReach(s, s.pending[m].requester, 0, env)
  }

  /** Nobody who is listed before id 0 stops the fan-out. */
  ghost predicate NothingInTheWay(s: Core, clients: seq<ClientId>, env: Env) {
    forall j: nat | j < |clients| && 0 !in clients[..j] && clients[j] != 0 :: CanReach(s, clients[j], j, env)
  }

  lemma {:induction false} PublishKilled(s: Core, clients: seq<ClientId>, content: ProtocolServer, env: Env)
    ensures PublishTo(s, clients, content, env).1.Killed? <==> 0 in clients && NothingInTheWay(s, clients, env)
    decreases |clients|
  {
    if clients != [] && clients[0] != 0 {
      var (s1, r) := Deliver(s, clients[0], content, env);
      DeliverOneCopy(s, clients[0], content, env, 0);
      if r.Ok? {
        PublishKilled(s1, clients[1..], content, env);
        OneStepAhead(s, s1, clients, env);
      } else {
        assert !CanReach(s, clients[0], 0, env);
      }
    } else {
      forall j: nat | 0 < j < |clients| ensures 0 in clients[..j] { assert clients[..j][0] == 0; }
    }
  }

  lemma OneStepAhead(s: Core, s1: Core, clients: seq<ClientId>, env: Env)
    requires clients != [] && clients[0] != 0 && CanReach(s, clients[0], 0, env)
    requires s1.senders == s.senders && s1.nextMsgId == s.nextMsgId + 1
    ensures NothingInTheWay(s, clients, env) <==> NothingInTheWay(s1, clients[1..], env)
  {
    var rest := clients[1..];
    forall j: nat | j < |rest|
      ensures clients[..j + 1] == [clients[0]] + rest[..j]
      ensures CanReach(s, clients[j + 1], j + 1, env) <==> CanReach(s1, rest[j], j, env)
    {}
    if NothingInTheWay(s, clients, env) {
      forall j: nat | j < |rest| && 0 !in rest[..j] && rest[j] != 0 ensures CanReach(s1, rest[j], j, env) {
        assert 0 !in clients[..j + 1];
        assert CanReach(s, clients[j + 1], j + 1, env);
      }
    }
    if NothingInTheWay(s1, rest, env) {
      forall j: nat | j < |clients| && 0 !in clients[..j] && clients[j] != 0 ensures CanReach(s, clients[j], j, env) {
        if j > 0 {
          assert clients[..(j - 1) + 1] == [clients[0]] + rest[..j - 1];
          assert CanReach(s1, rest[j - 1], j - 1, env);
        }
      }
    }
  }

  /** What the task loop does after one task. It fails exactly for a timeout that cannot be answered, finishes
      exactly for a Stop, and panics exactly for a publication that matches the kill topic while every client
      listed before id 0 can be reached. */
  lemma StopsExactly(y: System, env: Env)
    requires SystemInv(y) && Enabled(y, Process(env))
    ensures var task, status := y.queue[0], Apply(y, Process(env)).status;
            && (status.Crashed? <==> task.RequestTimeout? && !CanAnswer(y.core, task.reqId, env))
            && (status.Stopped? <==> task.Message? && task.msg.content.Stop?)
            && (status.Panicked? <==>
                  && task.Message? && task.msg.content.Pub?
                  && Overlap(KILL, Segments(task.msg.content.topic)) && NothingInTheWay(y.core, env.order, env))
  {
    var s, task := y.core, y.queue[0];
    assert Inv(s, {});
    hide SystemInv, Inv, NothingInTheWay;
    match task {
      case Message(c, msg) =>
        if msg.content.Pub? { PublishStops(s, c, msg, env); }
        hide ProcessMsg;
        if !msg.content.Pub? { MessageStops(s.(processed := s.processed + [task]), c, msg, env); }
      case RequestTimeout(m) => TimeoutStops(s, m, env); hide Respond, CanAnswer;
      case Register => hide RegisterClient;
      case Deregister(c) => hide DeregisterClient;
    }
  }

  lemma PublishStops(s: Core, c: ClientId, msg: ClientMsg, env: Env)
    requires Inv(s, {}) && msg.content.Pub? && Lists(env.order, s.dir.Subscribers(Segments(msg.content.topic)))
    ensures ProcessMsg(s.(processed := s.processed + [Message(c, msg)]), c, msg, env).1 ==
            if Overlap(KILL, Segments(msg.content.topic)) && NothingInTheWay(s, env.order, env) then Panic else Continue
  {
    var s0 := s.(processed := s.processed + [Message(c, msg)]);
    PublishKilled(s0, env.order, ProtocolServer.Pub(msg.content.topic, msg.content.payload), env);
    assert NothingInTheWay(s0, env.order, env) <==> NothingInTheWay(s, env.order, env) by {
      assert forall d: ClientId, j: nat :: CanReach(s0, d, j, env) <==> CanReach(s, d, j, env);
    }
    NoKill(s, Segments(msg.content.topic));
    assert 0 in env.order <==> 0 in Elements(env.order);
    hide Inv, PublishTo, Acknowledge, NothingInTheWay;
  }

  lemma MessageStops(s: Core, c: ClientId, msg: ClientMsg, env: Env)
    requires !msg.content.Pub?
    ensures ProcessMsg(s, c, msg, env).1 == if msg.content.Stop? then Finish else Continue
  {
    hide Handle, Acknowledge;
  }

  lemma TimeoutStops(s: Core, m: MsgId, env: Env)
    ensures Respond(s.(processed := s.processed + [RequestTimeout(m)]), 0, m, Timeout, [], env).1.Some?
            <==> !CanAnswer(s, m, env)
  {}

  /** A timeout whose request is no longer pending sends nothing and changes nothing, but ends the loop. */
  lemma LateTimeoutIsSilent(s: Core, m: MsgId, env: Env)
    requires m !in s.pending
    ensures ProcessTask(s, RequestTimeout(m), env)
            == (s.(processed := s.processed + [RequestTimeout(m)]), Fail(InvalidRequestId))
  {}

  /** A request that ended in any way but by the server's own timeout still has its timeout ahead, armed or
      queued, for as long as the server runs; by `StopsExactly` that timeout ends the loop. */
  lemma AnsweredRequestStillTimesOut(events: seq<Event>, m: MsgId)
    requires IsRun(events) && StateAfter(events).status == Running
    requires var s := StateAfter(events).core;
             m in s.outcome && !(s.outcome[m].Responded? && s.outcome[m].author == 0)
    ensures var y := StateAfter(events); m in y.core.timers || RequestTimeout(m) in y.queue
    ensures m !in StateAfter(events).core.pending
  {
    var y := StateAfter(events);
    Reachable(events);
    assert Partition(y.core);
    if RequestTimeout(m) in y.core.processed { ProcessedWhileRunning(y.core, m); }
    if m !in y.core.timers { assert RequestTimeout(m) in y.All(); }
  }

  lemma ProcessedWhileRunning(s: Core, m: MsgId)
    requires TimeoutsAnswered(s) && RequestTimeout(m) in s.processed
    ensures m in s.outcome && s.outcome[m].Responded? && s.outcome[m].author == 0
  {
    var i :| 0 <= i < |s.processed| && s.processed[i] == RequestTimeout(m);
    assert s.processed[i].RequestTimeout?;
  }
}
