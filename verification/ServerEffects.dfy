/** What one task can change, seen from outside: who is dropped, which timers start, and that a client that is
    gone stays gone unless it acts itself. */
module ServerEffects {
  import opened Common
  import opened Matching
  import opened Tries
  import opened FlatDirectories
  import opened Topics
  import opened Protocol
  import opened ServerSpec
  import opened ServerInvariants

  /** The client neither subscribes to nor owns anything. */
  ghost predicate Absent(f: Flat, c: ClientId) {
    (forall e | e in f.subs :: e.0 != c) && (forall p | p in f.owners :: f.owners[p] != c)
  }

  lemma AbsentKept(f: Flat, op: Operation, d: ClientId)
    requires if op.DoDrop? then op.client == d || Absent(f, d) else op.client != d && Absent(f, d)
    ensures Absent(ApplyToFlat(f, op), d)
  {}

  /** No trace of the client is left where it could matter. */
  ghost predicate Gone(s: Core, c: ClientId) {
    && c !in s.senders
    && Absent(s.dir, c)
    && (forall m | m in s.pending :: !Involves(s.pending[m], c))
  }

  /** Handling a message of `actor`: clients are dropped only when a send to them failed, one timer starts for
      each accepted request, and nobody who is gone comes back, except perhaps the actor. */
  ghost predicate Effects(s: Core, s': Core, actor: ClientId, env: Env) {
    Changes(s, s', env) && StayGone(s, s', actor)
  }

  ghost predicate Changes(s: Core, s': Core, env: Env) {
    && s'.processed == s.processed && s'.nextClientId == s.nextClientId && s'.sent.Keys == s.sent.Keys
    && s'.senders <= s.senders && s.senders - s'.senders <= env.leaving
    && s.accepted.Keys <= s'.accepted.Keys
    && s'.timers == s.timers + (s'.accepted.Keys - s.accepted.Keys)
  }

  ghost predicate StayGone(s: Core, s': Core, actor: ClientId) {
    forall c | c != actor && Gone(s, c) :: Gone(s', c)
  }

  lemma EffectsTransitive(s: Core, t: Core, u: Core, actor: ClientId, env: Env)
    requires Effects(s, t, actor, env) && Effects(t, u, actor, env)
    ensures Effects(s, u, actor, env)
  {
    hide Gone;
  }

  lemma DeregisterGone(s: Core, c: ClientId, d: ClientId)
    requires d == c || Gone(s, d)
    ensures Gone(DeregisterClient(s, c), d)
  {
    AbsentKept(s.dir, DoDrop(c), d);
    hide Absent;
  }

  lemma DeliverGone(s: Core, c: ClientId, content: ProtocolServer, env: Env, d: ClientId)
    requires Gone(s, d)
    ensures Gone(Deliver(s, c, content, env).0, d)
  {
    hide Absent;
    var s1 := s.(nextMsgId := s.nextMsgId + 1);
    assert Gone(s1, d);
    DeregisterGone(s1, c, d);
  }

  lemma DeliverEffects(s: Core, c: ClientId, content: ProtocolServer, env: Env, actor: ClientId)
    requires s.senders <= s.sent.Keys
    ensures Effects(s, Deliver(s, c, content, env).0, actor, env)
  {
    hide Gone;
    forall d | d != actor && Gone(s, d) { DeliverGone(s, c, content, env, d); }
  }

  lemma DirectoryGone(s: Core, c: ClientId, msg: ClientMsg, env: Env, d: ClientId)
    requires !msg.content.Pub? && !msg.content.Req? && !msg.content.Rsp? && d != c && Gone(s, d)
    ensures Gone(Handle(s, c, msg, env).0, d)
  {
    match msg.content
    case Sub(t) => AbsentKept(s.dir, DoSubscribe(c, t), d); hide Absent;
    case Unsub(t) => AbsentKept(s.dir, DoUnsubscribe(c, t), d); hide Absent;
    case Srv(t) => AbsentKept(s.dir, DoClaim(c, t), d); hide Absent;
    case Unsrv(t) => AbsentKept(s.dir, DoUnclaim(c, t), d); hide Absent;
    case _ => hide Absent;
  }

  lemma OnlyDirectory(s: Core, c: ClientId, msg: ClientMsg, env: Env)
    requires !msg.content.Pub? && !msg.content.Req? && !msg.content.Rsp?
    ensures var s' := Handle(s, c, msg, env).0; s' == s.(dir := s'.dir)
  {
    hide Request, Respond, PublishTo, Segments, Concrete;
  }

  lemma DirectoryEffects(s: Core, c: ClientId, msg: ClientMsg, env: Env)
    requires !msg.content.Pub? && !msg.content.Req? && !msg.content.Rsp?
    ensures Effects(s, Handle(s, c, msg, env).0, c, env)
  {
    OnlyDirectory(s, c, msg, env);
    hide Gone, Handle;
    forall d | d != c && Gone(s, d) { DirectoryGone(s, c, msg, env, d); }
  }

  lemma HandleEffects(s: Core, c: ClientId, msg: ClientMsg, env: Env)
    requires s.senders <= s.sent.Keys && s.nextMsgId !in s.accepted && !msg.content.Pub?
    ensures Effects(s, Handle(s, c, msg, env).0, c, env)
  {
    match msg.content
    case Req(topic, payload) => RequestEffects(s, c, msg.id, topic, payload, env);
    case Rsp(m, status, payload) => RespondEffects(s, c, m, status, payload, env, c);
    case _ => DirectoryEffects(s, c, msg, env);
  }

  lemma RequestEffects(s: Core, c: ClientId, reqId: MsgId, topic: Topic, payload: Payload, env: Env)
    requires s.senders <= s.sent.Keys && s.nextMsgId !in s.accepted
    ensures Effects(s, Request(s, c, reqId, topic, payload, env).0, c, env)
  {
    var owner := s.dir.Owner(Segments(topic));
    if owner.Some? {
      DeliverEffects(s, owner.value, ProtocolServer.Req(topic, payload), env, c);
      var (s1, r) := Deliver(s, owner.value, ProtocolServer.Req(topic, payload), env);
      if r.Ok? {
        var m := s.nextMsgId;
        AcceptEffects(s1, c, reqId, topic, payload, m, owner.value, env);
        EffectsTransitive(s, s1, Accept(s1, c, reqId, topic, payload, m, owner.value), c, env);
      }
    } else {
      hide Gone;
    }
  }

  lemma AcceptGone(s: Core, c: ClientId, reqId: MsgId, topic: Topic, payload: Payload, m: MsgId, owner: ClientId,
                   d: ClientId)
    requires owner in s.senders && d != c && Gone(s, d)
    ensures Gone(Accept(s, c, reqId, topic, payload, m, owner), d)
  {}

  lemma AcceptEffects(s: Core, c: ClientId, reqId: MsgId, topic: Topic, payload: Payload, m: MsgId, owner: ClientId,
                      env: Env)
    requires m !in s.accepted && owner in s.senders
    ensures Effects(s, Accept(s, c, reqId, topic, payload, m, owner), c, env)
  {
    hide Gone;
    forall d | d != c && Gone(s, d) { AcceptGone(s, c, reqId, topic, payload, m, owner, d); }
  }

  lemma RespondGone(s: Core, author: ClientId, m: MsgId, status: RspStatus, payload: Payload, env: Env, d: ClientId)
    requires Gone(s, d)
    ensures Gone(Respond(s, author, m, status, payload, env).0, d)
  {
    if m in s.pending {
      var p := s.pending[m];
      DeliverGone(s.(pending := s.pending - {m}), p.requester,
                  ProtocolServer.Rsp(p.requestId, status, payload), env, d);
    }
  }

  lemma RespondEffects(s: Core, author: ClientId, m: MsgId, status: RspStatus, payload: Payload, env: Env,
                       actor: ClientId)
    requires s.senders <= s.sent.Keys
    ensures Effects(s, Respond(s, author, m, status, payload, env).0, actor, env)
  {
    hide Gone;
    if m in s.pending {
      var p := s.pending[m];
      DeliverEffects(s.(pending := s.pending - {m}), p.requester,
                     ProtocolServer.Rsp(p.requestId, status, payload), env, actor);
    }
    forall d | d != actor && Gone(s, d) { RespondGone(s, author, m, status, payload, env, d); }
  }

  lemma PublishEffects(s: Core, clients: seq<ClientId>, content: ProtocolServer, env: Env, actor: ClientId)
    requires s.senders <= s.sent.Keys
    ensures Effects(s, PublishTo(s, clients, content, env).0, actor, env)
    decreases |clients|
  {
    if clients != [] && clients[0] != 0 {
      var (s1, r) := Deliver(s, clients[0], content, env);
      DeliverEffects(s, clients[0], content, env, actor);
      if r.Ok? {
        PublishEffects(s1, clients[1..], content, env, actor);
        EffectsTransitive(s, s1, PublishTo(s1, clients[1..], content, env).0, actor, env);
      }
    }
  }

  lemma MessageEffects(s: Core, c: ClientId, msg: ClientMsg, env: Env)
    requires Inv(s, {})
    ensures Effects(s, ProcessMsg(s, c, msg, env).0, c, env)
  {
    SenderIsClient(s, {});
    var s' := ProcessMsg(s, c, msg, env).0;
    if msg.content.Pub? {
      var content := ProtocolServer.Pub(msg.content.topic, msg.content.payload);
      var (s1, r) := PublishTo(s, env.order, content, env);
      PublishEffects(s, env.order, content, env, c);
      assert s1.senders <= s1.sent.Keys;
      hide Inv, Effects;
      if !r.Killed? {
        AcknowledgeEffects(s1, c, msg.id, if r.AllSent? then None else Some(r.error),
                           if r.AllSent? then Some(|env.order|) else None, env);
        EffectsTransitive(s, s1, s', c, env);
      }
    } else {
      var (s1, err) := Handle(s, c, msg, env);
      FreshId(s, {});
      HandleEffects(s, c, msg, env);
      assert s1.senders <= s1.sent.Keys;
      hide Inv, Effects;
      AcknowledgeEffects(s1, c, msg.id, err, None, env);
      EffectsTransitive(s, s1, s', c, env);
    }
  }

  lemma AcknowledgeEffects(s: Core, c: ClientId, msgId: MsgId, err: Option<BusError>, recipients: Option<nat>, env: Env)
    requires s.senders <= s.sent.Keys
    ensures Effects(s, Acknowledge(s, c, msgId, err, recipients, env), c, env)
  {
    DeliverEffects(s, c, ProtocolServer.Ack(msgId, err, recipients), env, c);
  }
}
