/** The server's promises, over every run: clean-up, accounting, routing and ordering. */
module ServerTheorems {
  import opened Common
  import opened Tries
  import opened Topics
  import opened Protocol
  import opened ServerSpec
  import opened ServerInvariants
  import opened ServerEffects
  import opened Systems

  // ---------- Along a run ----------

  lemma EventExtends(y: System, e: Event)
    requires SystemInv(y) && Enabled(y, e)
    ensures Extends(y.core, Apply(y, e).core)
  {
    match e {
      case Process(env) =>
        assert y.All()[|y.core.processed|] == y.queue[0] && Known(y.core, y.queue[0]);
        hide QueueOk, TimersOk, ClientsOk, Settled, TimeoutsAnswered, Inv, Extends, ProcessTask;
        TaskKeeps(y.core, y.queue[0], env);
      case Fire(m) => TimersFree(y.core, y.core.timers - {m});
      case _ => ExtendsReflexive(y.core);
    }
  }

  lemma TimersFree(s: Core, timers: set<MsgId>)
    ensures Extends(s, s.(timers := timers))
  {
    assert forall c: ClientId :: s.(timers := timers).Channel(c) == s.Channel(c);
  }

  /** History only grows: what was processed, sent, accepted or settled stays so for the rest of the run. */
  lemma {:induction false} RunExtends(events: seq<Event>, n: nat)
    requires IsRun(events) && n <= |events|
    ensures Extends(StateAfter(events[..n]).core, StateAfter(events).core)
    decreases |events|
  {
    var was := StateAfter(events[..n]).core;
    if n == |events| {
      assert events[..n] == events;
      ExtendsReflexive(was);
    } else {
      var before := events[..|events| - 1];
      RunExtends(before, n);
      assert before[..n] == events[..n];
      Reachable(before);
      hide SystemInv, Extends, Enabled;
      EventExtends(StateAfter(before), events[|events| - 1]);
      ExtendsTransitive(was, StateAfter(before).core, StateAfter(events).core);
    }
  }

  lemma InvAfter(events: seq<Event>)
    requires IsRun(events)
    ensures Inv(StateAfter(events).core, {})
  {
    Reachable(events);
  }

  // ---------- Clean-up ----------

  /** A client that is not registered leaves traces only while its Deregister is still queued, even if it was
      removed early because a send to it failed. */
  lemma TracesMeanDeregisterQueued(events: seq<Event>, c: ClientId)
    requires IsRun(events) && c != 0
    ensures var y := StateAfter(events); c in y.core.senders || Gone(y.core, c) || Deregister(c) in y.queue
  {
    var y := StateAfter(events);
    Reachable(events);
    if Deregister(c) in y.core.processed { ProcessedDeregister(y.core, c); }
    if c in y.core.sent && c in y.leaving { assert Deregister(c) in y.All(); }
  }

  lemma ProcessedDeregister(s: Core, c: ClientId)
    requires Settled(s) && Deregister(c) in s.processed
    ensures Gone(s, c)
  {
    var i :| 0 <= i < |s.processed| && s.processed[i] == Deregister(c);
    assert s.processed[i].Deregister?;
  }

  /** Once a Deregister was processed, the client never appears anywhere again. */
  lemma DeregisteredForGood(events: seq<Event>, n: nat, c: ClientId)
    requires IsRun(events) && n <= |events| && Deregister(c) in StateAfter(events[..n]).core.processed
    ensures Gone(StateAfter(events).core, c)
  {
    var was, now := StateAfter(events[..n]).core, StateAfter(events).core;
    RunExtends(events, n);
    Reachable(events);
    ProcessedDeregister(now, c);
  }

  // ---------- Accounting for requests ----------

  /** An accepted request keeps its record; it is pending or ended, never both; an end is final; and while it
      is pending its timer is armed or its timeout is queued. */
  lemma RequestAccounting(events: seq<Event>, n: nat, m: MsgId)
    requires IsRun(events) && n <= |events| && m in StateAfter(events[..n]).core.accepted
    ensures var was, y := StateAfter(events[..n]).core, StateAfter(events);
            && m in y.core.accepted && y.core.accepted[m] == was.accepted[m]
            && (m in y.core.pending <==> m !in y.core.outcome)
            && (m in was.outcome ==> m in y.core.outcome && y.core.outcome[m] == was.outcome[m])
            && (m in y.core.pending ==> m in y.core.timers || RequestTimeout(m) in y.queue)
  {
    var y := StateAfter(events);
    RunExtends(events, n);
    Reachable(events);
    if RequestTimeout(m) in y.core.processed { ProcessedTimeout(y.core, m); }
    if m !in y.core.timers { assert RequestTimeout(m) in y.All(); }
  }

  lemma ProcessedTimeout(s: Core, m: MsgId)
    requires Settled(s) && RequestTimeout(m) in s.processed
    ensures m !in s.pending
  {
    var i :| 0 <= i < |s.processed| && s.processed[i] == RequestTimeout(m);
    assert s.processed[i].RequestTimeout?;
  }

  /** A new request never takes the place of a live one, and a task is accepted at most once. */
  lemma NoOverwriting(events: seq<Event>, m: MsgId, n: MsgId)
    requires IsRun(events)
    ensures var s := StateAfter(events).core;
            && s.nextMsgId !in s.accepted
            && (m in s.accepted && n in s.accepted && s.accepted[m].at == s.accepted[n].at ==> m == n)
  {
    var s := StateAfter(events).core;
    Reachable(events);
    FreshId(s, {});
    if m in s.accepted && n in s.accepted {
      assert AcceptanceOk(s, m, s.accepted[m]) && AcceptanceOk(s, n, s.accepted[n]);
    }
  }

  // ---------- Routing of responses ----------

  /** Where a response came from: the accepted request `m`, recorded as `a`, with outcome `o`. */
  ghost predicate ComesFrom(s: Core, c: ClientId, i: nat, m: MsgId) {
    && i < |s.Channel(c)| && s.Channel(c)[i].content.Rsp?
    && m in s.accepted && m in s.outcome && s.outcome[m].Responded? && s.outcome[m].pos == i
    && var a, o, x := s.accepted[m], s.outcome[m], s.Channel(c)[i].content;
       && a.requester == c && x.reqId == a.requestId && x.status == o.status && x.payload == o.payload
       // the client asked for it, the owner was sent it, and one later task answered it
       && 0 <= a.at < o.at < |s.processed|
       && s.processed[a.at] == Message(c, Msg(x.reqId, ProtocolClient.Req(a.topic, a.payload)))
       && Msg(m, ProtocolServer.Req(a.topic, a.payload)) in s.Channel(a.responder)
       && Authored(s.processed[o.at], m, a.responder, o)
  }

  /** Every response that was ever sent has such an origin. */
  lemma ResponseRouted(events: seq<Event>, c: ClientId, i: nat) returns (m: MsgId)
    requires IsRun(events)
    requires var s := StateAfter(events).core; i < |s.Channel(c)| && s.Channel(c)[i].content.Rsp?
    ensures ComesFrom(StateAfter(events).core, c, i, m)
  {
    var s := StateAfter(events).core;
    Reachable(events);
    assert Sourced(s, c, i);
    m := s.source[s.Channel(c)[i].id];
    assert AcceptanceOk(s, m, s.accepted[m]) && ResponseOk(s, s.accepted[m], m, s.outcome[m]);
  }

  lemma OriginsDiffer(s: Core, c: ClientId, i: nat, d: ClientId, j: nat, m: MsgId, n: MsgId)
    requires ComesFrom(s, c, i, m) && ComesFrom(s, d, j, n) && (c, i) != (d, j)
    ensures m != n
  {}

  /** Two responses, wherever they were put, answer two requests, and these were asked for by two messages. */
  lemma OneResponsePerRequest(events: seq<Event>, c: ClientId, i: nat, d: ClientId, j: nat) returns (m: MsgId, n: MsgId)
    requires IsRun(events) && (c, i) != (d, j)
    requires var s := StateAfter(events).core;
             && i < |s.Channel(c)| && s.Channel(c)[i].content.Rsp?
             && j < |s.Channel(d)| && s.Channel(d)[j].content.Rsp?
    ensures var s := StateAfter(events).core;
            && ComesFrom(s, c, i, m) && ComesFrom(s, d, j, n)
            && m != n && s.accepted[m].at != s.accepted[n].at
  {
    m := ResponseRouted(events, c, i);
    n := ResponseRouted(events, d, j);
    NoOverwriting(events, m, n);
    OriginsDiffer(StateAfter(events).core, c, i, d, j, m, n);
  }

  /** Only a Req message adds to the accepted requests: one, forwarded to the topic's present owner. */
  lemma HandleAccepts(s: Core, c: ClientId, msg: ClientMsg, env: Env, m: MsgId)
    requires !msg.content.Pub?
    ensures var s' := Handle(s, c, msg, env).0;
            m !in s.accepted && m in s'.accepted ==>
              var a := s'.accepted[m];
              a.at == |s.processed| - 1 && s.dir.Owner(Segments(a.topic)) == Some(a.responder)
  {
    match msg.content
    case Req(topic, payload) => RequestAccepts(s, c, msg.id, topic, payload, env, m); hide Request;
    case Rsp(n, status, payload) => RespondAcceptsNone(s, c, n, status, payload, env); hide Respond;
    case _ => OnlyDirectory(s, c, msg, env); hide Handle;
  }

  lemma RequestAccepts(s: Core, c: ClientId, reqId: MsgId, topic: Topic, payload: Payload, env: Env, m: MsgId)
    ensures var s' := Request(s, c, reqId, topic, payload, env).0;
            m !in s.accepted && m in s'.accepted ==>
              var a := s'.accepted[m];
              a.at == |s.processed| - 1 && s.dir.Owner(Segments(a.topic)) == Some(a.responder)
  {
    hide Segments;
  }

  lemma RespondAcceptsNone(s: Core, c: ClientId, m: MsgId, status: RspStatus, payload: Payload, env: Env)
    ensures Respond(s, c, m, status, payload, env).0.accepted == s.accepted
  {}

  lemma PublishAcceptsNone(s: Core, clients: seq<ClientId>, content: ProtocolServer, env: Env)
    ensures PublishTo(s, clients, content, env).0.accepted == s.accepted
    decreases |clients|
  {
    if clients != [] && clients[0] != 0 {
      PublishAcceptsNone(Deliver(s, clients[0], content, env).0, clients[1..], content, env);
    }
  }

  lemma AcknowledgeAcceptsNone(s: Core, c: ClientId, msgId: MsgId, err: Option<BusError>, recipients: Option<nat>,
                               env: Env)
    ensures Acknowledge(s, c, msgId, err, recipients, env).accepted == s.accepted
  {}

  lemma MessageAccepts(s: Core, c: ClientId, msg: ClientMsg, env: Env, m: MsgId)
    ensures var s' := ProcessMsg(s, c, msg, env).0;
            m !in s.accepted && m in s'.accepted ==>
              var a := s'.accepted[m];
              a.at == |s.processed| - 1 && s.dir.Owner(Segments(a.topic)) == Some(a.responder)
  {
    if msg.content.Pub? {
      var content := ProtocolServer.Pub(msg.content.topic, msg.content.payload);
      PublishAcceptsNone(s, env.order, content, env);
      hide PublishTo, Deliver;
    } else {
      HandleAccepts(s, c, msg, env, m);
      var (s1, err) := Handle(s, c, msg, env);
      AcknowledgeAcceptsNone(s1, c, msg.id, err, None, env);
      hide Handle, Acknowledge;
    }
  }

  /** A request is accepted only from the topic's owner of that moment, by the task that is being processed. */
  lemma AcceptedFromOwner(s: Core, task: Task, env: Env, m: MsgId)
    requires m !in s.accepted && m in ProcessTask(s, task, env).0.accepted
    ensures var a := ProcessTask(s, task, env).0.accepted[m];
            a.at == |s.processed| && s.dir.Owner(Segments(a.topic)) == Some(a.responder)
  {
    if task.Message? {
      MessageAccepts(s.(processed := s.processed + [task]), task.client, task.msg, env, m);
      hide ProcessMsg;
    }
  }

  lemma AcceptedByEvent(y: System, e: Event, m: MsgId)
    requires SystemInv(y) && Enabled(y, e) && m in Apply(y, e).core.accepted
    ensures var a := Apply(y, e).core.accepted[m];
            if m in y.core.accepted then a == y.core.accepted[m]
            else e.Process? && |y.core.processed| == a.at && y.core.dir.Owner(Segments(a.topic)) == Some(a.responder)
  {
    EventExtends(y, e);
    hide SystemInv, ProcessTask;
    if m !in y.core.accepted {
      AcceptedFromOwner(y.core, y.queue[0], e.env, m);
    }
  }

  /** The request `m`, recorded as `a`, was taken by the event number `k`, from the owner of that moment. */
  ghost predicate TakenAt(events: seq<Event>, k: nat, a: Acceptance) {
    && k < |events| && events[k].Process?
    && var s := StateAfter(events[..k]).core;
       |s.processed| == a.at && s.dir.Owner(Segments(a.topic)) == Some(a.responder)
  }

  lemma TakenBefore(before: seq<Event>, events: seq<Event>, k: nat, a: Acceptance)
    requires TakenAt(before, k, a) && |before| <= |events| && before == events[..|before|]
    ensures TakenAt(events, k, a)
  {
    assert before[..k] == events[..k];
  }

  lemma {:induction false} OwnerAtAcceptance(events: seq<Event>, m: MsgId) returns (k: nat)
    requires IsRun(events) && m in StateAfter(events).core.accepted
    ensures TakenAt(events, k, StateAfter(events).core.accepted[m])
    decreases |events|
  {
    hide SystemInv, Enabled, Apply, TakenAt;
    var before := events[..|events| - 1];
    Reachable(before);
    LastStep(events, before, m);
    if m in StateAfter(before).core.accepted {
      k := OwnerAtAcceptance(before, m);
      TakenBefore(before, events, k, StateAfter(before).core.accepted[m]);
    } else {
      k := |before|;
    }
  }

  lemma LastStep(events: seq<Event>, before: seq<Event>, m: MsgId)
    requires events != [] && before == events[..|events| - 1] && IsRun(events) && SystemInv(StateAfter(before))
    requires m in StateAfter(events).core.accepted
    ensures var a := StateAfter(events).core.accepted[m];
            if m in StateAfter(before).core.accepted then a == StateAfter(before).core.accepted[m]
            else TakenAt(events, |before|, a)
  {
    var e := events[|before|];
    assert StateAfter(events) == Apply(StateAfter(before), e) && Enabled(StateAfter(before), e);
    hide SystemInv, Enabled, Apply, IsRun, StateAfter;
    AcceptedByEvent(StateAfter(before), e, m);
    assert events[..|before|] == before;
  }

  // ---------- Ordering ----------

  lemma PlacesDiffer(s: Core, c: ClientId, i: nat, d: ClientId, j: nat)
    requires Ids(s) && (c, i) != (d, j) && i < |s.Channel(c)| && j < |s.Channel(d)|
    ensures s.Channel(c)[i].id != s.Channel(d)[j].id
  {
    if c == d {
      assert Ascending(s.sent[c], s.nextMsgId);
    } else {
      assert NoSharedId(s.sent[c], s.sent[d]);
    }
  }

  /** No id is ever used twice: messages at two different places, in one channel or in two, have different ids. */
  lemma IdsNeverReused(events: seq<Event>, c: ClientId, i: nat, d: ClientId, j: nat)
    requires IsRun(events) && (c, i) != (d, j)
    requires var s := StateAfter(events).core; i < |s.Channel(c)| && j < |s.Channel(d)|
    ensures var s := StateAfter(events).core; s.Channel(c)[i].id != s.Channel(d)[j].id
  {
    InvAfter(events);
    hide Ids, IsRun, StateAfter, Core.Channel;
    PlacesDiffer(StateAfter(events).core, c, i, d, j);
  }

  /** Ids strictly increase along each channel. */
  lemma ChannelAscends(events: seq<Event>, c: ClientId, i: nat, j: nat)
    requires IsRun(events) && i < j < |StateAfter(events).core.Channel(c)|
    ensures StateAfter(events).core.Channel(c)[i].id < StateAfter(events).core.Channel(c)[j].id
  {
    Reachable(events);
    var s := StateAfter(events).core;
    assert Ascending(s.sent[c], s.nextMsgId);
  }

  lemma AckInChannel(s: Core, m: MsgId)
    requires Inv(s, {}) && m in s.outcome && s.outcome[m].Responded? && m in s.accepted
    ensures var channel, i := s.Channel(s.accepted[m].requester), s.outcome[m].pos;
            i < |channel| && AckOf(m, s.accepted[m]) in channel && channel[i].id > m + 1
              && Ascending(channel, s.nextMsgId)
  {
    assert ResponseOk(s, s.accepted[m], m, s.outcome[m]);
  }

  lemma EarlierId(channel: seq<ServerMsg>, bound: MsgId, x: ServerMsg, i: nat) returns (j: nat)
    requires Ascending(channel, bound) && i < |channel| && x in channel && x.id < channel[i].id
    ensures j < i && channel[j] == x
  {
    j :| 0 <= j < |channel| && channel[j] == x;
  }

  /** A response follows the Ack of its own request. */
  lemma AckComesFirst(events: seq<Event>, c: ClientId, i: nat, m: MsgId) returns (j: nat)
    requires IsRun(events) && ComesFrom(StateAfter(events).core, c, i, m)
    ensures j < i
    ensures var s := StateAfter(events).core; s.Channel(c)[j] == AckOf(m, s.accepted[m])
  {
    var s := StateAfter(events).core;
    Reachable(events);
    hide Inv, QueueOk, TimersOk, ClientsOk, Settled, TimeoutsAnswered, Authored, Ascending, IsRun;
    AckInChannel(s, m);
    j := EarlierId(s.Channel(c), s.nextMsgId, AckOf(m, s.accepted[m]), i);
  }
}
