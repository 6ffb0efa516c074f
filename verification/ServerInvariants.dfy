/** What holds of the server core between any two tasks, and why every task keeps it. */
module ServerInvariants {
  import opened Common
  import opened Tries
  import opened FlatDirectories
  import opened Topics
  import opened Protocol
  import opened ServerSpec

  // ---------- The invariant ----------

  /** Server message ids strictly increase along a channel and stay below `bound`. */
  ghost predicate Ascending(channel: seq<ServerMsg>, bound: MsgId) {
    && (forall i | 0 <= i < |channel| :: channel[i].id < bound)
    && (forall i, j | 0 <= i < j < |channel| :: channel[i].id < channel[j].id)
  }

  ghost predicate NoSharedId(a: seq<ServerMsg>, b: seq<ServerMsg>) {
    forall i, j | 0 <= i < |a| && 0 <= j < |b| :: a[i].id != b[j].id
  }

  /** Client ids run from 1, each with one channel; no two messages share an id, in one channel or in two. */
  ghost predicate Ids(s: Core) {
    && 1 <= s.nextClientId
    && (forall c: ClientId :: c in s.sent <==> 1 <= c < s.nextClientId)
    && s.senders <= s.sent.Keys
    && (forall c | c in s.sent :: Ascending(s.sent[c], s.nextMsgId))
    && (forall c, d | c in s.sent && d in s.sent && c != d :: NoSharedId(s.sent[c], s.sent[d]))
  }

  /** The record of an accepted request agrees with the task that asked and with what the responder was sent. */
  ghost predicate AcceptanceOk(s: Core, m: MsgId, a: Acceptance) {
    && m < s.nextMsgId
    && 0 <= a.at < |s.processed|
    && s.processed[a.at] == Message(a.requester, Msg(a.requestId, ProtocolClient.Req(a.topic, a.payload)))
    && Msg(m, ProtocolServer.Req(a.topic, a.payload)) in s.Channel(a.responder)
    && a.requester in s.sent && a.responder in s.sent
    && a.at in s.acceptedBy && s.acceptedBy[a.at] == m
  }

  ghost predicate Accepted(s: Core) {
    && (forall m | m in s.accepted :: AcceptanceOk(s, m, s.accepted[m]))
    && (forall t | t in s.acceptedBy :: t < |s.processed|)
  }

  /** An accepted request is pending or has exactly one outcome. */
  ghost predicate Partition(s: Core) {
    s.accepted.Keys == s.pending.Keys + s.outcome.Keys && s.pending.Keys !! s.outcome.Keys
  }

  ghost predicate PendingOk(s: Core) {
    forall m | m in s.pending ::
      && m in s.accepted
      && s.pending[m] == Pending(s.accepted[m].requestId, s.accepted[m].requester, s.accepted[m].responder)
      && s.pending[m].responder in s.senders
  }

  /** `task` is what produced the response `o` to the request forwarded as `m`: an answer from the one client
      it was forwarded to, or the server's own empty timeout. */
  ghost predicate Authored(task: Task, m: MsgId, responder: ClientId, o: Outcome)
    requires o.Responded?
  {
    || (task.Message? && task.client == o.author == responder
        && task.msg.content == ProtocolClient.Rsp(m, o.status, o.payload))
    || (task == RequestTimeout(m) && o.author == 0 && o.status == Timeout && o.payload == [])
  }

  ghost predicate ResponseOk(s: Core, a: Acceptance, m: MsgId, o: Outcome)
    requires o.Responded?
  {
    && a.at < o.at < |s.processed| && 0 <= o.at && m + 1 < o.rspId
    && Authored(s.processed[o.at], m, a.responder, o)
    && o.pos < |s.Channel(a.requester)|
    && s.Channel(a.requester)[o.pos] == Msg(o.rspId, ProtocolServer.Rsp(a.requestId, o.status, o.payload))
  }

  /** A response in a channel is the recorded outcome of one accepted request of that client. */
  ghost predicate Sourced(s: Core, c: ClientId, i: nat)
    requires i < |s.Channel(c)|
  {
    var x := s.Channel(c)[i];
    x.content.Rsp? ==>
      && x.id in s.source
      && var m := s.source[x.id];
         && m in s.accepted && s.accepted[m].requester == c
         && m in s.outcome && s.outcome[m].Responded? && s.outcome[m].pos == i
  }

  ghost predicate Responses(s: Core) {
    forall m | m in s.outcome && s.outcome[m].Responded? ::
      m in s.accepted && ResponseOk(s, s.accepted[m], m, s.outcome[m])
  }

  ghost predicate Sources(s: Core) {
    && (forall c: ClientId, i: nat | i < |s.Channel(c)| :: Sourced(s, c, i))
    && (forall id | id in s.source :: id < s.nextMsgId)
  }

  /** The Ack for the request forwarded as `m` takes the very next message id. */
  function AckOf(m: MsgId, a: Acceptance): ServerMsg {
    Msg(m + 1, ProtocolServer.Ack(a.requestId, None, None))
  }

  /** Acks come first: a requester that may still be answered has its Ack already (`skip`: not yet). */
  ghost predicate Acked(s: Core, skip: set<MsgId>) {
    forall m | m in s.accepted && m !in skip && ((m in s.pending && s.accepted[m].requester in s.senders)
                                                 || (m in s.outcome && s.outcome[m].Responded?)) ::
      AckOf(m, s.accepted[m]) in s.Channel(s.accepted[m].requester)
  }

  /** A request was cancelled only because one of its two parties is gone. */
  ghost predicate CancelledOk(s: Core) {
    forall m | m in s.outcome && s.outcome[m] == Cancelled ::
      m in s.accepted && !(s.accepted[m].requester in s.senders && s.accepted[m].responder in s.senders)
  }

  /** Id 0 is no client: it only subscribes to the kill topic, and always does. */
  ghost predicate ZeroIsKill(s: Core) {
    && (0, KILL) in s.dir.subs
    && (forall e | e in s.dir.subs && e.0 == 0 :: e.1 == KILL)
    && (forall p | p in s.dir.owners :: s.dir.owners[p] != 0)
  }

  /** What the present state satisfies ... */
  ghost predicate Present(s: Core) {
    Ids(s) && Partition(s) && PendingOk(s) && CancelledOk(s) && ZeroIsKill(s) && WellFormed(s.dir)
  }

  /** ... and how it accounts for the past. */
  ghost predicate Past(s: Core, skip: set<MsgId>) {
    Accepted(s) && Responses(s) && Sources(s) && Acked(s, skip)
  }

  ghost predicate Inv(s: Core, skip: set<MsgId>) {
    Present(s) && Past(s, skip)
  }

  /** Before the current task accepts anything, every accepted request came from an earlier one. */
  ghost predicate Current(s: Core, task: Task) {
    && |s.processed| > 0 && s.processed[|s.processed| - 1] == task
    && forall t | t in s.acceptedBy :: t < |s.processed| - 1
  }

  lemma InitInv()
    ensures Inv(InitCore(), {})
  {
    KillTopic();
  }

  // ---------- History only grows ----------

  ghost predicate Extends(s: Core, s': Core) {
    && s.nextMsgId <= s'.nextMsgId && s.nextClientId <= s'.nextClientId
    && s.processed <= s'.processed && s.sent.Keys <= s'.sent.Keys
    && (forall c: ClientId :: s.Channel(c) <= s'.Channel(c))
    && (forall m | m in s.accepted :: m in s'.accepted && s'.accepted[m] == s.accepted[m])
    && (forall t | t in s.acceptedBy :: t in s'.acceptedBy && s'.acceptedBy[t] == s.acceptedBy[t])
    && (forall m | m in s.outcome :: m in s'.outcome && s'.outcome[m] == s.outcome[m])
    && (forall id | id in s.source :: id in s'.source && s'.source[id] == s.source[id])
  }

  lemma ExtendsTransitive(s: Core, t: Core, u: Core)
    requires Extends(s, t) && Extends(t, u)
    ensures Extends(s, u)
  {
    forall c: ClientId ensures s.Channel(c) <= u.Channel(c) {
      assert s.Channel(c) <= t.Channel(c) && t.Channel(c) <= u.Channel(c);
    }
  }

  lemma ExtendsReflexive(s: Core)
    ensures Extends(s, s)
  {}

  /** No request was accepted or answered; messages other than responses may have been sent. */
  ghost predicate Quiet(s: Core, s': Core) {
    && Extends(s, s')
    && s'.accepted == s.accepted && s'.acceptedBy == s.acceptedBy && s'.source == s.source
    && s'.pending.Keys <= s.pending.Keys
    && s'.senders - s.senders !! s.sent.Keys
    && (forall m | m in s'.outcome && s'.outcome[m].Responded? :: m in s.outcome)
    && forall c: ClientId, i: nat | |s.Channel(c)| <= i < |s'.Channel(c)| :: !s'.Channel(c)[i].content.Rsp?
  }

  lemma AcceptedFrame(s: Core, s': Core)
    requires Accepted(s) && Extends(s, s') && s'.accepted == s.accepted && s'.acceptedBy == s.acceptedBy
    ensures Accepted(s')
  {
    forall m | m in s'.accepted ensures AcceptanceOk(s', m, s'.accepted[m]) {
      assert AcceptanceOk(s, m, s.accepted[m]);
      assert s.Channel(s.accepted[m].responder) <= s'.Channel(s.accepted[m].responder);
    }
  }

  lemma ResponsesFrame(s: Core, s': Core)
    requires Responses(s) && Extends(s, s')
    requires forall m | m in s'.outcome && s'.outcome[m].Responded? :: m in s.outcome
    ensures Responses(s')
  {
    forall m | m in s'.outcome && s'.outcome[m].Responded?
      ensures m in s'.accepted && ResponseOk(s', s'.accepted[m], m, s'.outcome[m])
    {
      assert ResponseOk(s, s.accepted[m], m, s.outcome[m]);
      assert s.Channel(s.accepted[m].requester) <= s'.Channel(s.accepted[m].requester);
    }
  }

  lemma SourcesFrame(s: Core, s': Core)
    requires Sources(s) && Extends(s, s') && s'.source == s.source
    requires forall c: ClientId, i: nat | |s.Channel(c)| <= i < |s'.Channel(c)| :: !s'.Channel(c)[i].content.Rsp?
    ensures Sources(s')
  {
    forall c: ClientId, i: nat | i < |s'.Channel(c)| ensures Sourced(s', c, i) {
      if i < |s.Channel(c)| {
        assert Sourced(s, c, i);
        assert s.Channel(c) <= s'.Channel(c);
      }
    }
  }

  lemma AckedFrame(s: Core, s': Core, skip: set<MsgId>)
    requires Accepted(s) && Acked(s, skip) && Quiet(s, s')
    ensures Acked(s', skip)
  {
    forall m | m in s'.accepted && m !in skip
               && ((m in s'.pending && s'.accepted[m].requester in s'.senders)
                   || (m in s'.outcome && s'.outcome[m].Responded?))
      ensures AckOf(m, s'.accepted[m]) in s'.Channel(s'.accepted[m].requester)
    {
      var c := s.accepted[m].requester;
      assert AcceptanceOk(s, m, s.accepted[m]);
      assert AckOf(m, s.accepted[m]) in s.Channel(c) && s.Channel(c) <= s'.Channel(c);
    }
  }

  /** What is quiet leaves the past as it was. */
  lemma PastFrame(s: Core, s': Core, skip: set<MsgId>)
    requires Past(s, skip) && Quiet(s, s')
    ensures Past(s', skip)
  {
    hide Accepted, Responses, Sources, Acked;
    AckedFrame(s, s', skip);
    AcceptedFrame(s, s');
    ResponsesFrame(s, s');
    SourcesFrame(s, s');
  }

  // ---------- Every step keeps the invariant ----------

  lemma NextTask(s: Core, task: Task)
    requires Inv(s, {})
    ensures var s' := s.(processed := s.processed + [task]);
            Inv(s', {}) && Current(s', task) && Extends(s, s')
  {
    var s' := s.(processed := s.processed + [task]);
    assert Quiet(s, s') by { assert forall c: ClientId :: s'.Channel(c) == s.Channel(c); }
    PastFrame(s, s', {});
  }

  lemma RegisterQuiet(s: Core)
    requires Ids(s)
    ensures Quiet(s, RegisterClient(s))
  {
    assert forall c: ClientId :: RegisterClient(s).Channel(c) == s.Channel(c);
  }

  lemma RegisterCancels(s: Core)
    requires CancelledOk(s) && s.nextClientId !in s.sent && Accepted(s)
    ensures CancelledOk(RegisterClient(s))
  {
    forall m | m in s.outcome && s.outcome[m] == Cancelled
      ensures m in s.accepted && s.accepted[m].requester != s.nextClientId && s.accepted[m].responder != s.nextClientId
    {
      assert AcceptanceOk(s, m, s.accepted[m]);
    }
    hide Accepted, AcceptanceOk;
  }

  lemma RegisterIds(s: Core)
    requires Ids(s)
    ensures Ids(RegisterClient(s)) && s.nextClientId !in s.sent
  {}

  lemma RegisterPresent(s: Core)
    requires Present(s) && Accepted(s)
    ensures Present(RegisterClient(s))
  {
    hide Ids, CancelledOk, Accepted, WellFormed;
    RegisterIds(s);
    RegisterCancels(s);
  }

  lemma RegisterKeeps(s: Core)
    requires Inv(s, {})
    ensures Inv(RegisterClient(s), {}) && Extends(s, RegisterClient(s))
  {
    RegisterQuiet(s);
    RegisterPresent(s);
    hide Present, Past;
    PastFrame(s, RegisterClient(s), {});
  }

  lemma DeregisterQuiet(s: Core, c: ClientId)
    requires Partition(s)
    ensures Quiet(s, DeregisterClient(s, c)) && Partition(DeregisterClient(s, c))
  {
    assert forall d: ClientId :: DeregisterClient(s, c).Channel(d) == s.Channel(d);
  }

  lemma DeregisterCancels(s: Core, c: ClientId)
    requires CancelledOk(s) && PendingOk(s)
    ensures CancelledOk(DeregisterClient(s, c)) && PendingOk(DeregisterClient(s, c))
  {}

  lemma DeregisterPresent(s: Core, c: ClientId)
    requires Present(s) && c != 0
    ensures Present(DeregisterClient(s, c))
  {
    WellFormedKept(s.dir, DoDrop(c));
    DeregisterQuiet(s, c);
    DeregisterCancels(s, c);
    hide CancelledOk, PendingOk, Quiet;
  }

  lemma DeregisterKeeps(s: Core, c: ClientId, skip: set<MsgId>)
    requires Inv(s, skip) && c != 0
    ensures Inv(DeregisterClient(s, c), skip) && Extends(s, DeregisterClient(s, c))
  {
    DeregisterPresent(s, c);
    DeregisterQuiet(s, c);
    hide Present, Past;
    PastFrame(s, DeregisterClient(s, c), skip);
  }

  /** Use up an id and append one message. */
  function Send(s: Core, c: ClientId, content: ProtocolServer): Core {
    s.(nextMsgId := s.nextMsgId + 1, sent := s.sent[c := s.Channel(c) + [Msg(s.nextMsgId, content)]])
  }

  /** The new id is above all that were used, in every channel. */
  lemma SendShares(s: Core, c: ClientId, content: ProtocolServer, d: ClientId, e: ClientId)
    requires c in s.sent && d in s.sent && e in s.sent && d != e && NoSharedId(s.sent[d], s.sent[e])
    requires Ascending(s.sent[d], s.nextMsgId) && Ascending(s.sent[e], s.nextMsgId)
    ensures NoSharedId(Send(s, c, content).sent[d], Send(s, c, content).sent[e])
  {}

  lemma SendExtends(s: Core, c: ClientId, content: ProtocolServer)
    ensures Extends(s, Send(s, c, content))
    ensures forall d: ClientId | d != c :: Send(s, c, content).Channel(d) == s.Channel(d)
  {}

  lemma SendIds(s: Core, c: ClientId, content: ProtocolServer)
    requires Ids(s) && c in s.senders
    ensures Ids(Send(s, c, content))
  {
    var s' := Send(s, c, content);
    hide NoSharedId;
    forall d | d in s'.sent ensures Ascending(s'.sent[d], s.nextMsgId + 1) {
      assert Ascending(s.sent[d], s.nextMsgId);
    }
    hide Ascending;
    forall d, e | d in s'.sent && e in s'.sent && d != e ensures NoSharedId(s'.sent[d], s'.sent[e]) {
      SendShares(s, c, content, d, e);
    }
  }

  lemma SendKeeps(s: Core, c: ClientId, content: ProtocolServer, skip: set<MsgId>)
    requires Inv(s, skip) && c in s.senders && !content.Rsp?
    ensures Inv(Send(s, c, content), skip) && Extends(s, Send(s, c, content))
  {
    hide Ids, Past;
    SendIds(s, c, content);
    SendExtends(s, c, content);
    assert Quiet(s, Send(s, c, content));
    PastFrame(s, Send(s, c, content), skip);
  }

  lemma SkipIdKeeps(s: Core, skip: set<MsgId>)
    requires Inv(s, skip)
    ensures var s' := s.(nextMsgId := s.nextMsgId + 1); Inv(s', skip) && Extends(s, s')
  {
    hide Past;
    var s' := s.(nextMsgId := s.nextMsgId + 1);
    assert Quiet(s, s') by { assert forall d: ClientId :: s'.Channel(d) == s.Channel(d); }
    PastFrame(s, s', skip);
    forall d | d in s'.sent ensures Ascending(s'.sent[d], s'.nextMsgId) { assert Ascending(s.sent[d], s.nextMsgId); }
  }

  lemma DeliverKeeps(s: Core, c: ClientId, content: ProtocolServer, env: Env, skip: set<MsgId>)
    requires Inv(s, skip) && !content.Rsp?
    ensures Inv(Deliver(s, c, content, env).0, skip) && Extends(s, Deliver(s, c, content, env).0)
  {
    if c in s.senders && !(c in env.leaving && s.nextMsgId in env.failing) {
      hide Inv, Extends;
      SendKeeps(s, c, content, skip);
    } else {
      hide Inv, Extends, DeregisterClient;
      UnsentKeeps(s, c, skip);
    }
  }

  lemma UnsentKeeps(s: Core, c: ClientId, skip: set<MsgId>)
    requires Inv(s, skip)
    ensures var s1 := s.(nextMsgId := s.nextMsgId + 1);
            && Inv(s1, skip) && Extends(s, s1)
            && (c in s.senders ==> Inv(DeregisterClient(s1, c), skip) && Extends(s, DeregisterClient(s1, c)))
  {
    NotZero(s, skip, c);
    hide Inv, Extends, DeregisterClient;
    var s1 := s.(nextMsgId := s.nextMsgId + 1);
    SkipIdKeeps(s, skip);
    if c in s.senders {
      DeregisterKeeps(s1, c, skip);
      ExtendsTransitive(s, s1, DeregisterClient(s1, c));
    }
  }

  lemma NotZero(s: Core, skip: set<MsgId>, c: ClientId)
    requires Inv(s, skip)
    ensures c in s.senders ==> c != 0
  {}

  lemma SenderIsClient(s: Core, skip: set<MsgId>)
    requires Inv(s, skip)
    ensures 0 !in s.senders && 0 !in s.sent && s.senders <= s.sent.Keys && s.pending.Keys !! s.outcome.Keys
    ensures forall id | id in s.source :: id < s.nextMsgId
    ensures forall m | m in s.pending :: m in s.accepted && s.pending[m].responder in s.senders
                                          && s.pending[m].responder == s.accepted[m].responder
  {}

  /** Only the directory changes. */
  lemma DirectoryKeeps(s: Core, dir: Flat)
    requires Inv(s, {}) && ZeroIsKill(s.(dir := dir)) && WellFormed(dir)
    ensures Inv(s.(dir := dir), {}) && Extends(s, s.(dir := dir))
  {
    hide Past;
    var s' := s.(dir := dir);
    assert Quiet(s, s') by { assert forall d: ClientId :: s'.Channel(d) == s.Channel(d); }
    PastFrame(s, s', {});
  }

  lemma DirectoryMessageKeeps(s: Core, c: ClientId, msg: ClientMsg, env: Env)
    requires Inv(s, {}) && c != 0 && (msg.content.Sub? || msg.content.Unsub? || msg.content.Srv? || msg.content.Unsrv?)
    ensures Inv(Handle(s, c, msg, env).0, {}) && Extends(s, Handle(s, c, msg, env).0)
  {
    hide Past;
    var op := match msg.content
      case Sub(t) => DoSubscribe(c, t)
      case Unsub(t) => DoUnsubscribe(c, t)
      case Srv(t) => DoClaim(c, t)
      case Unsrv(t) => DoUnclaim(c, t)
      case _ => DoDrop(c);
    WellFormedKept(s.dir, op);
    DirectoryKeeps(s, ApplyToFlat(s.dir, op));
  }

  // ---------- Requesting ----------

  /** The state after a request was forwarded under the id `m`. */
  function Accept(s: Core, c: ClientId, reqId: MsgId, topic: Topic, payload: Payload, m: MsgId, owner: ClientId): Core {
    s.(pending := s.pending[m := Pending(reqId, c, owner)],
       timers := s.timers + {m},
       accepted := s.accepted[m := Acceptance(|s.processed| - 1, c, reqId, owner, topic, payload)],
       acceptedBy := s.acceptedBy[|s.processed| - 1 := m])
  }

  lemma AcceptExtends(s: Core, c: ClientId, reqId: MsgId, topic: Topic, payload: Payload, m: MsgId, owner: ClientId)
    requires m !in s.accepted && |s.processed| - 1 !in s.acceptedBy
    ensures var s' := Accept(s, c, reqId, topic, payload, m, owner);
            Extends(s, s') && forall d: ClientId :: s'.Channel(d) == s.Channel(d)
  {}

  lemma AcceptAccepted(s: Core, c: ClientId, reqId: MsgId, topic: Topic, payload: Payload, m: MsgId, owner: ClientId)
    requires Accepted(s) && Current(s, Message(c, Msg(reqId, ProtocolClient.Req(topic, payload))))
    requires m !in s.accepted && m < s.nextMsgId && c in s.sent && owner in s.sent
    requires Msg(m, ProtocolServer.Req(topic, payload)) in s.Channel(owner)
    ensures Accepted(Accept(s, c, reqId, topic, payload, m, owner))
  {
    var s' := Accept(s, c, reqId, topic, payload, m, owner);
    forall n | n in s'.accepted ensures AcceptanceOk(s', n, s'.accepted[n]) {
      if n != m { assert AcceptanceOk(s, n, s.accepted[n]); }
    }
  }

  lemma AcceptPresent(s: Core, c: ClientId, reqId: MsgId, topic: Topic, payload: Payload, m: MsgId, owner: ClientId)
    requires Present(s) && m !in s.accepted && owner in s.senders
    ensures Present(Accept(s, c, reqId, topic, payload, m, owner))
  {
    hide Ids, WellFormed;
    var s' := Accept(s, c, reqId, topic, payload, m, owner);
    assert s'.pending.Keys == s.pending.Keys + {m} && s'.accepted.Keys == s.accepted.Keys + {m};
    assert Ids(s') by { SameIds(s, s'); }
  }

  lemma SameIds(s: Core, s': Core)
    requires Ids(s) && s'.sent == s.sent && s'.senders <= s.senders
    requires s'.nextClientId == s.nextClientId && s'.nextMsgId == s.nextMsgId
    ensures Ids(s')
  {}

  lemma AcceptAcked(s: Core, c: ClientId, reqId: MsgId, topic: Topic, payload: Payload, m: MsgId, owner: ClientId)
    requires Acked(s, {}) && m !in s.accepted
    ensures Acked(Accept(s, c, reqId, topic, payload, m, owner), {m})
  {
    assert forall d: ClientId :: Accept(s, c, reqId, topic, payload, m, owner).Channel(d) == s.Channel(d);
  }

  lemma AcceptKeeps(s: Core, c: ClientId, reqId: MsgId, topic: Topic, payload: Payload, m: MsgId, owner: ClientId)
    requires Inv(s, {}) && Current(s, Message(c, Msg(reqId, ProtocolClient.Req(topic, payload))))
    requires m !in s.accepted && m < s.nextMsgId && c in s.sent && owner in s.senders
    requires Msg(m, ProtocolServer.Req(topic, payload)) in s.Channel(owner)
    ensures var s' := Accept(s, c, reqId, topic, payload, m, owner); Inv(s', {m}) && Extends(s, s')
  {
    SenderIsClient(s, {});
    hide Present, Accepted, Responses, Sources, Acked, Extends;
    var s' := Accept(s, c, reqId, topic, payload, m, owner);
    AcceptExtends(s, c, reqId, topic, payload, m, owner);
    AcceptAccepted(s, c, reqId, topic, payload, m, owner);
    AcceptPresent(s, c, reqId, topic, payload, m, owner);
    AcceptAcked(s, c, reqId, topic, payload, m, owner);
    ResponsesFrame(s, s');
    SourcesFrame(s, s');
  }

  lemma FreshId(s: Core, skip: set<MsgId>)
    requires Inv(s, skip)
    ensures s.nextMsgId !in s.accepted && s.nextMsgId !in s.outcome && s.nextMsgId !in s.pending
  {
    assert forall m | m in s.accepted :: AcceptanceOk(s, m, s.accepted[m]);
  }

  lemma ForwardKeeps(s: Core, c: ClientId, reqId: MsgId, topic: Topic, payload: Payload, owner: ClientId)
    requires Inv(s, {}) && Current(s, Message(c, Msg(reqId, ProtocolClient.Req(topic, payload)))) && c in s.sent
             && owner in s.senders
    ensures var s1 := Send(s, owner, ProtocolServer.Req(topic, payload));
            var s2 := Accept(s1, c, reqId, topic, payload, s.nextMsgId, owner);
            Inv(s2, {s.nextMsgId}) && Extends(s, s2)
  {
    hide Inv, Extends;
    var s1 := Send(s, owner, ProtocolServer.Req(topic, payload));
    SendKeeps(s, owner, ProtocolServer.Req(topic, payload), {});
    FreshId(s, {});
    AcceptKeeps(s1, c, reqId, topic, payload, s.nextMsgId, owner);
    ExtendsTransitive(s, s1, Accept(s1, c, reqId, topic, payload, s.nextMsgId, owner));
  }

  /** Once its Ack was sent, or its requester is gone, an accepted request needs no exemption. */
  lemma AckClears(s: Core, c: ClientId, m: MsgId, env: Env)
    requires s.nextMsgId == m + 1 && m in s.accepted && s.accepted[m].requester == c && m !in s.outcome
    requires Inv(Acknowledge(s, c, s.accepted[m].requestId, None, None, env), {m})
    ensures Inv(Acknowledge(s, c, s.accepted[m].requestId, None, None, env), {})
  {
    hide Present, Accepted, Responses, Sources;
  }

  lemma AcknowledgeKeeps(s: Core, c: ClientId, msgId: MsgId, err: Option<BusError>, recipients: Option<nat>, env: Env,
                         skip: set<MsgId>)
    requires Inv(s, skip)
    ensures var s' := Acknowledge(s, c, msgId, err, recipients, env); Inv(s', skip) && Extends(s, s')
  {
    hide Inv, Extends;
    DeliverKeeps(s, c, ProtocolServer.Ack(msgId, err, recipients), env, skip);
  }

  /** A whole Req message: forwarded or refused, then acknowledged. */
  lemma RequestKeeps(s: Core, c: ClientId, msg: ClientMsg, env: Env)
    requires Inv(s, {}) && Current(s, Message(c, msg)) && c in s.sent && msg.content.Req?
    ensures var s' := ProcessMsg(s, c, msg, env).0; Inv(s', {}) && Extends(s, s')
  {
    hide Inv, Extends, Current;
    var topic, payload := msg.content.topic, msg.content.payload;
    var (s2, err) := Request(s, c, msg.id, topic, payload, env);
    var s' := Acknowledge(s2, c, msg.id, err, None, env);
    assert s' == ProcessMsg(s, c, msg, env).0;
    var owner := s.dir.Owner(Segments(topic));
    if err.None? {
      ForwardKeeps(s, c, msg.id, topic, payload, owner.value);
      AcknowledgeKeeps(s2, c, msg.id, None, None, env, {s.nextMsgId});
      FreshId(s, {});
      AckClears(s2, c, s.nextMsgId, env);
      ExtendsTransitive(s, s2, s');
    } else {
      if owner.Some? {
        DeliverKeeps(s, owner.value, ProtocolServer.Req(topic, payload), env, {});
      }
      AcknowledgeKeeps(s2, c, msg.id, err, None, env, {});
      if owner.Some? { ExtendsTransitive(s, s2, s'); }
    }
  }

  // ---------- Responding ----------

  /** The state after the response to `m` was sent. */
  function Answered(s: Core, author: ClientId, m: MsgId, status: RspStatus, payload: Payload): Core
    requires m in s.pending
  {
    var p := s.pending[m];
    var s1 := Send(s, p.requester, ProtocolServer.Rsp(p.requestId, status, payload));
    s1.(pending := s.pending - {m},
        outcome := s.outcome[m := Responded(|s.processed| - 1, author, |s.Channel(p.requester)|,
                                            s.nextMsgId, status, payload)],
        source := s.source[s.nextMsgId := m])
  }

  /** The current task authorises a response to `m`. */
  ghost predicate MayAnswer(s: Core, author: ClientId, m: MsgId, status: RspStatus, payload: Payload) {
    && m in s.pending
    && |s.processed| > 0
    && Authored(s.processed[|s.processed| - 1], m, s.pending[m].responder,
                Responded(|s.processed| - 1, author, 0, 0, status, payload))
    && forall t | t in s.acceptedBy :: t < |s.processed| - 1
  }

  lemma AnsweredExtends(s: Core, author: ClientId, m: MsgId, status: RspStatus, payload: Payload)
    requires m in s.pending && m !in s.outcome && s.nextMsgId !in s.source
    ensures var s' := Answered(s, author, m, status, payload);
            Extends(s, s') && forall d: ClientId | d != s.pending[m].requester :: s'.Channel(d) == s.Channel(d)
  {}

  lemma AnsweredResponse(s: Core, author: ClientId, m: MsgId, status: RspStatus, payload: Payload)
    requires MayAnswer(s, author, m, status, payload) && m in s.accepted && AcceptanceOk(s, m, s.accepted[m])
    requires s.pending[m] == Pending(s.accepted[m].requestId, s.accepted[m].requester, s.accepted[m].responder)
    requires m + 1 < s.nextMsgId
    ensures var s' := Answered(s, author, m, status, payload); ResponseOk(s', s'.accepted[m], m, s'.outcome[m])
  {}

  lemma AnsweredResponses(s: Core, author: ClientId, m: MsgId, status: RspStatus, payload: Payload)
    requires MayAnswer(s, author, m, status, payload) && Responses(s) && m in s.accepted && m !in s.outcome
    requires Extends(s, Answered(s, author, m, status, payload))
    requires var s' := Answered(s, author, m, status, payload); ResponseOk(s', s'.accepted[m], m, s'.outcome[m])
    ensures Responses(Answered(s, author, m, status, payload))
  {
    var s' := Answered(s, author, m, status, payload);
    forall n | n in s'.outcome && s'.outcome[n].Responded?
      ensures n in s'.accepted && ResponseOk(s', s'.accepted[n], n, s'.outcome[n])
    {
      if n != m {
        assert ResponseOk(s, s.accepted[n], n, s.outcome[n]);
        assert s.Channel(s.accepted[n].requester) <= s'.Channel(s.accepted[n].requester);
      }
    }
  }

  lemma AnsweredSources(s: Core, author: ClientId, m: MsgId, status: RspStatus, payload: Payload)
    requires Sources(s) && Ids(s) && m in s.pending && m in s.accepted && m !in s.outcome
    requires s.pending[m].requester == s.accepted[m].requester
    requires Extends(s, Answered(s, author, m, status, payload))
    ensures Sources(Answered(s, author, m, status, payload))
  {
    var s' := Answered(s, author, m, status, payload);
    forall d: ClientId, i: nat | i < |s'.Channel(d)| ensures Sourced(s', d, i) {
      if i < |s.Channel(d)| {
        assert Sourced(s, d, i);
        assert s.Channel(d) <= s'.Channel(d);
      } else {
        assert d == s.pending[m].requester && i == |s.Channel(d)|;
      }
    }
  }

  lemma AnsweredPresent(s: Core, author: ClientId, m: MsgId, status: RspStatus, payload: Payload)
    requires Present(s) && m in s.pending && s.pending[m].requester in s.senders
    ensures Present(Answered(s, author, m, status, payload))
  {
    hide Ids, WellFormed;
    var s' := Answered(s, author, m, status, payload);
    assert Partition(s') by {
      assert s'.pending.Keys == s.pending.Keys - {m} && s'.outcome.Keys == s.outcome.Keys + {m};
    }
    assert PendingOk(s') && ZeroIsKill(s');
    AnsweredIds(s, author, m, status, payload);
  }

  lemma AnsweredIds(s: Core, author: ClientId, m: MsgId, status: RspStatus, payload: Payload)
    requires Ids(s) && m in s.pending && s.pending[m].requester in s.senders
    ensures Ids(Answered(s, author, m, status, payload))
  {
    var p := s.pending[m];
    var s1 := Send(s, p.requester, ProtocolServer.Rsp(p.requestId, status, payload));
    SendIds(s, p.requester, ProtocolServer.Rsp(p.requestId, status, payload));
    SameIds(s1, Answered(s, author, m, status, payload));
  }

  lemma AnsweredAcked(s: Core, author: ClientId, m: MsgId, status: RspStatus, payload: Payload)
    requires Acked(s, {}) && m in s.pending && m in s.accepted && s.pending[m].requester == s.accepted[m].requester
    requires s.pending[m].requester in s.senders && Extends(s, Answered(s, author, m, status, payload))
    ensures Acked(Answered(s, author, m, status, payload), {})
  {
    var s' := Answered(s, author, m, status, payload);
    forall n | n in s'.accepted && ((n in s'.pending && s'.accepted[n].requester in s'.senders)
                                    || (n in s'.outcome && s'.outcome[n].Responded?))
      ensures AckOf(n, s'.accepted[n]) in s'.Channel(s'.accepted[n].requester)
    {
      assert AckOf(n, s.accepted[n]) in s.Channel(s.accepted[n].requester);
      assert s.Channel(s.accepted[n].requester) <= s'.Channel(s.accepted[n].requester);
    }
  }

  lemma AckWasEarlier(s: Core, m: MsgId)
    requires Inv(s, {}) && m in s.pending && s.pending[m].requester in s.senders
    ensures m + 1 < s.nextMsgId
  {
    var c := s.accepted[m].requester;
    assert AckOf(m, s.accepted[m]) in s.Channel(c) && Ascending(s.sent[c], s.nextMsgId);
  }

  lemma AnsweredKeeps(s: Core, author: ClientId, m: MsgId, status: RspStatus, payload: Payload)
    requires Inv(s, {}) && m in s.pending && MayAnswer(s, author, m, status, payload)
             && s.pending[m].requester in s.senders
    ensures var s' := Answered(s, author, m, status, payload); Inv(s', {}) && Extends(s, s')
  {
    var s' := Answered(s, author, m, status, payload);
    SenderIsClient(s, {});
    assert m in s.accepted && AcceptanceOk(s, m, s.accepted[m]);
    assert s.pending[m] == Pending(s.accepted[m].requestId, s.accepted[m].requester, s.accepted[m].responder);
    AckWasEarlier(s, m);
    hide Ids, Accepted, Responses, Sources, Acked, Extends, MayAnswer, AcceptanceOk, ResponseOk;
    AnsweredExtends(s, author, m, status, payload);
    AnsweredResponse(s, author, m, status, payload);
    AnsweredResponses(s, author, m, status, payload);
    AnsweredSources(s, author, m, status, payload);
    AnsweredPresent(s, author, m, status, payload);
    AnsweredAcked(s, author, m, status, payload);
    AcceptedFrame(s, s');
  }

  /** Mark a pending request as one whose response cannot be delivered. */
  function GiveUp(s: Core, m: MsgId): Core {
    s.(pending := s.pending - {m}, outcome := s.outcome[m := Undeliverable])
  }

  lemma GiveUpPresent(s: Core, m: MsgId)
    requires Present(s) && m in s.pending
    ensures Present(GiveUp(s, m))
  {
    hide Ids, WellFormed;
    var s' := GiveUp(s, m);
    assert s'.pending.Keys == s.pending.Keys - {m} && s'.outcome.Keys == s.outcome.Keys + {m};
    SameIds(s, s');
  }

  lemma GiveUpQuiet(s: Core, m: MsgId)
    requires m in s.pending && m !in s.outcome
    ensures Quiet(s, GiveUp(s, m))
  {
    assert forall d: ClientId :: GiveUp(s, m).Channel(d) == s.Channel(d);
  }

  lemma GiveUpKeeps(s: Core, m: MsgId)
    requires Inv(s, {}) && m in s.pending
    ensures Inv(GiveUp(s, m), {}) && Extends(s, GiveUp(s, m))
  {
    assert m !in s.outcome;
    hide Present, Past;
    GiveUpPresent(s, m);
    GiveUpQuiet(s, m);
    PastFrame(s, GiveUp(s, m), {});
  }

  lemma UndeliveredKeeps(s: Core, m: MsgId, c: ClientId)
    requires Inv(s, {}) && m in s.pending && c != 0
    ensures var s1 := GiveUp(s, m).(nextMsgId := s.nextMsgId + 1);
            && Inv(s1, {}) && Extends(s, s1)
            && Inv(DeregisterClient(s1, c), {}) && Extends(s, DeregisterClient(s1, c))
  {
    hide Inv, Extends;
    var s1 := GiveUp(s, m);
    var s2 := s1.(nextMsgId := s.nextMsgId + 1);
    GiveUpKeeps(s, m);
    SkipIdKeeps(s1, {});
    ExtendsTransitive(s, s1, s2);
    DeregisterKeeps(s2, c, {});
    ExtendsTransitive(s, s2, DeregisterClient(s2, c));
  }

  lemma GiveUpCommutes(s: Core, m: MsgId, c: ClientId)
    requires m in s.pending && s.pending.Keys !! s.outcome.Keys
    ensures var s1 := DeregisterClient(s.(pending := s.pending - {m}, nextMsgId := s.nextMsgId + 1), c);
            s1.(outcome := s1.outcome[m := Undeliverable])
              == DeregisterClient(GiveUp(s, m).(nextMsgId := s.nextMsgId + 1), c)
  {
    var s1 := DeregisterClient(s.(pending := s.pending - {m}, nextMsgId := s.nextMsgId + 1), c);
    var s2 := DeregisterClient(GiveUp(s, m).(nextMsgId := s.nextMsgId + 1), c);
    assert s1.outcome[m := Undeliverable].Keys == s2.outcome.Keys;
    assert s1.outcome[m := Undeliverable] == s2.outcome;
  }

  /** What `Respond` comes to, once it finds the request pending and the author entitled. */
  lemma RespondCases(s: Core, author: ClientId, m: MsgId, status: RspStatus, payload: Payload, env: Env)
    requires m in s.pending && (author == 0 || author == s.pending[m].responder) && s.pending.Keys !! s.outcome.Keys
    ensures var s' := Respond(s, author, m, status, payload, env).0;
            var c := s.pending[m].requester;
            var given := GiveUp(s, m).(nextMsgId := s.nextMsgId + 1);
            s' == if c !in s.senders then given
                  else if c in env.leaving && s.nextMsgId in env.failing then DeregisterClient(given, c)
                  else Answered(s, author, m, status, payload)
  {
    GiveUpCommutes(s, m, s.pending[m].requester);
  }

  /** Whoever responds, and whether or not it can be delivered. */
  lemma RespondKeeps(s: Core, author: ClientId, m: MsgId, status: RspStatus, payload: Payload, env: Env)
    requires Inv(s, {})
    requires m in s.pending && (author == 0 || author == s.pending[m].responder) ==>
               MayAnswer(s, author, m, status, payload)
    ensures var s' := Respond(s, author, m, status, payload, env).0; Inv(s', {}) && Extends(s, s')
  {
    SenderIsClient(s, {});
    ExtendsReflexive(s);
    hide Inv, Extends, MayAnswer, Answered, GiveUp, DeregisterClient;
    if m in s.pending && (author == 0 || author == s.pending[m].responder) {
      var c := s.pending[m].requester;
      RespondCases(s, author, m, status, payload, env);
      hide Respond;
      if c in s.senders && !(c in env.leaving && s.nextMsgId in env.failing) {
        AnsweredKeeps(s, author, m, status, payload);
      } else {
        RequesterIsClient(s, m);
        UndeliveredKeeps(s, m, c);
      }
    }
  }

  lemma RequesterIsClient(s: Core, m: MsgId)
    requires Inv(s, {}) && m in s.pending
    ensures s.pending[m].requester in s.sent && s.pending[m].requester != 0
  {
    assert AcceptanceOk(s, m, s.accepted[m]);
  }

  // ---------- Whole tasks ----------

  lemma PublishKeeps(s: Core, clients: seq<ClientId>, content: ProtocolServer, env: Env)
    requires Inv(s, {}) && !content.Rsp?
    ensures var s' := PublishTo(s, clients, content, env).0; Inv(s', {}) && Extends(s, s')
    decreases |clients|
  {
    hide Inv, Extends;
    ExtendsReflexive(s);
    if clients != [] && clients[0] != 0 {
      var (s1, r) := Deliver(s, clients[0], content, env);
      DeliverKeeps(s, clients[0], content, env, {});
      if r.Ok? {
        PublishKeeps(s1, clients[1..], content, env);
        ExtendsTransitive(s, s1, PublishTo(s1, clients[1..], content, env).0);
      }
    }
  }

  lemma PublishMessageKeeps(s: Core, c: ClientId, msg: ClientMsg, env: Env)
    requires Inv(s, {}) && msg.content.Pub?
    ensures var s' := ProcessMsg(s, c, msg, env).0; Inv(s', {}) && Extends(s, s')
  {
    hide Inv, Extends;
    var content := ProtocolServer.Pub(msg.content.topic, msg.content.payload);
    var (s1, r) := PublishTo(s, env.order, content, env);
    PublishKeeps(s, env.order, content, env);
    if !r.Killed? {
      var err, n := if r.AllSent? then None else Some(r.error), if r.AllSent? then Some(|env.order|) else None;
      AcknowledgeKeeps(s1, c, msg.id, err, n, env, {});
      ExtendsTransitive(s, s1, Acknowledge(s1, c, msg.id, err, n, env));
    }
  }

  lemma AnswerKeeps(s: Core, c: ClientId, msg: ClientMsg, env: Env)
    requires Inv(s, {}) && Current(s, Message(c, msg)) && msg.content.Rsp? && c != 0
    ensures var s' := Respond(s, c, msg.content.reqId, msg.content.status, msg.content.payload, env).0;
            Inv(s', {}) && Extends(s, s')
  {
    hide Inv, Extends, Respond;
    RespondKeeps(s, c, msg.content.reqId, msg.content.status, msg.content.payload, env);
  }

  lemma HandleKeeps(s: Core, c: ClientId, msg: ClientMsg, env: Env)
    requires Inv(s, {}) && Current(s, Message(c, msg)) && c in s.sent && !msg.content.Req? && !msg.content.Pub?
    ensures var s' := Handle(s, c, msg, env).0; Inv(s', {}) && Extends(s, s')
  {
    assert c != 0;
    hide Inv, Extends;
    match msg.content
    case Rsp(m, status, payload) => AnswerKeeps(s, c, msg, env);
    case Stop => ExtendsReflexive(s);
    case KeepAlive => ExtendsReflexive(s);
    case _ => DirectoryMessageKeeps(s, c, msg, env);
  }

  lemma MessageKeeps(s: Core, c: ClientId, msg: ClientMsg, env: Env)
    requires Inv(s, {}) && Current(s, Message(c, msg)) && c in s.sent
    ensures var s' := ProcessMsg(s, c, msg, env).0; Inv(s', {}) && Extends(s, s')
  {
    hide Inv, Extends, Current;
    if msg.content.Req? {
      RequestKeeps(s, c, msg, env);
    } else if msg.content.Pub? {
      PublishMessageKeeps(s, c, msg, env);
    } else {
      var (s1, err) := Handle(s, c, msg, env);
      HandleKeeps(s, c, msg, env);
      AcknowledgeKeeps(s1, c, msg.id, err, None, env, {});
      ExtendsTransitive(s, s1, Acknowledge(s1, c, msg.id, err, None, env));
    }
  }

  /** A task that may stand in the queue: its client has been registered. */
  predicate Known(s: Core, task: Task) {
    match task
    case Message(c, _) => c in s.sent
    case Deregister(c) => c in s.sent
    case _ => true
  }

  lemma TimeoutKeeps(s: Core, m: MsgId, env: Env)
    requires Inv(s, {}) && Current(s, RequestTimeout(m))
    ensures var s' := Respond(s, 0, m, Timeout, [], env).0; Inv(s', {}) && Extends(s, s')
  {
    hide Inv, Extends;
    RespondKeeps(s, 0, m, Timeout, [], env);
  }

  /** The invariant theorem: one task, whatever it is and whatever the world does meanwhile. */
  lemma TaskKeeps(s: Core, task: Task, env: Env)
    requires Inv(s, {}) && Known(s, task)
    ensures var s' := ProcessTask(s, task, env).0; Inv(s', {}) && Extends(s, s')
  {
    assert task.Deregister? ==> task.client != 0;
    hide Inv, Extends, Current, DeregisterClient, RegisterClient, ProcessMsg, Respond;
    var s0 := s.(processed := s.processed + [task]);
    NextTask(s, task);
    match task {
      case Register => RegisterKeeps(s0);
      case Deregister(c) => DeregisterKeeps(s0, c, {});
      case Message(c, msg) => MessageKeeps(s0, c, msg, env);
      case RequestTimeout(m) => TimeoutKeeps(s0, m, env);
    }
    ExtendsTransitive(s, s0, ProcessTask(s, task, env).0);
  }
}
