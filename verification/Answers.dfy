/** What the server answers: which requests it takes, which responses it passes on, and what its Acks report, over
    whole runs and in terms of the state in which each message was processed. */
module Answers {
  import opened Common
  import opened Matching
  import opened Tries
  import opened Topics
  import opened Protocol
  import opened ServerSpec
  import opened ServerInvariants
  import opened Systems
  import opened ServerPromises
  import opened Origins
  import opened Bookkeeping

  // ---------- Requests and responses, one step ----------

  /** Message `i` is the only one that `c`'s channel gained so far. */
  ghost predicate Gained(s: Core, s': Core, c: ClientId, x: ServerMsg) {
    |s.Channel(c)| < |s'.Channel(c)| && s'.Channel(c)[|s.Channel(c)|] == x
  }

  /** The request was taken: it has its record, and the owner was sent it. */
  ghost predicate Taken(s: Core, s': Core, at: int, c: ClientId, msg: ClientMsg, owner: ClientId)
    requires msg.content.Req?
  {
    var m, x := s.nextMsgId, msg.content;
    && m in s'.accepted && s'.accepted[m] == Acceptance(at, c, msg.id, owner, x.topic, x.payload)
    && Gained(s, s', owner, Msg(m, ProtocolServer.Req(x.topic, x.payload)))
  }

  lemma DeliverLater(s: Core, s1: Core, c: ClientId, x: ServerMsg, d: ClientId, y: ProtocolServer, env: Env)
    requires Gained(s, s1, c, x)
    ensures Gained(s, Deliver(s1, d, y, env).0, c, x)
  {
    DeliverShape(s1, d, y, env);
  }

  lemma RequestStep(s: Core, c: ClientId, msg: ClientMsg, env: Env)
    requires msg.content.Req?
    ensures var owner := s.dir.Owner(Segments(msg.content.topic));
            var (s', err) := Handle(s, c, msg, env);
            if owner.Some? && CanReach(s, owner.value, 0, env)
            then err == None && Taken(s, s', |s.processed| - 1, c, msg, owner.value)
            else s'.accepted == s.accepted
                 && err == Some(if owner.None? then ServiceNotFound(msg.content.topic)
                                else if owner.value in s.senders then DeliveryFailed(owner.value)
                                else UnknownClient(owner.value))
  {
    var owner, x := s.dir.Owner(Segments(msg.content.topic)), msg.content;
    if owner.Some? {
      DeliverShape(s, owner.value, ProtocolServer.Req(x.topic, x.payload), env);
      DeliverFails(s, owner.value, ProtocolServer.Req(x.topic, x.payload), env);
    }
    hide Deliver, Segments, CanReach;
  }

  /** The response reached its requester: the request is settled, and the requester was sent the answer. */
  ghost predicate PassedOn(s: Core, s': Core, at: int, author: ClientId, m: MsgId, status: RspStatus, payload: Payload)
    requires m in s.pending
  {
    var r := s.pending[m];
    && m in s'.outcome && s'.outcome[m] == Responded(at, author, |s.Channel(r.requester)|, s.nextMsgId, status, payload)
    && Gained(s, s', r.requester, Msg(s.nextMsgId, ProtocolServer.Rsp(r.requestId, status, payload)))
  }

  lemma RespondStep(s: Core, author: ClientId, m: MsgId, status: RspStatus, payload: Payload, env: Env)
    ensures var (s', err) := Respond(s, author, m, status, payload, env);
            if !(m in s.pending && (author == 0 || s.pending[m].responder == author))
            then s' == s && err == Some(InvalidRequestId)
            else
              && m !in s'.pending
              && if CanReach(s, s.pending[m].requester, 0, env)
                 then err == None && PassedOn(s, s', |s.processed| - 1, author, m, status, payload)
                 else m in s'.outcome && s'.outcome[m] == Undeliverable
                      && err == Some(if s.pending[m].requester in s.senders then DeliveryFailed(s.pending[m].requester)
                                     else UnknownClient(s.pending[m].requester))
  {
    if m in s.pending && (author == 0 || s.pending[m].responder == author) {
      var r := s.pending[m];
      var s1 := s.(pending := s.pending - {m});
      var x := ProtocolServer.Rsp(r.requestId, status, payload);
      assert s1.Channel(r.requester) == s.Channel(r.requester);
      DeliverShape(s1, r.requester, x, env);
      DeliverFails(s1, r.requester, x, env);
      DeliverId(s1, r.requester, x, env);
      assert CanReach(s1, r.requester, 0, env) <==> CanReach(s, r.requester, 0, env);
    }
    hide Deliver, CanReach;
  }

  // ---------- Requests and responses, over runs ----------

  /** The state with the task on record, in which its message is handled. */
  function Handling(s: Core, task: Task): Core {
    s.(processed := s.processed + [task])
  }

  lemma SameView(s: Core, task: Task)
    ensures var s0 := Handling(s, task);
            && (forall c: ClientId :: s0.Channel(c) == s.Channel(c))
            && (forall c: ClientId, n: nat, env :: CanReach(s0, c, n, env) <==> CanReach(s, c, n, env))
  {}

  lemma StepOf(events: seq<Event>, k: nat)
    requires IsRun(events) && Processes(events, k)
    ensures Before(events, k + 1) == ProcessTask(Before(events, k), TaskAt(events, k), events[k].env).0
    ensures Inv(Before(events, k), {})
    ensures TaskAt(events, k).Message? ==> TaskAt(events, k).client != 0
  {
    hide IsRun, StateAfter, Enabled, SystemInv, ProcessTask;
    UpTo(events, k);
    Reachable(events[..k]);
    ReadyForTask(StateAfter(events[..k]));
  }

  /** What is settled is not disturbed by the Ack. */
  lemma AckLeaves(s: Core, c: ClientId, x: ProtocolServer, env: Env)
    ensures var s' := Deliver(s, c, x, env).0;
            && s'.accepted == s.accepted && s'.pending.Keys <= s.pending.Keys
            && forall m | m in s.outcome && m !in s.pending :: m in s'.outcome && s'.outcome[m] == s.outcome[m]
  {}

  lemma RequestTaskStep(s: Core, task: Task, env: Env)
    requires task.Message? && task.msg.content.Req?
    ensures var s' := ProcessTask(s, task, env).0;
            var owner := s.dir.Owner(Segments(task.msg.content.topic));
            if owner.Some? && CanReach(s, owner.value, 0, env)
            then Taken(s, s', |s.processed|, task.client, task.msg, owner.value)
            else s'.accepted == s.accepted
  {
    hide Deliver, Handle, CanReach, Segments, Gained;
    var s0 := Handling(s, task);
    var (s1, err) := Handle(s0, task.client, task.msg, env);
    var ack := ProtocolServer.Ack(task.msg.id, err, None);
    var owner, x := s.dir.Owner(Segments(task.msg.content.topic)), task.msg.content;
    SameView(s, task);
    RequestStep(s0, task.client, task.msg, env);
    AckLeaves(s1, task.client, ack, env);
    if owner.Some? && CanReach(s, owner.value, 0, env) {
      var req := Msg(s.nextMsgId, ProtocolServer.Req(x.topic, x.payload));
      DeliverLater(s0, s1, owner.value, req, task.client, ack, env);
      SameGain(s, s0, ProcessTask(s, task, env).0, owner.value, req);
    }
  }

  lemma SameGain(s: Core, s0: Core, s': Core, c: ClientId, x: ServerMsg)
    requires s0.sent == s.sent && Gained(s0, s', c, x)
    ensures Gained(s, s', c, x)
  {}

  /** A request is taken exactly when its topic has an owner that can be reached; then it is recorded with its topic,
      its payload and its asker, and the owner is sent just that topic and payload. */
  lemma RequestTaken(events: seq<Event>, k: nat)
    requires IsRun(events) && Processes(events, k) && TaskAt(events, k).Message? && TaskAt(events, k).msg.content.Req?
    ensures var s, s', task := Before(events, k), Before(events, k + 1), TaskAt(events, k);
            var owner := s.dir.Owner(Segments(task.msg.content.topic));
            if owner.Some? && CanReach(s, owner.value, 0, events[k].env)
            then Taken(s, s', |s.processed|, task.client, task.msg, owner.value)
            else s'.accepted == s.accepted
  {
    StepOf(events, k);
    hide IsRun, StateAfter, Processes, ProcessTask, CanReach, Taken, Segments, Inv;
    RequestTaskStep(Before(events, k), TaskAt(events, k), events[k].env);
  }

  /** What comes of a response or a timeout for the pending request `m`. */
  ghost predicate SettledBy(s: Core, s': Core, author: ClientId, m: MsgId, status: RspStatus, payload: Payload,
                            env: Env)
    requires m in s.pending
  {
    && m !in s'.pending
    && if CanReach(s, s.pending[m].requester, 0, env)
       then PassedOn(s, s', |s.processed|, author, m, status, payload)
       else m in s'.outcome && s'.outcome[m] == Undeliverable
  }

  lemma SettledStep(s: Core, task: Task, author: ClientId, m: MsgId, status: RspStatus, payload: Payload, env: Env)
    requires m in s.pending && (author == 0 || s.pending[m].responder == author)
    ensures SettledBy(s, Respond(Handling(s, task), author, m, status, payload, env).0, author, m, status, payload, env)
  {
    var s0 := Handling(s, task);
    hide Respond, CanReach, Gained;
    SameView(s, task);
    RespondStep(s0, author, m, status, payload, env);
    var r := s.pending[m];
    if CanReach(s, r.requester, 0, env) {
      SameGain(s, s0, Respond(s0, author, m, status, payload, env).0, r.requester,
               Msg(s.nextMsgId, ProtocolServer.Rsp(r.requestId, status, payload)));
    }
  }

  lemma SettledLater(s: Core, s1: Core, author: ClientId, m: MsgId, status: RspStatus, payload: Payload, env: Env,
                     c: ClientId, x: ProtocolServer)
    requires m in s.pending && SettledBy(s, s1, author, m, status, payload, env)
    ensures SettledBy(s, Deliver(s1, c, x, env).0, author, m, status, payload, env)
  {
    hide Deliver, CanReach, Gained;
    var r := s.pending[m];
    AckLeaves(s1, c, x, env);
    if CanReach(s, r.requester, 0, env) {
      DeliverLater(s, s1, r.requester, Msg(s.nextMsgId, ProtocolServer.Rsp(r.requestId, status, payload)), c, x, env);
    }
  }

  lemma ResponseTaskStep(s: Core, task: Task, env: Env)
    requires task.Message? && task.client != 0 && task.msg.content.Rsp?
    requires var m := task.msg.content.reqId; m in s.pending && s.pending[m].responder == task.client
    ensures var x := task.msg.content;
            SettledBy(s, ProcessTask(s, task, env).0, task.client, x.reqId, x.status, x.payload, env)
  {
    hide SettledBy, Deliver, Respond;
    var s0, x := Handling(s, task), task.msg.content;
    var (s1, err) := Respond(s0, task.client, x.reqId, x.status, x.payload, env);
    SettledStep(s, task, task.client, x.reqId, x.status, x.payload, env);
    SettledLater(s, s1, task.client, x.reqId, x.status, x.payload, env, task.client,
                 ProtocolServer.Ack(task.msg.id, err, None));
  }

  /** A response by the client that a pending request was forwarded to settles it: its asker is sent just that status
      and payload, under the number it asked with, unless it cannot be reached. */
  lemma ResponseTaken(events: seq<Event>, k: nat)
    requires IsRun(events) && Processes(events, k) && TaskAt(events, k).Message? && TaskAt(events, k).msg.content.Rsp?
    requires var m := TaskAt(events, k).msg.content.reqId;
             m in Before(events, k).pending && Before(events, k).pending[m].responder == TaskAt(events, k).client
    ensures var task := TaskAt(events, k);
            var x := task.msg.content;
            SettledBy(Before(events, k), Before(events, k + 1), task.client, x.reqId, x.status, x.payload,
                      events[k].env)
  {
    StepOf(events, k);
    hide IsRun, StateAfter, Processes, ProcessTask, SettledBy, Inv;
    ResponseTaskStep(Before(events, k), TaskAt(events, k), events[k].env);
  }

  /** The timeout of a pending request settles it in the server's own name, with an empty payload. */
  lemma TimeoutTaken(events: seq<Event>, k: nat)
    requires IsRun(events) && Processes(events, k) && TaskAt(events, k).RequestTimeout?
    requires TaskAt(events, k).reqId in Before(events, k).pending
    ensures SettledBy(Before(events, k), Before(events, k + 1), 0, TaskAt(events, k).reqId, Timeout, [], events[k].env)
  {
    StepOf(events, k);
    hide IsRun, StateAfter, Processes, ProcessTask, SettledBy, Inv;
    TimeoutTaskStep(Before(events, k), TaskAt(events, k).reqId, events[k].env);
  }

  lemma TimeoutTaskStep(s: Core, m: MsgId, env: Env)
    requires m in s.pending
    ensures SettledBy(s, ProcessTask(s, RequestTimeout(m), env).0, 0, m, Timeout, [], env)
  {
    hide SettledBy, Respond;
    SettledStep(s, RequestTimeout(m), 0, m, Timeout, [], env);
  }

  // ---------- What the Acks report ----------

  /** The Ack at place `i` of `c`'s channel. */
  function ErrorAt(events: seq<Event>, c: ClientId, i: nat): Option<BusError>
    requires i < |StateAfter(events).core.Channel(c)| && StateAfter(events).core.Channel(c)[i].content.Ack?
  {
    StateAfter(events).core.Channel(c)[i].content.err
  }

  lemma NewAck(s: Core, c: ClientId, msg: ClientMsg, env: Env, i: nat)
    requires var s' := ProcessTask(s, Message(c, msg), env).0; IsNew(s, s', c, i) && s'.Channel(c)[i].content.Ack?
    ensures var ack := BeforeAck(Handling(s, Message(c, msg)), c, msg, env).1;
            ack.Some? && ack.value.Ack? && ProcessTask(s, Message(c, msg), env).0.Channel(c)[i].content == ack.value
  {
    hide PublishTo, Deliver, ProcessMsg, Caused, BeforeAck;
    var s0 := Handling(s, Message(c, msg));
    AckComesLast(s0, c, msg, env);
    BeforeAckAdds(s0, c, msg, env);
    var (s1, ack) := BeforeAck(s0, c, msg, env);
    SameView(s, Message(c, msg));
    assert i < |s1.Channel(c)| ==> IsNew(s0, s1, c, i);
    if ack.Some? { DeliverShape(s1, c, ack.value, env); }
  }

  lemma AckIs(events: seq<Event>, k: nat, c: ClientId, i: nat)
    requires IsRun(events) && Acknowledges(events, k, c, i)
    ensures Processes(events, k) && TaskAt(events, k) == Message(c, TaskAt(events, k).msg) && c != 0
    ensures var s0 := Handling(Before(events, k), TaskAt(events, k));
            var ack := BeforeAck(s0, c, TaskAt(events, k).msg, events[k].env).1;
            ack.Some? && ack.value.Ack? && ErrorAt(events, c, i) == ack.value.err
    ensures Inv(Before(events, k), {})
  {
    CauseOf(events, k, c, i);
    StepOf(events, k);
    hide IsRun, StateAfter, Caused, BeforeAck, ProcessTask, Inv;
    NewAck(Before(events, k), c, TaskAt(events, k).msg, events[k].env, i);
  }

  /** A request is acknowledged without an error exactly when it was taken, that is, when its topic has an owner that
      can be reached; the error says which of the two failed, and how. */
  lemma AckOfRequest(events: seq<Event>, k: nat, c: ClientId, i: nat)
    requires IsRun(events) && Acknowledges(events, k, c, i) && TaskAt(events, k).msg.content.Req?
    ensures var s, s', task := Before(events, k), Before(events, k + 1), TaskAt(events, k);
            var owner, err := s.dir.Owner(Segments(task.msg.content.topic)), ErrorAt(events, c, i);
            && (err == None <==> exists m :: m in s'.accepted && m !in s.accepted)
            && (err == None <==> owner.Some? && CanReach(s, owner.value, 0, events[k].env))
            && (err == None ==> Taken(s, s', |s.processed|, c, task.msg, owner.value))
            && (err.Some? ==> err.value == if owner.None? then ServiceNotFound(task.msg.content.topic)
                                           else if owner.value in s.senders then DeliveryFailed(owner.value)
                                           else UnknownClient(owner.value))
  {
    AckIs(events, k, c, i);
    RequestTaken(events, k);
    var s, task := Before(events, k), TaskAt(events, k);
    RequestStep(Handling(s, task), c, task.msg, events[k].env);
    SameView(s, task);
    FreshId(s, {});
    hide IsRun, StateAfter, Acknowledges, Handle, CanReach, Gained, Inv, Segments;
    if ErrorAt(events, c, i) == None { assert s.nextMsgId in Before(events, k + 1).accepted; }
  }

  /** A response is acknowledged without an error exactly when it settled a request that was pending with its author as
      responder, and reached the asker. */
  lemma AckOfResponse(events: seq<Event>, k: nat, c: ClientId, i: nat)
    requires IsRun(events) && Acknowledges(events, k, c, i) && TaskAt(events, k).msg.content.Rsp?
    ensures var s, s', x := Before(events, k), Before(events, k + 1), TaskAt(events, k).msg.content;
            var err, mine := ErrorAt(events, c, i), x.reqId in s.pending && s.pending[x.reqId].responder == c;
            && (err == Some(InvalidRequestId) <==> !mine)
            && (err == None <==> mine && CanReach(s, s.pending[x.reqId].requester, 0, events[k].env))
            && (err == None ==>
                  PassedOn(s, s', |s.processed|, c, x.reqId, x.status, x.payload) && x.reqId !in s'.pending)
            && (mine && err.Some? ==>
                  var asker := s.pending[x.reqId].requester;
                  err.value == if asker in s.senders then DeliveryFailed(asker) else UnknownClient(asker))
  {
    AckIs(events, k, c, i);
    var s, task := Before(events, k), TaskAt(events, k);
    var x := task.msg.content;
    RespondStep(Handling(s, task), c, x.reqId, x.status, x.payload, events[k].env);
    SameView(s, task);
    if x.reqId in s.pending && s.pending[x.reqId].responder == c { ResponseTaken(events, k); }
    hide IsRun, StateAfter, Acknowledges, Respond, CanReach, PassedOn, Inv;
  }

  /** A claim is acknowledged without an error exactly when the topic has no wildcard and no other owner. */
  lemma AckOfClaim(events: seq<Event>, k: nat, c: ClientId, i: nat)
    requires IsRun(events) && Acknowledges(events, k, c, i) && TaskAt(events, k).msg.content.Srv?
    ensures var p, err := Segments(TaskAt(events, k).msg.content.topic), ErrorAt(events, c, i);
            var owner := Before(events, k).dir.Owner(p);
            && (err == None <==> Concrete(p) && (owner == None || owner == Some(c)))
            && (err.Some? ==> err.value == Refused(if Concrete(p) then TopicAlreadyClaimed
                                                   else ClaimWildcardNotSupported))
  {
    AckIs(events, k, c, i);
    hide IsRun, StateAfter, Acknowledges, Inv, Segments;
  }

  /** No other message but a publication is ever refused, save giving up a topic with a wildcard. */
  lemma AckOfTheRest(events: seq<Event>, k: nat, c: ClientId, i: nat)
    requires IsRun(events) && Acknowledges(events, k, c, i)
    requires var x := TaskAt(events, k).msg.content; !x.Req? && !x.Rsp? && !x.Srv? && !x.Pub?
    ensures var x, err := TaskAt(events, k).msg.content, ErrorAt(events, c, i);
            err.Some? ==> x.Unsrv? && !Concrete(Segments(x.topic)) && err.value == Refused(ClaimWildcardNotSupported)
  {
    AckIs(events, k, c, i);
    hide IsRun, StateAfter, Acknowledges, Inv, Segments;
  }

  /** A publication is acknowledged without an error exactly when everybody in the order of the visit could be reached;
      otherwise the error names the first who could not, and everybody before was sent a copy. */
  lemma AckOfPublication(events: seq<Event>, k: nat, c: ClientId, i: nat) returns (n: nat)
    requires IsRun(events) && Acknowledges(events, k, c, i) && TaskAt(events, k).msg.content.Pub?
    ensures var s, order, env, err := Before(events, k), events[k].env.order, events[k].env, ErrorAt(events, c, i);
            && n <= |order| && (forall j: nat | j < n :: CanReach(s, order[j], j, env))
            && (err == None <==> n == |order|)
            && (err.Some? ==> n < |order| && !CanReach(s, order[n], n, env)
                              && err.value == if order[n] in s.senders then DeliveryFailed(order[n])
                                              else UnknownClient(order[n]))
  {
    AckIs(events, k, c, i);
    OrderListed(events, k);
    var s, task := Before(events, k), TaskAt(events, k);
    var x := task.msg.content;
    n := FanOut(Handling(s, task), events[k].env.order, ProtocolServer.Pub(x.topic, x.payload), events[k].env);
    SameView(s, task);
    hide IsRun, StateAfter, Acknowledges, PublishTo, CanReach, OneCopy, Inv;
  }
}
