/** From a user of one client to the users of others: what a client is asked to do is what the server does, and what
    callbacks are told is what somebody asked for. */
module EndToEnd {
  import opened Common
  import opened Matching
  import opened Tries
  import opened Topics
  import opened Protocol
  import opened ServerSpec
  import opened ServerInvariants
  import opened Systems
  import opened ServerTheorems
  import opened ServerPromises
  import opened Origins
  import opened Bookkeeping
  import opened Answers
  import C = ClientSpec
  import Comp = Composition

  type History = seq<Comp.WorldEvent>

  // ---------- Along a history ----------

  lemma HistoryUpTo(events: History, n: nat)
    requires Comp.IsHistory(events) && n < |events|
    ensures Comp.IsHistory(events[..n]) && Comp.IsHistory(events[..n + 1])
    ensures Comp.CanHappen(Comp.WorldAfter(events[..n]), events[n])
    ensures Comp.WorldAfter(events[..n + 1]) == Comp.Happen(Comp.WorldAfter(events[..n]), events[n])
    decreases |events|
  {
    hide Comp.CanHappen, Comp.Happen;
    var before := events[..|events| - 1];
    if n == |events| - 1 {
      assert events[..n + 1] == events;
    } else {
      HistoryUpTo(before, n);
      assert before[..n] == events[..n] && before[..n + 1] == events[..n + 1];
    }
  }

  /** The server's side of a history, as a run. */
  function RunOf(events: History): seq<Event> {
    if events == [] then []
    else
      var before := events[..|events| - 1];
      RunOf(before) + Comp.ServerSide(Comp.WorldAfter(before), events[|events| - 1])
  }

  lemma {:induction false} RunOfHistory(events: History)
    requires Comp.IsHistory(events)
    ensures IsRun(RunOf(events)) && StateAfter(RunOf(events)) == Comp.WorldAfter(events).sys
    decreases |events|
  {
    hide Comp.CanHappen, Comp.Happen, Apply, Enabled, Comp.ServerSide;
    if events != [] {
      var before, e := events[..|events| - 1], events[|events| - 1];
      RunOfHistory(before);
      Comp.ServerFollows(Comp.WorldAfter(before), e);
      var side := Comp.ServerSide(Comp.WorldAfter(before), e);
      if side == [] {
        assert RunOf(before) + [] == RunOf(before);
      } else {
        Continues(RunOf(before), side[0]);
        assert side == [side[0]];
      }
    }
  }

  /** The server core before event `n` of the history. */
  function CoreAt(events: History, n: nat): Core
    requires n <= |events|
  {
    Comp.WorldAfter(events[..n]).sys.core
  }

  /** Event `k` of the history made the server process `task`. */
  ghost predicate ServerProcesses(events: History, k: nat, task: Task) {
    && k < |events| && events[k].Server? && events[k].event.Process?
    && var y := Comp.WorldAfter(events[..k]).sys; y.queue != [] && y.queue[0] == task
  }

  /** Then it is the last event of a run. */
  lemma AsLastEvent(events: History, k: nat, task: Task) returns (run: seq<Event>, r: nat)
    requires Comp.IsHistory(events) && ServerProcesses(events, k, task)
    ensures IsRun(run) && |run| == r + 1 && Processes(run, r) && TaskAt(run, r) == task && run[r] == events[k].event
    ensures Before(run, r) == CoreAt(events, k) && Before(run, r + 1) == CoreAt(events, k + 1)
    ensures StateAfter(run).core == CoreAt(events, k + 1)
  {
    hide Comp.CanHappen, Comp.Happen, Apply, Enabled, Comp.IsHistory, Comp.WorldAfter, IsRun, StateAfter;
    HistoryUpTo(events, k);
    RunOfHistory(events[..k]);
    RunOfHistory(events[..k + 1]);
    assert events[..k + 1][..k] == events[..k] && events[..k + 1][k] == events[k];
    run, r := RunOf(events[..k + 1]), |RunOf(events[..k])|;
    assert run == RunOf(events[..k]) + [events[k].event];
    assert run[..r] == RunOf(events[..k]) && run[..r + 1] == run;
  }

  // ---------- What users ask of their clients ----------

  /** Event `a` is `c`'s client core carrying out `task`, and it did not fail. */
  ghost predicate ActsAt(events: History, a: nat, c: ClientId, task: C.ClientTask) {
    && a < |events| && events[a].Act? && events[a].client == c && events[a].task == task
    && c in Comp.WorldAfter(events[..a + 1]).ends && Comp.WorldAfter(events[..a + 1]).ends[c].fate.Living?
  }

  /** Event `a` made `c`'s client core send `x`, and nothing else. */
  ghost predicate SendsAt(events: History, a: nat, c: ClientId, x: ClientMsg) {
    && a < |events| && c in Comp.WorldAfter(events[..a]).ends && c in Comp.WorldAfter(events[..a + 1]).ends
    && Comp.WorldAfter(events[..a + 1]).ends[c].up == Comp.WorldAfter(events[..a]).ends[c].up + [x]
  }

  /** What a client sends is what its user asked for. */
  lemma SaysWhatIsAsked(events: History, a: nat, c: ClientId, task: C.ClientTask) returns (x: ClientMsg)
    requires Comp.IsHistory(events) && ActsAt(events, a, c, task)
    ensures SendsAt(events, a, c, x)
    ensures task.TaskPub? ==> x.content == ProtocolClient.Pub(task.topic, task.payload)
    ensures task.TaskSub? ==> x.content == ProtocolClient.Sub(task.topic)
    ensures task.TaskReq? ==> x.content == ProtocolClient.Req(task.topic, task.payload)
    ensures task.TaskRsp? ==> x.content == ProtocolClient.Rsp(task.reqId, task.status, task.payload)
    ensures task.TaskSrv? ==> x.content == ProtocolClient.Srv(task.topic)
    ensures task.TaskUnsub? ==> x.content == ProtocolClient.Unsub(task.topic)
    ensures task.TaskUnsrv? ==> x.content == ProtocolClient.Unsrv(task.topic)
    ensures task.TaskStopBus? ==> x.content.Stop?
    ensures task.TaskKeepAlive? ==> x.content.KeepAlive?
  {
    hide Comp.IsHistory, Comp.WorldAfter;
    HistoryUpTo(events, a);
    var w := Comp.WorldAfter(events[..a]);
    x := OneMessage(w.ends[c].client, task, events[a].lost);
    hide C.Send;
  }

  lemma OneMessage(s: C.Client, task: C.ClientTask, lost: set<MsgId>) returns (x: ClientMsg)
    requires C.Send(s, task, lost).1 == C.Alive
    ensures C.Send(s, task, lost).2 == [x]
    ensures task.TaskPub? ==> x.content == ProtocolClient.Pub(task.topic, task.payload)
    ensures task.TaskSub? ==> x.content == ProtocolClient.Sub(task.topic)
    ensures task.TaskReq? ==> x.content == ProtocolClient.Req(task.topic, task.payload)
    ensures task.TaskRsp? ==> x.content == ProtocolClient.Rsp(task.reqId, task.status, task.payload)
    ensures task.TaskSrv? ==> x.content == ProtocolClient.Srv(task.topic)
    ensures task.TaskUnsub? ==> x.content == ProtocolClient.Unsub(task.topic)
    ensures task.TaskUnsrv? ==> x.content == ProtocolClient.Unsrv(task.topic)
    ensures task.TaskStopBus? ==> x.content.Stop?
    ensures task.TaskKeepAlive? ==> x.content.KeepAlive?
  {
    x := C.Send(s, task, lost).2[0];
  }

  /** The user of `c` asked for `task` in event `a`, and the server processed the resulting message in event `k`. */
  ghost predicate Carried(events: History, a: nat, k: nat, c: ClientId, task: C.ClientTask) {
    && ActsAt(events, a, c, task)
    && exists x :: SendsAt(events, a, c, x) && ServerProcesses(events, k, Message(c, x))
  }

  lemma SendsOne(events: History, a: nat, c: ClientId, x: ClientMsg, y: ClientMsg)
    requires SendsAt(events, a, c, x) && SendsAt(events, a, c, y)
    ensures x == y
  {
    var up := Comp.WorldAfter(events[..a]).ends[c].up;
    assert (up + [x])[|up|] == x && (up + [y])[|up|] == y;
  }

  /** The carried message, as the last event of a run. */
  lemma CarriedAs(events: History, a: nat, k: nat, c: ClientId, task: C.ClientTask)
    returns (run: seq<Event>, r: nat, x: ClientMsg)
    requires Comp.IsHistory(events) && Carried(events, a, k, c, task)
    ensures IsRun(run) && |run| == r + 1 && Processes(run, r) && TaskAt(run, r) == Message(c, x)
            && run[r] == events[k].event
    ensures Before(run, r) == CoreAt(events, k) && Before(run, r + 1) == CoreAt(events, k + 1)
    ensures StateAfter(run).core == CoreAt(events, k + 1)
    ensures SendsAt(events, a, c, x)
    ensures task.TaskPub? ==> x.content == ProtocolClient.Pub(task.topic, task.payload)
    ensures task.TaskSub? ==> x.content == ProtocolClient.Sub(task.topic)
    ensures task.TaskReq? ==> x.content == ProtocolClient.Req(task.topic, task.payload)
    ensures task.TaskRsp? ==> x.content == ProtocolClient.Rsp(task.reqId, task.status, task.payload)
    ensures task.TaskSrv? ==> x.content == ProtocolClient.Srv(task.topic)
    ensures task.TaskUnsub? ==> x.content == ProtocolClient.Unsub(task.topic)
    ensures task.TaskUnsrv? ==> x.content == ProtocolClient.Unsrv(task.topic)
    ensures task.TaskStopBus? ==> x.content.Stop?
    ensures task.TaskKeepAlive? ==> x.content.KeepAlive?
  {
    hide Comp.IsHistory, Comp.WorldAfter, ActsAt, SendsAt, ServerProcesses, IsRun, StateAfter, CoreAt;
    x :| SendsAt(events, a, c, x) && ServerProcesses(events, k, Message(c, x));
    var y := SaysWhatIsAsked(events, a, c, task);
    SendsOne(events, a, c, x, y);
    run, r := AsLastEvent(events, k, Message(c, x));
  }

  // ---------- Subscriptions and services ----------

  /** A user's subscription arrives: the server holds it, if the client is still registered. */
  lemma SubArrives(events: History, a: nat, k: nat, c: ClientId, topic: Topic)
    requires Comp.IsHistory(events) && Carried(events, a, k, c, C.TaskSub(topic))
    ensures c in CoreAt(events, k + 1).senders ==> (c, Segments(topic)) in CoreAt(events, k + 1).dir.subs
  {
    hide Comp.IsHistory, Comp.WorldAfter, Carried, IsRun, StateAfter, CoreAt, Segments;
    var run, r, x := CarriedAs(events, a, k, c, C.TaskSub(topic));
    BooksOf(run, r);
    hide Processes;
  }

  /** And so does its end. */
  lemma UnsubArrives(events: History, a: nat, k: nat, c: ClientId, topic: Topic)
    requires Comp.IsHistory(events) && Carried(events, a, k, c, C.TaskUnsub(topic))
    ensures (c, Segments(topic)) !in CoreAt(events, k + 1).dir.subs
  {
    hide Comp.IsHistory, Comp.WorldAfter, Carried, IsRun, StateAfter, CoreAt, Segments;
    var run, r, x := CarriedAs(events, a, k, c, C.TaskUnsub(topic));
    BooksOf(run, r);
    hide Processes;
  }

  /** A user's service arrives: if the topic is free, it is the client's, unless that very event removed the client. */
  lemma SrvArrives(events: History, a: nat, k: nat, c: ClientId, topic: Topic)
    requires Comp.IsHistory(events) && Carried(events, a, k, c, C.TaskSrv(topic)) && Concrete(Segments(topic))
    requires CoreAt(events, k).dir.Owner(Segments(topic)) == None
    requires c in CoreAt(events, k).senders ==> c in CoreAt(events, k + 1).senders
    ensures CoreAt(events, k + 1).dir.Owner(Segments(topic)) == Some(c)
  {
    hide Comp.IsHistory, Comp.WorldAfter, Carried, IsRun, StateAfter, CoreAt, Segments;
    var run, r, x := CarriedAs(events, a, k, c, C.TaskSrv(topic));
    OwnerAfter(run, r, Segments(topic));
    hide Processes;
  }

  /** And so does its end: nobody owns the topic then. */
  lemma UnsrvArrives(events: History, a: nat, k: nat, c: ClientId, topic: Topic)
    requires Comp.IsHistory(events) && Carried(events, a, k, c, C.TaskUnsrv(topic))
    requires CoreAt(events, k).dir.Owner(Segments(topic)) == Some(c)
    ensures CoreAt(events, k + 1).dir.Owner(Segments(topic)) == None
  {
    hide Comp.IsHistory, Comp.WorldAfter, Carried, IsRun, StateAfter, CoreAt, Segments;
    var run, r, x := CarriedAs(events, a, k, c, C.TaskUnsrv(topic));
    OwnerAfter(run, r, Segments(topic));
    hide Processes;
  }

  // ---------- Requests and responses ----------

  /** A user's question arrives: if the topic has an owner that can be reached, that owner's next message is just this
      topic and payload, and the server remembers who asked under which number. */
  lemma ReqArrives(events: History, a: nat, k: nat, c: ClientId, topic: Topic, payload: Payload, owner: ClientId)
    requires Comp.IsHistory(events) && Carried(events, a, k, c, C.TaskReq(topic, payload))
    requires CoreAt(events, k).dir.Owner(Segments(topic)) == Some(owner)
    requires CanReach(CoreAt(events, k), owner, 0, events[k].event.env)
    ensures var s, s' := CoreAt(events, k), CoreAt(events, k + 1);
            && Gained(s, s', owner, Msg(s.nextMsgId, ProtocolServer.Req(topic, payload)))
            && s.nextMsgId in s'.accepted
            && s'.accepted[s.nextMsgId].requester == c && s'.accepted[s.nextMsgId].responder == owner
            && exists x :: SendsAt(events, a, c, x) && s'.accepted[s.nextMsgId].requestId == x.id
  {
    hide Comp.IsHistory, Comp.WorldAfter, Carried, IsRun, StateAfter, CoreAt, Segments, SendsAt, Gained, CanReach;
    var run, r, x := CarriedAs(events, a, k, c, C.TaskReq(topic, payload));
    RequestTaken(run, r);
    hide Processes;
  }

  /** A service's answer arrives: if the request is pending with this client as responder, and its asker can be reached,
      the asker's next message is just this status and payload, under the number it asked with. */
  lemma RspArrives(events: History, a: nat, k: nat, c: ClientId, m: MsgId, status: RspStatus, payload: Payload)
    requires Comp.IsHistory(events) && Carried(events, a, k, c, C.TaskRsp(m, status, payload))
    requires m in CoreAt(events, k).pending && CoreAt(events, k).pending[m].responder == c
    requires CanReach(CoreAt(events, k), CoreAt(events, k).pending[m].requester, 0, events[k].event.env)
    ensures var s, s' := CoreAt(events, k), CoreAt(events, k + 1);
            var asker := s.pending[m];
            && m !in s'.pending
            && Gained(s, s', asker.requester, Msg(s.nextMsgId, ProtocolServer.Rsp(asker.requestId, status, payload)))
  {
    hide Comp.IsHistory, Comp.WorldAfter, Carried, IsRun, StateAfter, CoreAt, Gained, CanReach;
    var run, r, x := CarriedAs(events, a, k, c, C.TaskRsp(m, status, payload));
    ResponseTaken(run, r);
    hide Processes;
  }

  // ---------- Publications ----------

  /** A user's publication arrives: if it is acknowledged without an error, then each client with a matching
      subscription was sent just this topic and payload, nobody was sent anything else, and the Ack says how many
      they were. */
  lemma PubArrives(events: History, a: nat, k: nat, c: ClientId, topic: Topic, payload: Payload, i: nat)
    requires Comp.IsHistory(events) && Carried(events, a, k, c, C.TaskPub(topic, payload))
    requires var s, s' := CoreAt(events, k), CoreAt(events, k + 1);
             IsNew(s, s', c, i) && s'.Channel(c)[i].content.Ack? && s'.Channel(c)[i].content.err.None?
    ensures var s, s' := CoreAt(events, k), CoreAt(events, k + 1);
            var matching := s.dir.Subscribers(Segments(topic));
            && s'.Channel(c)[i].content.recipients == Some(|matching|)
            && (forall d | d in matching ::
                  && |s.Channel(d)| < |s'.Channel(d)|
                  && s'.Channel(d)[|s.Channel(d)|].content == ProtocolServer.Pub(topic, payload))
            && (forall d: ClientId, j: nat | IsNew(s, s', d, j) && !s'.Channel(d)[j].content.Ack? ::
                  d in matching && j == |s.Channel(d)|)
  {
    hide Comp.IsHistory, Comp.WorldAfter, Carried, IsRun, StateAfter, CoreAt, Segments;
    var run, r, x := CarriedAs(events, a, k, c, C.TaskPub(topic, payload));
    assert run[..r + 1] == run;
    AckFrom(run, r, c, i);
    var s1 := AcknowledgedMeansSent(run, r, c, i);
    SentThenAcked(Before(run, r), s1, c, x.id, topic, payload, run[r].env);
    hide Processes, Acknowledge;
  }

  lemma SentThenAcked(s: Core, s1: Core, c: ClientId, id: MsgId, topic: Topic, payload: Payload, env: Env)
    requires forall d: ClientId :: OneCopy(s, s1, d, ProtocolServer.Pub(topic, payload),
                                           d in s.dir.Subscribers(Segments(topic)))
    ensures var matching := s.dir.Subscribers(Segments(topic));
            var s' := Acknowledge(s1, c, id, None, Some(|matching|), env);
            && (forall d | d in matching ::
                  && |s.Channel(d)| < |s'.Channel(d)|
                  && s'.Channel(d)[|s.Channel(d)|].content == ProtocolServer.Pub(topic, payload))
            && (forall d: ClientId, j: nat | IsNew(s, s', d, j) && !s'.Channel(d)[j].content.Ack? ::
                  d in matching && j == |s.Channel(d)|)
  {
    var matching := s.dir.Subscribers(Segments(topic));
    var ack := ProtocolServer.Ack(id, None, Some(|matching|));
    DeliverShape(s1, c, ack, env);
    hide Deliver, Segments;
    forall d: ClientId
      ensures OneCopy(s, s1, d, ProtocolServer.Pub(topic, payload), d in matching)
      ensures s1.Channel(d) <= Deliver(s1, c, ack, env).0.Channel(d)
    {}
  }

  /** A user's order to stop the bus arrives: the server stops. */
  lemma StopArrives(events: History, a: nat, k: nat, c: ClientId)
    requires Comp.IsHistory(events) && Carried(events, a, k, c, C.TaskStopBus)
    ensures Comp.WorldAfter(events[..k + 1]).sys.status == Stopped
  {
    hide Comp.IsHistory, SendsAt, ActsAt;
    var x :| SendsAt(events, a, c, x) && ServerProcesses(events, k, Message(c, x));
    var y := SaysWhatIsAsked(events, a, c, C.TaskStopBus);
    SendsOne(events, a, c, x, y);
    HistoryUpTo(events, k);
    hide Comp.WorldAfter;
    RunOfHistory(events[..k]);
    Reachable(RunOf(events[..k]));
    hide SystemInv, Enabled, Apply;
    StopsExactly(Comp.WorldAfter(events[..k]).sys, events[k].event.env);
  }

  // ---------- Where a client's messages come from ----------

  /** Every message that a client core sent is what its user asked for in some event, or unsubscribes from a topic
      because a publication has just found its last callback gone. */
  lemma {:induction false} SaidBecause(events: History, c: ClientId, u: nat) returns (a: nat)
    requires Comp.IsHistory(events) && c in Comp.WorldAfter(events).ends && u < |Comp.WorldAfter(events).ends[c].up|
    ensures a < |events| && (events[a].Act? || events[a].Get?) && events[a].client == c
    ensures var x := Comp.WorldAfter(events).ends[c].up[u];
            if events[a].Act? then ActsAt(events, a, c, events[a].task) && SendsAt(events, a, c, x)
            else x.content.Unsub?
    decreases |events|
  {
    assert events != [];
    hide Comp.IsHistory, Comp.WorldAfter, Comp.CanHappen, Comp.Happen;
    a := |events| - 1;
    var before := events[..a];
    assert events[..a + 1] == events;
    HistoryUpTo(events, a);
    var w := Comp.WorldAfter(before);
    if c in w.ends && u < |w.ends[c].up| {
      UpGrows(w, events[a], c);
      a := SaidBecause(before, c, u);
      assert before[..a] == events[..a] && before[..a + 1] == events[..a + 1];
    } else {
      NewlySaid(w, events[a], c, u);
    }
  }

  lemma UpGrows(w: Comp.World, e: Comp.WorldEvent, c: ClientId)
    requires Comp.CanHappen(w, e) && c in w.ends
    ensures c in Comp.Happen(w, e).ends && w.ends[c].up <= Comp.Happen(w, e).ends[c].up
  {
    hide Enabled, Apply, C.Send, C.AfterReceive, C.Possible;
  }

  lemma NewlySaid(w: Comp.World, e: Comp.WorldEvent, c: ClientId, u: nat)
    requires Comp.CanHappen(w, e) && c in Comp.Happen(w, e).ends && u < |Comp.Happen(w, e).ends[c].up|
    requires c in w.ends ==> u >= |w.ends[c].up|
    ensures (e.Act? || e.Get?) && e.client == c && c in w.ends
    ensures var end, end' := w.ends[c], Comp.Happen(w, e).ends[c];
            if e.Act? then end'.fate.Living? && end'.up == end.up + [end'.up[u]] else end'.up[u].content.Unsub?
  {
    hide Enabled, Apply, C.BeforeSend, C.AfterReceive, C.Possible;
    if e.Act? && e.client == c {
      SendsAtMostOne(w.ends[c].client, e.task, e.lost);
    }
    if e.Get? && e.client == c {
      ReceiveSaysUnsub(w.ends[c].client, Comp.Inbox(w, c)[w.ends[c].got], e.choices);
    }
  }

  lemma SendsAtMostOne(s: C.Client, task: C.ClientTask, lost: set<MsgId>)
    ensures var (s', ending, out) := C.Send(s, task, lost); if ending == C.Alive then |out| == 1 else out == []
  {}

  ghost predicate AllUnsubs(out: seq<ClientMsg>) {
    forall i | 0 <= i < |out| :: out[i].content.Unsub?
  }

  lemma {:induction false} UnsubscribeSaysUnsub(s: C.Client, topics: seq<Topic>, lost: set<MsgId>)
    ensures AllUnsubs(C.Unsubscribe(s, topics, lost).2)
    decreases |topics|
  {
    if topics != [] { UnsubscribeSaysUnsub(C.Send(s, C.TaskUnsub(topics[0]), lost).0, topics[1..], lost); }
  }

  lemma TurnSaysUnsub(s: C.Client, id: MsgId, topic: Topic, payload: Payload, ch: C.Choices)
    ensures AllUnsubs(C.CallOne(s, id, topic, payload, ch).2)
  {
    if id in ch.dead {
      UnsubscribeSaysUnsub(s.(pubs := s.pubs - {id}, dir := s.dir.DropClient(id)), C.Listed(ch, id), ch.lost);
    }
  }

  lemma {:induction false} VisitSaysUnsub(s: C.Client, ids: seq<MsgId>, topic: Topic, payload: Payload, ch: C.Choices)
    ensures AllUnsubs(C.CallAll(s, ids, topic, payload, ch).2)
    decreases |ids|
  {
    hide C.CallOne;
    if ids != [] && ids[0] in s.pubs {
      TurnSaysUnsub(s, ids[0], topic, payload, ch);
      VisitSaysUnsub(C.CallOne(s, ids[0], topic, payload, ch).0, ids[1..], topic, payload, ch);
    }
  }

  lemma ReceiveSaysUnsub(s: C.Client, msg: ServerMsg, ch: C.Choices)
    ensures AllUnsubs(C.AfterReceive(s, msg, ch).2)
  {
    if msg.content.Pub? { VisitSaysUnsub(s, ch.order, msg.content.topic, msg.content.payload, ch); }
    hide C.CallAll, Segments;
  }

  /** The user's wish behind a message: what was said is what was asked for. */
  lemma AskedFor(events: History, a: nat, c: ClientId, x: ClientMsg)
    requires Comp.IsHistory(events) && a < |events| && events[a].Act? && ActsAt(events, a, c, events[a].task)
    requires SendsAt(events, a, c, x)
    ensures x.content.Req? ==> events[a].task == C.TaskReq(x.content.topic, x.content.payload)
    ensures x.content.Pub? ==> events[a].task == C.TaskPub(x.content.topic, x.content.payload)
    ensures x.content.Rsp? ==> events[a].task == C.TaskRsp(x.content.reqId, x.content.status, x.content.payload)
  {
    var y := SaysWhatIsAsked(events, a, c, events[a].task);
    SendsOne(events, a, c, x, y);
    NeverStops(events, a, c);
    hide Comp.IsHistory, Comp.WorldAfter, ActsAt, SendsAt;
  }

  lemma NeverStops(events: History, a: nat, c: ClientId)
    requires Comp.IsHistory(events) && a < |events| && events[a].Act?
    ensures !events[a].task.TaskStop?
  {
    HistoryUpTo(events, a);
    hide Comp.IsHistory, Comp.WorldAfter;
  }

  /** Whatever the server processed for an attached client, other than an Unsub, was asked for by that client's user. */
  lemma ProcessedBecause(events: History, c: ClientId, p: nat) returns (a: nat)
    requires Comp.IsHistory(events) && c in Comp.WorldAfter(events).ends
    requires var done := Comp.WorldAfter(events).sys.core.processed;
             p < |done| && done[p].Message? && done[p].client == c && !done[p].msg.content.Unsub?
    ensures var x := Comp.WorldAfter(events).sys.core.processed[p].msg;
            && a < |events| && events[a].Act? && ActsAt(events, a, c, events[a].task) && SendsAt(events, a, c, x)
            && (x.content.Req? ==> events[a].task == C.TaskReq(x.content.topic, x.content.payload))
            && (x.content.Pub? ==> events[a].task == C.TaskPub(x.content.topic, x.content.payload))
            && (x.content.Rsp? ==> events[a].task == C.TaskRsp(x.content.reqId, x.content.status, x.content.payload))
  {
    Comp.Worlds(events);
    hide Comp.IsHistory, Comp.WorldAfter, Comp.WorldInv, ActsAt, SendsAt;
    var w := Comp.WorldAfter(events);
    var x := w.sys.core.processed[p].msg;
    Comp.OwnMessage(w, c, p);
    var u: nat :| u < |w.ends[c].up| && w.ends[c].up[u] == x;
    a := SaidBecause(events, c, u);
    AskedFor(events, a, c, x);
  }

  // ---------- What callbacks are told ----------

  /** The call hands over what the message says. */
  predicate Tells(msg: ServerMsg, call: C.Call) {
    match call
    case CallAck(id, err, recipients) => msg.content == ProtocolServer.Ack(id, err, recipients)
    case CallRsp(id, status, payload) => msg.content == ProtocolServer.Rsp(id, status, payload)
    case CallPub(_, topic, payload) => msg.content == ProtocolServer.Pub(topic, payload)
    case CallReq(_, reqId, topic, payload) => msg == Msg(reqId, ProtocolServer.Req(topic, payload))
  }

  /** From `was` to `now` some callbacks were told what `msg` says. */
  ghost predicate Told(was: seq<C.Call>, now: seq<C.Call>, msg: ServerMsg) {
    was <= now && forall j | |was| <= j < |now| :: Tells(msg, now[j])
  }

  lemma {:induction false} VisitTells(s: C.Client, ids: seq<MsgId>, msg: ServerMsg, ch: C.Choices)
    requires msg.content.Pub?
    ensures Told(s.calls, C.CallAll(s, ids, msg.content.topic, msg.content.payload, ch).0.calls, msg)
    decreases |ids|
  {
    var topic, payload := msg.content.topic, msg.content.payload;
    if ids != [] && ids[0] in s.pubs {
      if ids[0] in ch.dead {
        CallsKept(s.(pubs := s.pubs - {ids[0]}, dir := s.dir.DropClient(ids[0])), C.Listed(ch, ids[0]), ch.lost);
      }
      VisitTells(C.CallOne(s, ids[0], topic, payload, ch).0, ids[1..], msg, ch);
    }
  }

  lemma {:induction false} CallsKept(s: C.Client, topics: seq<Topic>, lost: set<MsgId>)
    ensures C.Unsubscribe(s, topics, lost).0.calls == s.calls
    decreases |topics|
  {
    if topics != [] { CallsKept(C.Send(s, C.TaskUnsub(topics[0]), lost).0, topics[1..], lost); }
  }

  lemma ReceiveTells(s: C.Client, msg: ServerMsg, ch: C.Choices)
    ensures Told(s.calls, C.AfterReceive(s, msg, ch).0.calls, msg)
  {
    if msg.content.Pub? { VisitTells(s, ch.order, msg, ch); }
    hide C.CallAll, Segments;
  }

  lemma SendTells(s: C.Client, task: C.ClientTask, lost: set<MsgId>)
    ensures C.Send(s, task, lost).0.calls == s.calls
  {}

  /** Every call of a client core hands over what a message in its channel says. */
  lemma {:induction false} CallTold(events: History, c: ClientId, j: nat) returns (g: nat)
    requires Comp.IsHistory(events) && c in Comp.WorldAfter(events).ends
    requires j < |Comp.WorldAfter(events).ends[c].client.calls|
    ensures var w := Comp.WorldAfter(events);
            g < |Comp.Inbox(w, c)| && Tells(Comp.Inbox(w, c)[g], w.ends[c].client.calls[j])
    decreases |events|
  {
    assert events != [];
    hide Comp.IsHistory, Comp.WorldAfter, Comp.CanHappen, Comp.Happen, Tells, Core.Channel;
    var k := |events| - 1;
    var before := events[..k];
    assert events[..k + 1] == events;
    HistoryUpTo(events, k);
    var w := Comp.WorldAfter(before);
    InboxKeeps(before, events, c);
    NewlyTold(w, events[k], c);
    if c in w.ends && j < |w.ends[c].client.calls| {
      g := CallTold(before, c, j);
    } else {
      g := w.ends[c].got;
    }
  }

  lemma NewlyTold(w: Comp.World, e: Comp.WorldEvent, c: ClientId)
    requires Comp.CanHappen(w, e) && c in Comp.Happen(w, e).ends
    ensures c !in w.ends ==> Comp.Happen(w, e).ends[c].client.calls == []
    ensures c in w.ends ==>
              var was, now := w.ends[c].client.calls, Comp.Happen(w, e).ends[c].client.calls;
              now == was || (w.ends[c].got < |Comp.Inbox(w, c)| && Told(was, now, Comp.Inbox(w, c)[w.ends[c].got]))
  {
    hide Enabled, Apply, C.Send, C.AfterReceive, C.Possible, Told;
    if e.Act? && e.client == c { SendTells(w.ends[c].client, e.task, e.lost); }
    if e.Get? && e.client == c { ReceiveTells(w.ends[c].client, Comp.Inbox(w, c)[w.ends[c].got], e.choices); }
  }

  lemma InboxKeeps(before: History, events: History, c: ClientId)
    requires Comp.IsHistory(events) && |events| == |before| + 1 && before == events[..|before|]
    ensures Comp.Inbox(Comp.WorldAfter(before), c) <= Comp.Inbox(Comp.WorldAfter(events), c)
  {
    hide Comp.IsHistory, Comp.WorldAfter, Comp.CanHappen, Comp.Happen, Apply, Enabled, SystemInv, IsRun, StateAfter;
    var k := |before|;
    assert events[..k + 1] == events;
    HistoryUpTo(events, k);
    RunOfHistory(before);
    Reachable(RunOf(before));
    var w := Comp.WorldAfter(before);
    Comp.ServerFollows(w, events[k]);
    var side := Comp.ServerSide(w, events[k]);
    if side != [] { EventExtends(w.sys, side[0]); }
  }

  // ---------- From user to user ----------

  /** The user of `c`, if `c` is a client core of this history, asked for `task`, and message `id` came of it. */
  ghost predicate Wished(events: History, c: ClientId, id: MsgId, task: C.ClientTask) {
    c in Comp.WorldAfter(events).ends ==>
      exists a, x :: ActsAt(events, a, c, task) && SendsAt(events, a, c, x) && x.id == id
  }

  lemma WishedFor(events: History, c: ClientId, p: nat, task: C.ClientTask)
    requires Comp.IsHistory(events)
    requires var done := Comp.WorldAfter(events).sys.core.processed;
             p < |done| && done[p].Message? && done[p].client == c
             && match task {
                  case TaskReq(topic, payload) => done[p].msg.content == ProtocolClient.Req(topic, payload)
                  case TaskPub(topic, payload) => done[p].msg.content == ProtocolClient.Pub(topic, payload)
                  case TaskRsp(m, status, payload) => done[p].msg.content == ProtocolClient.Rsp(m, status, payload)
                  case _ => false
                }
    ensures Wished(events, c, Comp.WorldAfter(events).sys.core.processed[p].msg.id, task)
  {
    hide Comp.IsHistory, Comp.WorldAfter, ActsAt, SendsAt;
    if c in Comp.WorldAfter(events).ends {
      var a := ProcessedBecause(events, c, p);
      var x := Comp.WorldAfter(events).sys.core.processed[p].msg;
      assert ActsAt(events, a, c, task) && SendsAt(events, a, c, x);
    }
  }

  /** The answer that a callback is told is the one that the service's user handed in, to the question that this
      callback's user asked, or the server's own empty timeout. */
  lemma AnswerTold(events: History, c: ClientId, j: nat) returns (m: MsgId)
    requires Comp.IsHistory(events) && c in Comp.WorldAfter(events).ends
    requires j < |Comp.WorldAfter(events).ends[c].client.calls|
             && Comp.WorldAfter(events).ends[c].client.calls[j].CallRsp?
    ensures var s, call := Comp.WorldAfter(events).sys.core, Comp.WorldAfter(events).ends[c].client.calls[j];
            && m in s.accepted && s.accepted[m].requester == c && s.accepted[m].requestId == call.id
            && Wished(events, c, call.id, C.TaskReq(s.accepted[m].topic, s.accepted[m].payload))
            && (|| (RequestTimeout(m) in s.processed && call.status == Timeout && call.payload == [])
                || exists id :: Wished(events, s.accepted[m].responder, id, C.TaskRsp(m, call.status, call.payload)))
  {
    hide Comp.IsHistory, Comp.WorldAfter, Wished, IsRun, StateAfter, Core.Channel;
    RunOfHistory(events);
    var g := CallTold(events, c, j);
    m := ResponseRouted(RunOf(events), c, g);
    var s := Comp.WorldAfter(events).sys.core;
    var a, o := s.accepted[m], s.outcome[m];
    WishedFor(events, c, a.at, C.TaskReq(a.topic, a.payload));
    if s.processed[o.at].Message? { WishedFor(events, a.responder, o.at, C.TaskRsp(m, o.status, o.payload)); }
  }

  /** The question that a service's callback is told is the one that somebody's user asked; its answer needs the number
      that comes with it. */
  lemma QuestionTold(events: History, d: ClientId, j: nat)
    requires Comp.IsHistory(events) && d in Comp.WorldAfter(events).ends
    requires j < |Comp.WorldAfter(events).ends[d].client.calls|
             && Comp.WorldAfter(events).ends[d].client.calls[j].CallReq?
    ensures var s, call := Comp.WorldAfter(events).sys.core, Comp.WorldAfter(events).ends[d].client.calls[j];
            && call.reqId in s.accepted && s.accepted[call.reqId].responder == d
            && var r := s.accepted[call.reqId];
               && r.topic == call.topic && r.payload == call.payload
               && Wished(events, r.requester, r.requestId, C.TaskReq(call.topic, call.payload))
  {
    hide Comp.IsHistory, Comp.WorldAfter, Wished, IsRun, StateAfter, Core.Channel;
    RunOfHistory(events);
    var g := CallTold(events, d, j);
    var k := RequestRouted(RunOf(events), d, g);
    InvAfter(RunOf(events));
    var s, call := Comp.WorldAfter(events).sys.core, Comp.WorldAfter(events).ends[d].client.calls[j];
    AskedIn(s, call.reqId);
    WishedFor(events, s.accepted[call.reqId].requester, s.accepted[call.reqId].at, C.TaskReq(call.topic, call.payload));
  }

  lemma AskedIn(s: Core, m: MsgId)
    requires Inv(s, {}) && m in s.accepted
    ensures var a := s.accepted[m];
            && 0 <= a.at < |s.processed|
            && s.processed[a.at] == Message(a.requester, Msg(a.requestId, ProtocolClient.Req(a.topic, a.payload)))
  {
    assert AcceptanceOk(s, m, s.accepted[m]);
  }

  /** The publication that a callback is told is one that somebody's user published. */
  lemma PublicationTold(events: History, d: ClientId, j: nat) returns (c: ClientId, id: MsgId)
    requires Comp.IsHistory(events) && d in Comp.WorldAfter(events).ends
    requires j < |Comp.WorldAfter(events).ends[d].client.calls|
             && Comp.WorldAfter(events).ends[d].client.calls[j].CallPub?
    ensures var s, call := Comp.WorldAfter(events).sys.core, Comp.WorldAfter(events).ends[d].client.calls[j];
            && Message(c, Msg(id, ProtocolClient.Pub(call.topic, call.payload))) in s.processed
            && Wished(events, c, id, C.TaskPub(call.topic, call.payload))
  {
    hide Comp.IsHistory, Comp.WorldAfter, Wished, IsRun, StateAfter, Core.Channel;
    RunOfHistory(events);
    var g := CallTold(events, d, j);
    var k := PublicationOrigin(RunOf(events), d, g);
    hide PutAt, TaskAt;
    PutProcesses(RunOf(events), k, d, g);
    ProcessedAt(RunOf(events), k);
    var call := Comp.WorldAfter(events).ends[d].client.calls[j];
    var p := |Before(RunOf(events), k).processed|;
    c, id := TaskAt(RunOf(events), k).client, TaskAt(RunOf(events), k).msg.id;
    WishedFor(events, c, p, C.TaskPub(call.topic, call.payload));
  }

  lemma PutProcesses(run: seq<Event>, k: nat, c: ClientId, i: nat)
    requires PutAt(run, k, c, i)
    ensures Processes(run, k)
  {}
}
