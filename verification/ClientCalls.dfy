/** What a client's callbacks are told, and what it keeps track of, in terms of the messages it has sent and received
    over its life. */
module ClientCalls {
  import opened Common
  import opened Matching

  import opened FlatDirectories
  import opened Topics
  import opened Protocol
  import opened ClientSpec
  import opened ClientRuns

  // ---------- Along a life ----------

  lemma LifeUpTo(steps: seq<Step>, n: nat)
    requires IsLife(steps) && n < |steps|
    ensures IsLife(steps[..n]) && IsLife(steps[..n + 1])
    ensures steps[n].Get? ==> Possible(ClientAfter(steps[..n]), steps[n].msg, steps[n].choices)
    ensures var (s', ending, out) := Apply(ClientAfter(steps[..n]), steps[n]);
            && ending == Alive && ClientAfter(steps[..n + 1]) == s'
            && SentBy(steps[..n + 1]) == SentBy(steps[..n]) + out
    decreases |steps|
  {
    hide Possible, Apply;
    var before := steps[..|steps| - 1];
    if n == |steps| - 1 {
      assert steps[..n + 1] == steps;
    } else {
      LifeUpTo(before, n);
      assert before[..n] == steps[..n] && before[..n + 1] == steps[..n + 1];
    }
  }

  /** Step `a` is the client's own and sent `x`. */
  ghost predicate Says(steps: seq<Step>, a: nat, x: ClientMsg) {
    a < |steps| && steps[a].Act? && SentBy(steps[..a + 1]) == SentBy(steps[..a]) + [x]
  }

  lemma SaysBefore(before: seq<Step>, steps: seq<Step>, a: nat, x: ClientMsg)
    requires |steps| == |before| + 1 && before == steps[..|before|]
    ensures Says(steps, a, x) <==>
              Says(before, a, x) || (a == |before| && steps[a].Act? && SentBy(steps) == SentBy(before) + [x])
  {
    assert steps[..|before| + 1] == steps;
    if a < |before| { assert steps[..a] == before[..a] && steps[..a + 1] == before[..a + 1]; }
  }

  lemma LastSaid(steps: seq<Step>, k: nat, m: ClientMsg)
    requires k + 1 == |steps| && steps[k].Act? && SentBy(steps) == SentBy(steps[..k]) + [m]
    ensures forall x :: Says(steps, k, x) <==> x == m
  {
    assert steps[..k + 1] == steps;
    forall x ensures Says(steps, k, x) <==> x == m {
      assert (SentBy(steps[..k]) + [x])[|SentBy(steps[..k])|] == x && SentBy(steps)[|SentBy(steps[..k])|] == m;
    }
  }

  lemma NotSaid(steps: seq<Step>, k: nat)
    requires k + 1 == |steps| && !steps[k].Act?
    ensures forall x :: !Says(steps, k, x)
  {}

  /** The kinds of messages whose sender waits for an Ack. */
  predicate Waits(x: ProtocolClient) {
    x.Pub? || x.Sub? || x.Srv? || x.Req? || x.Rsp? || x.Stop?
  }

  predicate IsAckOf(step: Step, id: MsgId) {
    step.Get? && step.msg.content.Ack? && step.msg.content.msgId == id
  }

  /** The client sent a message under this number whose Ack it waits for, and has had none since. */
  ghost predicate Unacknowledged(steps: seq<Step>, id: MsgId) {
    exists a: nat, x :: Says(steps, a, x) && x.id == id && Waits(x.content)
                   && forall n | a < n < |steps| :: !IsAckOf(steps[n], id)
  }

  /** What one step of its own does to the Acks a client waits for. */
  lemma SendWaits(s: Client, task: ClientTask, lost: set<MsgId>)
    requires Send(s, task, lost).1 == Alive
    ensures var (s', _, out) := Send(s, task, lost);
            && |out| == 1 && out[0].id == s'.nextMsgId == s.nextMsgId + 1 && s'.calls == s.calls
            && s'.acks == s.acks + if Waits(out[0].content) then {out[0].id} else {}
  {}

  lemma {:induction false} UnsubscribeFrame(s: Client, topics: seq<Topic>, lost: set<MsgId>)
    ensures var s' := Unsubscribe(s, topics, lost).0; s' == s.(nextMsgId := s'.nextMsgId)
    decreases |topics|
  {
    if topics != [] && Send(s, TaskUnsub(topics[0]), lost).1 == Alive {
      UnsubscribeFrame(Send(s, TaskUnsub(topics[0]), lost).0, topics[1..], lost);
    }
  }

  lemma CallOneFrame(s: Client, id: MsgId, topic: Topic, payload: Payload, ch: Choices)
    ensures var s' := CallOne(s, id, topic, payload, ch).0;
            && s'.acks == s.acks && s'.rsps == s.rsps && s'.reqs == s.reqs
            && s'.dir == if id in ch.dead then s.dir.DropClient(id) else s.dir
  {
    if id in ch.dead {
      UnsubscribeFrame(s.(pubs := s.pubs - {id}, dir := s.dir.DropClient(id)), Listed(ch, id), ch.lost);
    }
  }

  lemma {:induction false} CallAllFrame(s: Client, ids: seq<MsgId>, topic: Topic, payload: Payload, ch: Choices)
    ensures CallAll(s, ids, topic, payload, ch).0.acks == s.acks
    decreases |ids|
  {
    hide CallOne;
    if ids != [] && ids[0] in s.pubs {
      CallOneFrame(s, ids[0], topic, payload, ch);
      CallAllFrame(CallOne(s, ids[0], topic, payload, ch).0, ids[1..], topic, payload, ch);
    }
  }

  /** What one received message does to them. */
  lemma ReceiveWaits(s: Client, msg: ServerMsg, ch: Choices)
    ensures AfterReceive(s, msg, ch).0.acks == if msg.content.Ack? then s.acks - {msg.content.msgId} else s.acks
  {
    if msg.content.Pub? { CallAllFrame(s, ch.order, msg.content.topic, msg.content.payload, ch); }
    hide CallAll, Segments;
  }

  /** A client waits for exactly the Acks of what it sent and was not yet told about. */
  lemma {:induction false} WaitsExactly(steps: seq<Step>, id: MsgId)
    requires IsLife(steps)
    ensures id in ClientAfter(steps).acks <==> Unacknowledged(steps, id)
    decreases |steps|
  {
    hide IsLife, ClientAfter, SentBy, Says, Possible, Send, AfterReceive, Waits;
    if steps == [] {
      NothingSaid(id);
    } else {
      var k := |steps| - 1;
      var before, s := steps[..k], ClientAfter(steps[..k]);
      assert steps[..k + 1] == steps;
      LifeUpTo(steps, k);
      WaitsExactly(before, id);
      if steps[k].Act? {
        SendWaits(s, steps[k].task, steps[k].lost);
        LastSaid(steps, k, Send(s, steps[k].task, steps[k].lost).2[0]);
      } else {
        NotSaid(steps, k);
        ReceiveWaits(s, steps[k].msg, steps[k].choices);
      }
      UnacknowledgedSnoc(before, steps, id);
    }
  }

  lemma NothingSaid(id: MsgId)
    ensures id !in ClientAfter([]).acks && !Unacknowledged([], id)
  {
    assert forall a: nat, x :: !Says([], a, x);
  }

  lemma UnacknowledgedSnoc(before: seq<Step>, steps: seq<Step>, id: MsgId)
    requires |steps| == |before| + 1 && before == steps[..|before|]
    ensures var k := |before|;
            Unacknowledged(steps, id) <==>
              || (Unacknowledged(before, id) && !IsAckOf(steps[k], id))
              || (exists x :: Says(steps, k, x) && x.id == id && Waits(x.content))
  {
    hide Says, Waits;
    var k := |before|;
    if Unacknowledged(steps, id) {
      var a: nat, x :| Says(steps, a, x) && x.id == id && Waits(x.content)
        && forall n | a < n < |steps| :: !IsAckOf(steps[n], id);
      SaysBefore(before, steps, a, x);
      SaysInRange(steps, a, x);
      if a < k {
        SaysInPast(before, steps, a, x);
        assert forall n | a < n < k :: before[n] == steps[n];
      }
    }
    if Unacknowledged(before, id) && !IsAckOf(steps[k], id) {
      var a: nat, x :| Says(before, a, x) && x.id == id && Waits(x.content)
        && forall n | a < n < |before| :: !IsAckOf(before[n], id);
      SaysBefore(before, steps, a, x);
      assert forall n | a < n < k :: before[n] == steps[n];
    }
  }

  lemma SaysInRange(steps: seq<Step>, a: nat, x: ClientMsg)
    requires Says(steps, a, x)
    ensures a < |steps|
  {}

  lemma SaysInPast(before: seq<Step>, steps: seq<Step>, a: nat, x: ClientMsg)
    requires |steps| == |before| + 1 && before == steps[..|before|] && a < |before| && Says(steps, a, x)
    ensures Says(before, a, x)
  {
    SaysBefore(before, steps, a, x);
  }

  // ---------- Which callback serves a topic ----------

  predicate IsSrv(x: ProtocolClient, p: Pattern) {
    x.Srv? && Segments(x.topic) == p
  }

  predicate IsUnsrv(x: ProtocolClient, p: Pattern) {
    x.Unsrv? && Segments(x.topic) == p
  }

  /** The client's last word on serving the topic was the Srv with this number. */
  ghost predicate LastService(steps: seq<Step>, p: Pattern, id: MsgId) {
    exists a: nat, x :: Says(steps, a, x) && x.id == id && IsSrv(x.content, p)
                        && forall b: nat, y | a < b && Says(steps, b, y) :: !IsUnsrv(y.content, p)
  }

  lemma SendOwner(s: Client, task: ClientTask, lost: set<MsgId>, p: Pattern)
    requires Agrees(s) && Send(s, task, lost).1 == Alive
    ensures var (s', _, out) := Send(s, task, lost);
            && |out| == 1 && (IsSrv(out[0].content, p) ==> s.dir.Owner(p) == None)
            && s'.dir.Owner(p) == (if IsSrv(out[0].content, p) then Some(out[0].id)
                                   else if IsUnsrv(out[0].content, p) then None else s.dir.Owner(p))
  {
    assert forall q | q in s.dir.owners :: s.dir.owners[q] <= s.nextMsgId;
    hide Segments;
  }

  /** A client knows its last services: the local owner of a topic is the number of the Srv. */
  lemma {:induction false} ServesExactly(steps: seq<Step>, p: Pattern, id: MsgId)
    requires IsLife(steps)
    ensures ClientAfter(steps).dir.Owner(p) == Some(id) <==> LastService(steps, p, id)
    decreases |steps|
  {
    hide IsLife, ClientAfter, SentBy, Says, Possible, Send, AfterReceive, IsSrv, IsUnsrv, Agrees;
    if steps == [] {
      NothingServed(p, id);
    } else {
      var k := |steps| - 1;
      var before, s := steps[..k], ClientAfter(steps[..k]);
      assert steps[..k + 1] == steps;
      LifeUpTo(steps, k);
      ServesExactly(before, p, id);
      ServedOnce(before, p);
      if steps[k].Act? {
        SendOwner(s, steps[k].task, steps[k].lost, p);
        LastSaid(steps, k, Send(s, steps[k].task, steps[k].lost).2[0]);
      } else {
        AfterReceiveAgrees(s, steps[k].msg, steps[k].choices);
        NotSaid(steps, k);
      }
      LastServiceSnoc(before, steps, p, id);
    }
  }

  lemma NothingServed(p: Pattern, id: MsgId)
    ensures ClientAfter([]).dir.Owner(p) != Some(id) && !LastService([], p, id)
  {
    assert forall a: nat, x :: !Says([], a, x);
  }

  lemma LastServiceSnoc(before: seq<Step>, steps: seq<Step>, p: Pattern, id: MsgId)
    requires |steps| == |before| + 1 && before == steps[..|before|]
    ensures var k := |before|;
            LastService(steps, p, id) <==>
              || (LastService(before, p, id) && !(exists y :: Says(steps, k, y) && IsUnsrv(y.content, p)))
              || (exists x :: Says(steps, k, x) && x.id == id && IsSrv(x.content, p))
  {
    hide Says, IsSrv, IsUnsrv;
    var k := |before|;
    forall a: nat, x ensures Says(steps, a, x) ==> a <= k {
      if Says(steps, a, x) { SaysInRange(steps, a, x); }
    }
    forall a: nat, x ensures a < k ==> (Says(steps, a, x) <==> Says(before, a, x)) {
      SaysBefore(before, steps, a, x);
    }
    forall a: nat, x ensures Says(before, a, x) ==> a < k {
      if Says(before, a, x) { SaysInRange(before, a, x); }
    }
    if LastService(steps, p, id) {
      var a: nat, x :| Says(steps, a, x) && x.id == id && IsSrv(x.content, p)
                       && forall b: nat, y | a < b && Says(steps, b, y) :: !IsUnsrv(y.content, p);
      if a < k {
        assert Says(before, a, x);
        forall b: nat, y | a < b && Says(before, b, y) ensures !IsUnsrv(y.content, p) { assert Says(steps, b, y); }
      }
    }
    if LastService(before, p, id) && !(exists y :: Says(steps, k, y) && IsUnsrv(y.content, p)) {
      var a: nat, x :| Says(before, a, x) && x.id == id && IsSrv(x.content, p)
                       && forall b: nat, y | a < b && Says(before, b, y) :: !IsUnsrv(y.content, p);
      assert Says(steps, a, x);
      forall b: nat, y | a < b && Says(steps, b, y) ensures !IsUnsrv(y.content, p) {
        if b < k { assert Says(before, b, y); }
      }
    }
  }

  // ---------- Which callbacks subscribe to what ----------

  predicate IsSub(x: ProtocolClient, p: Pattern) {
    x.Sub? && Segments(x.topic) == p
  }

  /** The step found this callback's user gone when a publication matched. */
  predicate Forgets(step: Step, id: MsgId) {
    step.Get? && step.msg.content.Pub? && id in step.choices.order && id in step.choices.dead
  }

  /** The client sent a Sub for the pattern under this number, and has not found its user gone since. */
  ghost predicate StillSubscribed(steps: seq<Step>, p: Pattern, id: MsgId) {
    exists a: nat, x :: Says(steps, a, x) && x.id == id && IsSub(x.content, p)
                        && forall n | a < n < |steps| :: !Forgets(steps[n], id)
  }

  lemma SendSubscribes(s: Client, task: ClientTask, lost: set<MsgId>, p: Pattern, id: MsgId)
    requires Send(s, task, lost).1 == Alive
    ensures var (s', _, out) := Send(s, task, lost);
            && |out| == 1
            && ((id, p) in s'.dir.subs <==> (id, p) in s.dir.subs || (id == out[0].id && IsSub(out[0].content, p)))
  {
    hide Segments, Concrete;
  }

  lemma {:induction false} CallAllForgets(s: Client, ids: seq<MsgId>, topic: Topic, payload: Payload, ch: Choices)
    requires CallAll(s, ids, topic, payload, ch).1 == Alive
    ensures var s' := CallAll(s, ids, topic, payload, ch).0;
            forall id: MsgId, p :: (id, p) in s'.dir.subs <==> (id, p) in s.dir.subs && !(id in ids && id in ch.dead)
    decreases |ids|
  {
    hide CallOne;
    if ids != [] {
      var s1 := CallOne(s, ids[0], topic, payload, ch).0;
      CallOneFrame(s, ids[0], topic, payload, ch);
      CallAllForgets(s1, ids[1..], topic, payload, ch);
      assert ids == [ids[0]] + ids[1..];
    }
  }

  lemma ReceiveForgets(s: Client, msg: ServerMsg, ch: Choices, p: Pattern, id: MsgId)
    requires AfterReceive(s, msg, ch).1 == Alive
    ensures (id, p) in AfterReceive(s, msg, ch).0.dir.subs <==> (id, p) in s.dir.subs && !Forgets(Get(msg, ch), id)
  {
    if msg.content.Pub? { CallAllForgets(s, ch.order, msg.content.topic, msg.content.payload, ch); }
    hide CallAll, Segments;
  }

  /** A client's local subscriptions are exactly its Subs whose users were not found gone. */
  lemma {:induction false} SubscribesExactly(steps: seq<Step>, p: Pattern, id: MsgId)
    requires IsLife(steps)
    ensures (id, p) in ClientAfter(steps).dir.subs <==> StillSubscribed(steps, p, id)
    decreases |steps|
  {
    hide IsLife, ClientAfter, SentBy, Says, Possible, Send, AfterReceive, IsSub, Forgets;
    if steps == [] {
      NoneSubscribed(p, id);
    } else {
      var k := |steps| - 1;
      var before, s := steps[..k], ClientAfter(steps[..k]);
      assert steps[..k + 1] == steps;
      LifeUpTo(steps, k);
      SubscribesExactly(before, p, id);
      if steps[k].Act? {
        SendSubscribes(s, steps[k].task, steps[k].lost, p, id);
        LastSaid(steps, k, Send(s, steps[k].task, steps[k].lost).2[0]);
        ActForgetsNone(steps[k], id);
      } else {
        ReceiveForgets(s, steps[k].msg, steps[k].choices, p, id);
        NotSaid(steps, k);
      }
      StillSubscribedSnoc(before, steps, p, id);
    }
  }

  lemma ActForgetsNone(step: Step, id: MsgId)
    requires step.Act?
    ensures !Forgets(step, id)
  {}

  lemma NoneSubscribed(p: Pattern, id: MsgId)
    ensures (id, p) !in ClientAfter([]).dir.subs && !StillSubscribed([], p, id)
  {
    assert forall a: nat, x :: !Says([], a, x);
  }

  lemma StillSubscribedSnoc(before: seq<Step>, steps: seq<Step>, p: Pattern, id: MsgId)
    requires |steps| == |before| + 1 && before == steps[..|before|]
    ensures var k := |before|;
            StillSubscribed(steps, p, id) <==>
              || (StillSubscribed(before, p, id) && !Forgets(steps[k], id))
              || (exists x :: Says(steps, k, x) && x.id == id && IsSub(x.content, p))
  {
    hide Says, IsSub, Forgets;
    var k := |before|;
    if StillSubscribed(steps, p, id) {
      var a: nat, x :| Says(steps, a, x) && x.id == id && IsSub(x.content, p)
                       && forall n | a < n < |steps| :: !Forgets(steps[n], id);
      SaysInRange(steps, a, x);
      if a < k {
        SaysInPast(before, steps, a, x);
        assert forall n | a < n < k :: before[n] == steps[n];
      }
    }
    if StillSubscribed(before, p, id) && !Forgets(steps[k], id) {
      var a: nat, x :| Says(before, a, x) && x.id == id && IsSub(x.content, p)
                       && forall n | a < n < |before| :: !Forgets(before[n], id);
      SaysBefore(before, steps, a, x);
      assert forall n | a < n < k :: before[n] == steps[n];
    }
  }

  // ---------- The calls ----------

  /** The client's calls after the first `n` steps. */
  function CallsAfter(steps: seq<Step>, n: nat): seq<Call>
    requires n <= |steps|
  {
    ClientAfter(steps[..n]).calls
  }

  /** Nobody is called when the client acts itself. */
  lemma ActCalls(steps: seq<Step>, n: nat)
    requires IsLife(steps) && n < |steps| && steps[n].Act?
    ensures CallsAfter(steps, n + 1) == CallsAfter(steps, n)
  {
    LifeUpTo(steps, n);
    hide IsLife, ClientAfter, Possible, Send;
    SendWaits(ClientAfter(steps[..n]), steps[n].task, steps[n].lost);
  }

  /** What one received message other than a publication calls, seen from the state. */
  lemma ReceiveCalls(s: Client, msg: ServerMsg, ch: Choices)
    requires !msg.content.Pub? && AfterReceive(s, msg, ch).1 == Alive
    ensures var x := msg.content;
            AfterReceive(s, msg, ch).0.calls == s.calls +
              if x.Rsp? then [CallRsp(x.reqId, x.status, x.payload)]
              else if x.Ack? then if x.msgId in s.acks then [CallAck(x.msgId, x.err, x.recipients)] else []
              else if s.dir.Owner(Segments(x.topic)).Some?
                   then [CallReq(s.dir.Owner(Segments(x.topic)).value, msg.id, x.topic, x.payload)] else []
  {
    hide CallAll, Segments;
  }

  /** A response calls the callback of its request, with its status and its payload. */
  lemma RspCalls(steps: seq<Step>, n: nat)
    requires IsLife(steps) && n < |steps| && steps[n].Get? && steps[n].msg.content.Rsp?
    ensures var x := steps[n].msg.content;
            CallsAfter(steps, n + 1) == CallsAfter(steps, n) + [CallRsp(x.reqId, x.status, x.payload)]
  {
    hide IsLife, ClientAfter, Possible, AfterReceive;
    LifeUpTo(steps, n);
    ReceiveCalls(ClientAfter(steps[..n]), steps[n].msg, steps[n].choices);
  }

  /** An Ack calls the one who waits for it, once. */
  lemma AckCalls(steps: seq<Step>, n: nat)
    requires IsLife(steps) && n < |steps| && steps[n].Get? && steps[n].msg.content.Ack?
    ensures var x := steps[n].msg.content;
            CallsAfter(steps, n + 1) ==
              CallsAfter(steps, n)
              + if Unacknowledged(steps[..n], x.msgId) then [CallAck(x.msgId, x.err, x.recipients)] else []
  {
    hide IsLife, ClientAfter, Possible, AfterReceive, Unacknowledged;
    LifeUpTo(steps, n);
    WaitsExactly(steps[..n], steps[n].msg.content.msgId);
    ReceiveCalls(ClientAfter(steps[..n]), steps[n].msg, steps[n].choices);
  }

  /** A request calls the callback of the topic's last service, if there is one, with the number that its answer needs,
      its topic and its payload. */
  lemma ReqCalls(steps: seq<Step>, n: nat, id: MsgId)
    requires IsLife(steps) && n < |steps| && steps[n].Get? && steps[n].msg.content.Req?
    ensures var m, x := steps[n].msg.id, steps[n].msg.content;
            && (LastService(steps[..n], Segments(x.topic), id) ==>
                  CallsAfter(steps, n + 1) == CallsAfter(steps, n) + [CallReq(id, m, x.topic, x.payload)])
            && ((forall j: MsgId :: !LastService(steps[..n], Segments(x.topic), j)) ==>
                  CallsAfter(steps, n + 1) == CallsAfter(steps, n))
  {
    hide IsLife, ClientAfter, Possible, AfterReceive, LastService, Segments;
    LifeUpTo(steps, n);
    var p := Segments(steps[n].msg.content.topic);
    var owner := ClientAfter(steps[..n]).dir.Owner(p);
    ServesExactly(steps[..n], p, id);
    if owner.Some? { ServesExactly(steps[..n], p, owner.value); }
    ReceiveCalls(ClientAfter(steps[..n]), steps[n].msg, steps[n].choices);
  }

  // ---------- Publications ----------

  /** The calls of a visit, one for each callback whose user is there, and in its order. */
  lemma {:induction false} LiveCallsExact(ids: seq<MsgId>, topic: Topic, payload: Payload, dead: set<MsgId>)
    requires Distinct(ids)
    ensures var calls := LiveCalls(ids, topic, payload, dead);
            && (forall i | 0 <= i < |calls| ::
                  calls[i].CallPub? && calls[i] == CallPub(calls[i].id, topic, payload)
                  && calls[i].id in ids && calls[i].id !in dead)
            && (forall id | id in ids && id !in dead :: CallPub(id, topic, payload) in calls)
            && Distinct(calls)
    decreases |ids|
  {
    if ids != [] {
      LiveCallsExact(ids[1..], topic, payload, dead);
      var more := LiveCalls(ids[1..], topic, payload, dead);
      assert ids[0] !in ids[1..] && CallPub(ids[0], topic, payload) !in more;
    }
  }

  /** Callback `id` is for a topic that matches the pattern. */
  ghost predicate Listens(steps: seq<Step>, q: Pattern, id: MsgId) {
    exists p :: StillSubscribed(steps, p, id) && Overlap(p, q)
  }

  /** A publication calls each callback that listens and whose user is there once, with its topic and its payload, and
      no other. */
  lemma PubCalls(steps: seq<Step>, n: nat) returns (news: seq<Call>)
    requires IsLife(steps) && n < |steps| && steps[n].Get? && steps[n].msg.content.Pub?
    ensures CallsAfter(steps, n + 1) == CallsAfter(steps, n) + news && Distinct(news)
    ensures var x, dead := steps[n].msg.content, steps[n].choices.dead;
            forall call :: call in news <==>
              call.CallPub? && call == CallPub(call.id, x.topic, x.payload) && call.id !in dead
              && Listens(steps[..n], Segments(x.topic), call.id)
  {
    hide IsLife, ClientAfter, AfterReceive, LiveCalls, Agrees, StillSubscribed;
    LifeUpTo(steps, n);
    ServedOnce(steps[..n], []);
    var s, x, ch := ClientAfter(steps[..n]), steps[n].msg.content, steps[n].choices;
    PublicationReaches(s, steps[n].msg, ch);
    news := LiveCalls(ch.order, x.topic, x.payload, ch.dead);
    LiveCallsExact(ch.order, x.topic, x.payload, ch.dead);
    forall id: MsgId ensures id in ch.order <==> Listens(steps[..n], Segments(x.topic), id) {
      ListensExactly(steps[..n], Segments(x.topic), id);
      assert id in ch.order <==> id in Elements(ch.order);
    }
    forall call
      ensures call in news <==>
                call.CallPub? && call == CallPub(call.id, x.topic, x.payload) && call.id !in ch.dead
                  && call.id in ch.order
    {
      if call in news { var i :| 0 <= i < |news| && news[i] == call; }
    }
  }

  lemma ListensExactly(steps: seq<Step>, q: Pattern, id: MsgId)
    requires IsLife(steps)
    ensures id in ClientAfter(steps).dir.Subscribers(q) <==> Listens(steps, q, id)
  {
    hide IsLife, ClientAfter, StillSubscribed;
    var f := ClientAfter(steps).dir;
    if id in f.Subscribers(q) {
      var e :| e in f.subs && Overlap(e.1, q) && e.0 == id;
      assert e == (id, e.1);
      SubscribesExactly(steps, e.1, id);
    }
    if Listens(steps, q, id) {
      var p :| StillSubscribed(steps, p, id) && Overlap(p, q);
      SubscribesExactly(steps, p, id);
      assert (id, p) in f.subs;
    }
  }

  // ---------- What a client sends of itself ----------

  lemma {:induction false} UnsubscribeSays(s: Client, topics: seq<Topic>, lost: set<MsgId>)
    requires Unsubscribe(s, topics, lost).1 == Alive
    ensures var out := Unsubscribe(s, topics, lost).2;
            |out| == |topics| && forall i | 0 <= i < |out| :: out[i].content == ProtocolClient.Unsub(topics[i])
    decreases |topics|
  {
    if topics != [] { UnsubscribeSays(Send(s, TaskUnsub(topics[0]), lost).0, topics[1..], lost); }
  }

  /** The messages unsubscribe from topics with this pattern. */
  ghost predicate Unsubscribes(out: seq<ClientMsg>, p: Pattern) {
    exists i :: 0 <= i < |out| && out[i].content.Unsub? && Segments(out[i].content.topic) == p
  }

  /** Unsubs only, and none twice. */
  ghost predicate UnsubsOnly(out: seq<ClientMsg>) {
    && (forall i | 0 <= i < |out| :: out[i].content.Unsub?)
    && (forall i, j | 0 <= i < j < |out| :: out[i].content != out[j].content)
  }

  /** One of `ids` whose user is gone is for this pattern. */
  ghost predicate Loses(f: Flat, ids: seq<MsgId>, dead: set<MsgId>, p: Pattern) {
    exists id :: id in ids && id in dead && (id, p) in f.subs
  }

  ghost predicate Unheld(f: Flat, p: Pattern) {
    forall id: MsgId :: (id, p) !in f.subs
  }

  lemma ForgetSays(s: Client, id: MsgId, topic: Topic, payload: Payload, ch: Choices)
    requires id in ch.dead && ListsEmptied(s, id, Listed(ch, id)) && WellFormed(s.dir)
    requires CallOne(s, id, topic, payload, ch).1 == Alive
    ensures var (s', _, out) := CallOne(s, id, topic, payload, ch);
            && UnsubsOnly(out) && WellFormed(s'.dir) && s'.dir == s.dir.DropClient(id)
            && forall p :: Unsubscribes(out, p) <==> (id, p) in s.dir.subs && Unheld(s'.dir, p)
  {
    var topics := Listed(ch, id);
    var (s', _, out) := CallOne(s, id, topic, payload, ch);
    UnsubscribeSays(s.(pubs := s.pubs - {id}, dir := s.dir.DropClient(id)), topics, ch.lost);
    CallOneFrame(s, id, topic, payload, ch);
    hide CallOne, Unsubscribe, Segments;
    forall p ensures Unsubscribes(out, p) <==> (id, p) in s.dir.subs && Unheld(s'.dir, p) {
      SoleMeansUnheld(s.dir, id, p);
      if Unsubscribes(out, p) {
        var i :| 0 <= i < |out| && out[i].content.Unsub? && Segments(out[i].content.topic) == p;
        assert topics[i] in topics;
      }
      if p in s.dir.SoleSubscriptions(id) {
        var t := TopicOf(s.dir, id, p);
        var i :| 0 <= i < |topics| && topics[i] == t;
        assert out[i].content == ProtocolClient.Unsub(t);
      }
    }
  }

  lemma TopicOf(f: Flat, id: MsgId, p: Pattern) returns (t: Topic)
    requires WellFormed(f) && (id, p) in f.subs
    ensures Segments(t) == p
  {
    t := FromSegments(p);
  }

  lemma SoleMeansUnheld(f: Flat, id: MsgId, p: Pattern)
    ensures p in f.SoleSubscriptions(id) <==> (id, p) in f.subs && Unheld(f.DropClient(id), p)
  {
    if (id, p) in f.subs && Unheld(f.DropClient(id), p) {
      forall o | o in f.subs && o.1 == p ensures o.0 == id {
        assert o == (o.0, p) && (o.0, p) !in f.DropClient(id).subs;
      }
    }
    if p in f.SoleSubscriptions(id) {
      var e :| e in f.subs && e.0 == id && (forall o | o in f.subs && o.1 == e.1 :: o.0 == id) && e.1 == p;
      assert e == (id, p);
    }
  }

  /** A visit unsubscribes from exactly the topics that it leaves without any callback, from each once. */
  lemma {:induction false} VisitUnsubscribes(s: Client, ids: seq<MsgId>, topic: Topic, payload: Payload, ch: Choices)
    requires WellFormed(s.dir) && Fits(s, ids, topic, payload, ch) && CallAll(s, ids, topic, payload, ch).1 == Alive
    ensures var (s', _, out) := CallAll(s, ids, topic, payload, ch);
            && UnsubsOnly(out)
            && forall p :: Unsubscribes(out, p) <==> Loses(s.dir, ids, ch.dead, p) && Unheld(s'.dir, p)
    decreases |ids|
  {
    if ids != [] {
      var (s1, _, a) := CallOne(s, ids[0], topic, payload, ch);
      var (s', _, b) := CallAll(s1, ids[1..], topic, payload, ch);
      CallAllForgets(s, ids, topic, payload, ch);
      CallAllForgets(s1, ids[1..], topic, payload, ch);
      CallOneFrame(s, ids[0], topic, payload, ch);
      if ids[0] in ch.dead { ForgetSays(s, ids[0], topic, payload, ch); }
      VisitUnsubscribes(s1, ids[1..], topic, payload, ch);
      VisitOneMore(s.dir, s1.dir, s'.dir, ids, ch.dead, a, b);
    }
  }

  lemma VisitOneMore(f: Flat, f1: Flat, f': Flat, ids: seq<MsgId>, dead: set<MsgId>, a: seq<ClientMsg>,
                     b: seq<ClientMsg>)
    requires ids != [] && f1 == if ids[0] in dead then f.DropClient(ids[0]) else f
    requires forall id: MsgId, p :: (id, p) in f'.subs <==> (id, p) in f1.subs && !(id in ids[1..] && id in dead)
    requires UnsubsOnly(a) && UnsubsOnly(b)
    requires forall p :: Unsubscribes(a, p) <==> ids[0] in dead && (ids[0], p) in f.subs && Unheld(f1, p)
    requires forall p :: Unsubscribes(b, p) <==> Loses(f1, ids[1..], dead, p) && Unheld(f', p)
    ensures UnsubsOnly(a + b)
    ensures forall p :: Unsubscribes(a + b, p) <==> Loses(f, ids, dead, p) && Unheld(f', p)
  {
    forall p ensures Unsubscribes(a + b, p) <==> Unsubscribes(a, p) || Unsubscribes(b, p) {
      UnsubscribesConcat(a, b, p);
    }
    forall p ensures Loses(f, ids, dead, p) <==>
                       (ids[0] in dead && (ids[0], p) in f.subs) || Loses(f1, ids[1..], dead, p)
    {
      LosesSplit(f, f1, ids, dead, p);
    }
    forall p ensures Unheld(f', p) <==> Unheld(f1, p) || (Loses(f1, ids[1..], dead, p) && Unheld(f', p)) {
      UnheldSplit(f1, f', ids[1..], dead, p);
    }
    hide Segments, Loses, Unheld;
    forall i, j | 0 <= i < |a| && 0 <= j < |b| ensures a[i].content != b[j].content {
      assert Unsubscribes(a, Segments(a[i].content.topic)) && Unsubscribes(b, Segments(b[j].content.topic));
    }
  }

  lemma UnheldSplit(f1: Flat, f': Flat, ids: seq<MsgId>, dead: set<MsgId>, p: Pattern)
    requires forall id: MsgId, p :: (id, p) in f'.subs <==> (id, p) in f1.subs && !(id in ids && id in dead)
    ensures Unheld(f1, p) ==> Unheld(f', p)
    ensures Unheld(f', p) && !Unheld(f1, p) ==> Loses(f1, ids, dead, p)
    ensures Loses(f1, ids, dead, p) ==> !Unheld(f1, p)
  {}

  lemma UnsubscribesConcat(a: seq<ClientMsg>, b: seq<ClientMsg>, p: Pattern)
    ensures Unsubscribes(a + b, p) <==> Unsubscribes(a, p) || Unsubscribes(b, p)
  {
    hide Segments;
    if Unsubscribes(a, p) {
      var i :| 0 <= i < |a| && a[i].content.Unsub? && Segments(a[i].content.topic) == p;
      assert (a + b)[i] == a[i];
    }
    if Unsubscribes(b, p) {
      var i :| 0 <= i < |b| && b[i].content.Unsub? && Segments(b[i].content.topic) == p;
      assert (a + b)[|a| + i] == b[i];
    }
  }

  lemma LosesSplit(f: Flat, f1: Flat, ids: seq<MsgId>, dead: set<MsgId>, p: Pattern)
    requires ids != [] && f1 == if ids[0] in dead then f.DropClient(ids[0]) else f
    ensures Loses(f, ids, dead, p) <==> (ids[0] in dead && (ids[0], p) in f.subs) || Loses(f1, ids[1..], dead, p)
  {
    assert ids == [ids[0]] + ids[1..];
    if Loses(f, ids, dead, p) {
      var id :| id in ids && id in dead && (id, p) in f.subs;
      if id != ids[0] { assert id in ids[1..] && (id, p) in f1.subs; }
    }
  }

  ghost predicate NobodySubscribed(steps: seq<Step>, p: Pattern) {
    forall id: MsgId :: !StillSubscribed(steps, p, id)
  }

  /** The publication that step `n` received found the user of a callback for the pattern gone. */
  ghost predicate LosesUser(steps: seq<Step>, n: nat, p: Pattern)
    requires n < |steps|
  {
    exists id :: StillSubscribed(steps[..n], p, id) && Forgets(steps[n], id)
  }

  /** After a publication a client unsubscribes from exactly the topics that have just lost their last callback. */
  lemma PubUnsubscribes(steps: seq<Step>, n: nat) returns (out: seq<ClientMsg>)
    requires IsLife(steps) && n < |steps| && steps[n].Get?
    ensures SentBy(steps[..n + 1]) == SentBy(steps[..n]) + out && UnsubsOnly(out)
    ensures forall p :: Unsubscribes(out, p) <==> LosesUser(steps, n, p) && NobodySubscribed(steps[..n + 1], p)
  {
    hide IsLife, ClientAfter, Possible, Apply, StillSubscribed, Segments, UnsubsOnly, Unsubscribes, LosesUser,
      NobodySubscribed;
    LifeUpTo(steps, n);
    ServedOnce(steps[..n], []);
    var s := ClientAfter(steps[..n]);
    out := Apply(s, steps[n]).2;
    GetUnsubscribes(s, steps[n]);
    forall p ensures Unsubscribes(out, p) <==> LosesUser(steps, n, p) && NobodySubscribed(steps[..n + 1], p) {
      LosesByHistory(steps, n, p);
      NobodyByHistory(steps[..n + 1], p);
    }
  }

  lemma GetUnsubscribes(s: Client, step: Step)
    requires Agrees(s) && step.Get? && Possible(s, step.msg, step.choices) && Apply(s, step).1 == Alive
    ensures var (s', _, out) := Apply(s, step);
            && UnsubsOnly(out)
            && forall p :: Unsubscribes(out, p) <==>
                 step.msg.content.Pub? && Loses(s.dir, step.choices.order, step.choices.dead, p) && Unheld(s'.dir, p)
  {
    var x := step.msg.content;
    if x.Pub? { VisitUnsubscribes(s, step.choices.order, x.topic, x.payload, step.choices); }
    hide CallAll, Fits, Segments, Loses, Unheld;
  }

  lemma NobodyByHistory(steps: seq<Step>, p: Pattern)
    requires IsLife(steps)
    ensures NobodySubscribed(steps, p) <==> Unheld(ClientAfter(steps).dir, p)
  {
    hide IsLife, ClientAfter, StillSubscribed;
    forall id: MsgId ensures StillSubscribed(steps, p, id) <==> (id, p) in ClientAfter(steps).dir.subs {
      SubscribesExactly(steps, p, id);
    }
  }

  lemma LosesByHistory(steps: seq<Step>, n: nat, p: Pattern)
    requires IsLife(steps) && n < |steps| && steps[n].Get?
    ensures LosesUser(steps, n, p) <==>
              steps[n].msg.content.Pub? && Loses(ClientAfter(steps[..n]).dir, steps[n].choices.order,
                                                 steps[n].choices.dead, p)
  {
    LifeUpTo(steps, n);
    hide IsLife, ClientAfter, StillSubscribed, Possible, Apply;
    forall id: MsgId ensures StillSubscribed(steps[..n], p, id) <==> (id, p) in ClientAfter(steps[..n]).dir.subs {
      SubscribesExactly(steps[..n], p, id);
    }
  }
}
