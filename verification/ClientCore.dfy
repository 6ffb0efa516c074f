/** The client core as the source has it: callback tables and a directory that its methods update in place. */
module ClientCores {
  import opened Common
  import opened FlatDirectories
  import opened Topics
  import opened Protocol
  import opened Directories
  import opened ClientSpec
  import opened ClientRuns

  class ClientCore {
    var nextMsgId: MsgId
    var callbacksAck: set<MsgId>
    var callbacksRsp: set<MsgId>
    var callbacksPub: set<MsgId>
    var callbacksReq: set<MsgId>
    const subscriptions: Directory
    var transport: seq<ClientMsg>  // everything sent so far
    var calls: seq<Call>           // everything handed to callbacks so far

    ghost predicate Valid()
      reads this, subscriptions, subscriptions.repr
    {
      subscriptions.Rooted() && this !in subscriptions.repr
    }

    ghost function State(): Client
      reads this, subscriptions
    {
      Client(nextMsgId, callbacksAck, callbacksRsp, callbacksPub, callbacksReq, subscriptions.Content(), calls)
    }

    constructor ()
      ensures Valid() && fresh(subscriptions.repr)
      ensures State() == InitClient() && transport == []
    {
      nextMsgId, transport, calls := 0, [], [];
      callbacksAck, callbacksRsp, callbacksPub, callbacksReq := {}, {}, {}, {};
      subscriptions := new Directory();
      new;
      ViewEmpty();
    }

    /** Register callbacks and build the message that goes out. */
    method BeforeSend(task: ClientTask) returns (ending: Ending, out: seq<ClientMsg>)
      requires Valid()
      modifies this, subscriptions.repr
      ensures Valid() && fresh(subscriptions.repr - old(subscriptions.repr)) && transport == old(transport)
      ensures (State(), ending, out) == ClientSpec.BeforeSend(old(State()), task)
    {
      hide View, WellFormed, Segments;
      nextMsgId := nextMsgId + 1;
      var id := nextMsgId;
      ending, out := Alive, [];
      match task {
        case TaskPub(topic, payload) =>
          callbacksAck := callbacksAck + {id};
          out := [Msg(id, ProtocolClient.Pub(topic, payload))];
        case TaskReq(topic, payload) =>
          callbacksAck := callbacksAck + {id};
          callbacksRsp := callbacksRsp + {id};
          out := [Msg(id, ProtocolClient.Req(topic, payload))];
        case TaskRsp(reqId, status, payload) =>
          callbacksAck := callbacksAck + {id};
          out := [Msg(id, ProtocolClient.Rsp(reqId, status, payload))];
        case TaskUnsub(topic) =>
          out := [Msg(id, ProtocolClient.Unsub(topic))];
        case TaskStop =>
          return Panicked, [];
        case TaskStopBus =>
          callbacksAck := callbacksAck + {id};
          out := [Msg(id, ProtocolClient.Stop)];
        case TaskKeepAlive =>
          out := [Msg(id, ProtocolClient.KeepAlive)];
        case _ =>
          ending, out := SubscribeOrServe(id, task);
      }
    }

    /** The cases of `BeforeSend` that also change the local directory. */
    method SubscribeOrServe(id: MsgId, task: ClientTask) returns (ending: Ending, out: seq<ClientMsg>)
      requires Valid() && id == nextMsgId && id > 0 && (task.TaskSub? || task.TaskSrv? || task.TaskUnsrv?)
      modifies this`callbacksAck, this`callbacksPub, this`callbacksReq, subscriptions.repr
      ensures Valid() && fresh(subscriptions.repr - old(subscriptions.repr))
      ensures (State(), ending, out) == ClientSpec.BeforeSend(old(State()).(nextMsgId := id - 1), task)
    {
      ending, out := Alive, [];
      match task {
        case TaskSub(topic) =>
          callbacksAck := callbacksAck + {id};
          callbacksPub := callbacksPub + {id};
          subscriptions.Subscribe(id, topic);
          out := [Msg(id, ProtocolClient.Sub(topic))];
        case TaskUnsrv(topic) =>
          var owner := subscriptions.GetOwner(topic);
          if owner.None? {
            return Panicked, [];
          }
          var r := subscriptions.Unclaim(owner.value, topic);
          assert r.Ok?;  // an owned topic has no wildcards
          out := [Msg(id, ProtocolClient.Unsrv(topic))];
        case TaskSrv(topic) =>
          callbacksAck := callbacksAck + {id};
          callbacksReq := callbacksReq + {id};
          var r := subscriptions.Claim(id, topic);
          if r.Err? {
            return Failed, [];
          }
          out := [Msg(id, ProtocolClient.Srv(topic))];
      }
    }

    /** Build the message and write it, which fails if the connection refuses it. */
    method Send(task: ClientTask, lost: set<MsgId>) returns (ending: Ending)
      requires Valid()
      modifies this, subscriptions.repr
      ensures Valid() && fresh(subscriptions.repr - old(subscriptions.repr))
      ensures var (s, e, out) := ClientSpec.Send(old(State()), task, lost);
              State() == s && ending == e && transport == old(transport) + out
    {
      var out;
      ending, out := BeforeSend(task);
      if ending != Alive {
        return;
      }
      if nextMsgId in lost {
        return Failed;
      }
      transport := transport + out;
    }

    /** Unsubscribe from the server, topic by topic. */
    method UnsubscribeAll(topics: seq<Topic>, lost: set<MsgId>) returns (ending: Ending)
      requires Valid()
      modifies this, subscriptions.repr
      ensures Valid() && fresh(subscriptions.repr - old(subscriptions.repr))
      ensures var (s, e, out) := ClientSpec.Unsubscribe(old(State()), topics, lost);
              State() == s && ending == e && transport == old(transport) + out
    {
      hide ClientSpec.Send;
      var i := 0;
      ghost var sent: seq<ClientMsg> := [];
      ending := Alive;
      assert topics[0..] == topics;
      assert [] + ClientSpec.Unsubscribe(State(), topics, lost).2 == ClientSpec.Unsubscribe(State(), topics, lost).2;
      while i < |topics|
        invariant 0 <= i <= |topics| && ending == Alive
        invariant Valid() && fresh(subscriptions.repr - old(subscriptions.repr))
        invariant transport == old(transport) + sent
        invariant var (s, e, out) := ClientSpec.Unsubscribe(State(), topics[i..], lost);
                  ClientSpec.Unsubscribe(old(State()), topics, lost) == (s, e, sent + out)
      {
        ghost var before := State();
        ending := Send(TaskUnsub(topics[i]), lost);
        ghost var out := ClientSpec.Send(before, TaskUnsub(topics[i]), lost).2;
        assert topics[i..][1..] == topics[i + 1..];
        assert forall more :: sent + (out + more) == sent + out + more;
        sent := sent + out;
        if ending != Alive {
          return;
        }
        i := i + 1;
      }
    }

    /** Call back every matching subscriber; forget those whose user is gone. */
    method CallSubscribers(topic: Topic, payload: Payload, dead: set<MsgId>, lost: set<MsgId>)
      returns (ending: Ending, ch: Choices)
      requires Valid()
      modifies this, subscriptions.repr
      ensures Valid() && fresh(subscriptions.repr - old(subscriptions.repr))
      ensures ch.dead == dead && ch.lost == lost && Lists(ch.order, old(State()).dir.Subscribers(Segments(topic)))
      ensures Fits(old(State()), ch.order, topic, payload, ch)
      ensures var (s, e, out) := CallAll(old(State()), ch.order, topic, payload, ch);
              State() == s && ending == e && transport == old(transport) + out
    {
      hide View, WellFormed, CallAll, Fits, ClientSpec.CallOne, ListsEmptied, Segments;
      var ids := subscriptions.GetSubscribers(topic);
      ch := Choices(ids, dead, map[], lost);
      var i := 0;
      ghost var sent: seq<ClientMsg> := [];
      CallNone(old(State()), ids, topic, payload, ch);
      while i < |ids|
        invariant 0 <= i <= |ids|
        invariant Valid() && fresh(subscriptions.repr - old(subscriptions.repr))
        invariant ch.dead == dead && ch.lost == lost && ch.order == ids && transport == old(transport) + sent
        invariant CallAll(old(State()), ids[..i], topic, payload, ch) == (State(), Alive, sent)
        invariant Fits(old(State()), ids[..i], topic, payload, ch)
        invariant forall id | id in ch.emptied :: id in ids[..i]
      {
        var id := ids[i];
        ghost var before := State();
        if id !in callbacksPub {
          CallMissing(old(State()), ids, i, topic, payload, ch, before, sent);
          return Panicked, ch;
        }
        ghost var was := ch;
        ending, ch := CallOne(id, topic, payload, ch);
        Congruent(old(State()), ids[..i], topic, payload, was, ch);
        OneMore(old(State()), ids[..i], id, topic, payload, ch, before, sent);
        sent := sent + ClientSpec.CallOne(before, id, topic, payload, ch).2;
        assert ids[..i + 1] == ids[..i] + [id];
        if ending != Alive {
          CallBroken(old(State()), ids, i + 1, topic, payload, ch);
          return;
        }
        i := i + 1;
      }
      assert ids[..i] == ids;
      ending := Alive;
    }

    /** Send to one callback; if its user is gone, forget it and unsubscribe from the topics it leaves empty. */
    method CallOne(id: MsgId, topic: Topic, payload: Payload, ch: Choices) returns (ending: Ending, now: Choices)
      requires Valid()
      modifies this, subscriptions.repr
      ensures Valid() && fresh(subscriptions.repr - old(subscriptions.repr))
      ensures now == if id in ch.dead then ch.(emptied := ch.emptied[id := Listed(now, id)]) else ch
      ensures id in ch.dead ==> ListsEmptied(old(State()), id, Listed(now, id))
      ensures var (s, e, out) := ClientSpec.CallOne(old(State()), id, topic, payload, now);
              State() == s && ending == e && transport == old(transport) + out
    {
      ending, now := Alive, ch;
      if id in ch.dead {
        // nobody listens to this callback any more
        callbacksPub := callbacksPub - {id};
        var topics := subscriptions.DropClient(id);
        ending := UnsubscribeAll(topics, ch.lost);
        now := ch.(emptied := ch.emptied[id := topics]);
      } else {
        calls := calls + [CallPub(id, topic, payload)];
      }
    }

    method AfterReceive(msg: ServerMsg, dead: set<MsgId>, lost: set<MsgId>) returns (ending: Ending, ch: Choices)
      requires Valid()
      modifies this, subscriptions.repr
      ensures Valid() && fresh(subscriptions.repr - old(subscriptions.repr))
      ensures ch.dead == dead && ch.lost == lost && Possible(old(State()), msg, ch)
      ensures var (s, e, out) := ClientSpec.AfterReceive(old(State()), msg, ch);
              State() == s && ending == e && transport == old(transport) + out
    {
      hide View, WellFormed, CallAll, Fits, Segments;
      ending, ch := Alive, Choices([], dead, map[], lost);
      match msg.content {
        case Ack(msgId, err, recipients) =>
          if msgId in callbacksAck {
            callbacksAck := callbacksAck - {msgId};
            calls := calls + [CallAck(msgId, err, recipients)];
          }
        case Rsp(reqId, status, payload) =>
          if reqId !in callbacksRsp {
            return Panicked, ch;
          }
          callbacksRsp := callbacksRsp - {reqId};
          calls := calls + [CallRsp(reqId, status, payload)];
        case Pub(topic, payload) =>
          ending, ch := CallSubscribers(topic, payload, dead, lost);
        case Req(topic, payload) =>
          var owner := subscriptions.GetOwner(topic);
          if owner.Some? {
            if owner.value !in callbacksReq {
              return Panicked, ch;
            }
            if owner.value in dead {
              return Failed, ch;
            }
            calls := calls + [CallReq(owner.value, msg.id, topic, payload)];
          }
      }
    }

    /** One turn of the loop: what there is to do, and whether the loop goes on. */
    method Turn(input: Input) returns (end: LoopEnd, ghost step: Step)
      requires Valid()
      modifies this, subscriptions.repr
      ensures Valid() && fresh(subscriptions.repr - old(subscriptions.repr))
      ensures Leaves(input) ==> end == LeaveEnd(input) && State() == old(State()) && transport == old(transport)
      ensures !Leaves(input) ==>
                var (s, ending, out) := Apply(old(State()), step);
                && State() == s && end == LoopOn(ending) && transport == old(transport) + out
                && Answers(step, input) && (step.Get? ==> Possible(old(State()), step.msg, step.choices))
    {
      var ending;
      step := Act(TaskKeepAlive, {});
      match input {
        case FromServer(msg, dead, lost) =>
          var ch;
          ending, ch := AfterReceive(msg, dead, lost);
          step := Get(msg, ch);
          end := LoopOn(ending);
        case ChannelClosed => end := Broken;
        case ReadFailed => end := Broken;
        case FromUser(task, lost) =>
          if task.TaskStop? { return Finished, step; }
          ending := Send(task, lost);
          step := Act(task, lost);
          end := LoopOn(ending);
        case NoMoreUsers => end := Finished;
        case KeepAliveTick(lost) =>
          ending := Send(TaskKeepAlive, lost);
          step := Act(TaskKeepAlive, lost);
          end := LoopOn(ending);
      }
    }

    /** The event loop, from a new client on. All turns up to the one that ends it make up a life of the client, and
        what was sent is what that life sent. The input that ends it does so for one of three reasons: it says so,
        it breaks the loop with an error, or it kills the client. */
    method MainLoop(inputs: seq<Input>) returns (end: LoopEnd, ghost steps: seq<Step>, ghost last: Step)
      requires Valid() && State() == InitClient() && transport == []
      modifies this, subscriptions.repr
      ensures Valid() && fresh(subscriptions.repr - old(subscriptions.repr)) && Agrees(State())
      ensures IsLife(steps) && |steps| <= |inputs| && forall i | 0 <= i < |steps| :: Answers(steps[i], inputs[i])
      ensures end == Ongoing <==> |steps| == |inputs|
      ensures end == Ongoing || Leaves(inputs[|steps|]) ==> State() == ClientAfter(steps) && transport == SentBy(steps)
      ensures end != Ongoing && (inputs[|steps|].ChannelClosed? || inputs[|steps|].ReadFailed?) ==> end == Broken
      ensures end == Finished <==> end != Ongoing && (inputs[|steps|].NoMoreUsers?
                                   || (inputs[|steps|].FromUser? && inputs[|steps|].task.TaskStop?))
      ensures end != Ongoing && !Leaves(inputs[|steps|]) ==>
                && Answers(last, inputs[|steps|])
                && (last.Get? ==> Possible(ClientAfter(steps), last.msg, last.choices))
                && State() == Apply(ClientAfter(steps), last).0
                && transport == SentBy(steps) + Apply(ClientAfter(steps), last).2
                && (end == Dead <==> Kills(steps, last)) && (end == Broken <==> Breaks(steps, last))
    {
      end, steps, last := Ongoing, [], Act(TaskKeepAlive, {});
      hide Agrees, View, WellFormed, Possible, ClientSpec.BeforeSend, ClientSpec.Send, ClientSpec.AfterReceive,
        Segments;
      hide Kills, Breaks;
      InitAgrees();
      var i := 0;
      while i < |inputs|
        invariant 0 <= i <= |inputs| && |steps| == i && end == Ongoing
        invariant Valid() && fresh(subscriptions.repr - old(subscriptions.repr)) && Agrees(State())
        invariant IsLife(steps) && forall j | 0 <= j < i :: Answers(steps[j], inputs[j])
        invariant State() == ClientAfter(steps) && transport == SentBy(steps)
      {
        end, last := Turn(inputs[i]);
        if !Leaves(inputs[i]) { TurnOutcome(steps, last); }
        if end != Ongoing {
          return;
        }
        assert (steps + [last])[..|steps|] == steps;
        steps := steps + [last];
        i := i + 1;
      }
    }
  }

  // ---------- The delivery loop, taken from the front ----------

  lemma {:induction false} CallAllAppend(s: Client, a: seq<MsgId>, b: seq<MsgId>, topic: Topic, payload: Payload,
                                         ch: Choices)
    ensures var (s1, e1, out1) := CallAll(s, a, topic, payload, ch);
            CallAll(s, a + b, topic, payload, ch) ==
              if e1.Alive? then var (s2, e2, out2) := CallAll(s1, b, topic, payload, ch); (s2, e2, out1 + out2)
              else (s1, e1, out1)
    ensures var (s1, e1, out1) := CallAll(s, a, topic, payload, ch);
            Fits(s, a, topic, payload, ch) && (e1.Alive? ==> Fits(s1, b, topic, payload, ch)) ==>
              Fits(s, a + b, topic, payload, ch)
    decreases |a|
  {
    hide ClientSpec.CallOne, ListsEmptied;
    if a == [] {
      assert a + b == b && [] + CallAll(s, b, topic, payload, ch).2 == CallAll(s, b, topic, payload, ch).2;
    } else {
      assert (a + b)[1..] == a[1..] + b;
      var (s1, e, out) := ClientSpec.CallOne(s, a[0], topic, payload, ch);
      CallAllAppend(s1, a[1..], b, topic, payload, ch);
      var (s2, e2, out2) := CallAll(s1, a[1..], topic, payload, ch);
      assert forall more: seq<ClientMsg> :: out + (out2 + more) == out + out2 + more;
    }
  }

  /** Only the choices for the visited callbacks matter. */
  lemma {:induction false} Congruent(s: Client, ids: seq<MsgId>, topic: Topic, payload: Payload, ch: Choices,
                                     ch': Choices)
    requires ch.dead == ch'.dead && ch.lost == ch'.lost && forall id | id in ids :: Listed(ch, id) == Listed(ch', id)
    ensures CallAll(s, ids, topic, payload, ch) == CallAll(s, ids, topic, payload, ch')
    ensures Fits(s, ids, topic, payload, ch) == Fits(s, ids, topic, payload, ch')
    decreases |ids|
  {
    if ids != [] {
      var s1 := ClientSpec.CallOne(s, ids[0], topic, payload, ch).0;
      Congruent(s1, ids[1..], topic, payload, ch, ch');
    }
  }

  lemma CallNone(s: Client, ids: seq<MsgId>, topic: Topic, payload: Payload, ch: Choices)
    ensures CallAll(s, ids[..0], topic, payload, ch) == (s, Alive, []) && Fits(s, ids[..0], topic, payload, ch)
  {}

  /** A visit that ended early is the whole visit. */
  lemma CallBroken(s: Client, ids: seq<MsgId>, i: nat, topic: Topic, payload: Payload, ch: Choices)
    requires i <= |ids| && !CallAll(s, ids[..i], topic, payload, ch).1.Alive? && Fits(s, ids[..i], topic, payload, ch)
    ensures CallAll(s, ids, topic, payload, ch) == CallAll(s, ids[..i], topic, payload, ch)
            && Fits(s, ids, topic, payload, ch)
  {
    assert ids == ids[..i] + ids[i..];
    CallAllAppend(s, ids[..i], ids[i..], topic, payload, ch);
  }

  lemma CallMissing(s: Client, ids: seq<MsgId>, i: nat, topic: Topic, payload: Payload, ch: Choices, s1: Client,
                    sent: seq<ClientMsg>)
    requires i < |ids| && CallAll(s, ids[..i], topic, payload, ch) == (s1, Alive, sent)
             && Fits(s, ids[..i], topic, payload, ch)
    requires ids[i] !in s1.pubs
    ensures CallAll(s, ids, topic, payload, ch) == (s1, Panicked, sent) && Fits(s, ids, topic, payload, ch)
  {
    assert ids == ids[..i] + ids[i..] && ids[i..][0] == ids[i] && sent + [] == sent;
    CallAllAppend(s, ids[..i], ids[i..], topic, payload, ch);
  }

  lemma OneMore(s: Client, ids: seq<MsgId>, id: MsgId, topic: Topic, payload: Payload, ch: Choices, s1: Client,
                sent: seq<ClientMsg>)
    requires CallAll(s, ids, topic, payload, ch) == (s1, Alive, sent) && Fits(s, ids, topic, payload, ch)
             && id in s1.pubs
    requires id in ch.dead ==> ListsEmptied(s1, id, Listed(ch, id))
    ensures var (s2, e, out) := ClientSpec.CallOne(s1, id, topic, payload, ch);
            CallAll(s, ids + [id], topic, payload, ch) == (s2, e, sent + out)
    ensures Fits(s, ids + [id], topic, payload, ch)
  {
    var (s2, e, out) := ClientSpec.CallOne(s1, id, topic, payload, ch);
    hide ClientSpec.CallOne, ListsEmptied;
    assert [id][1..] == [] && Fits(s2, [], topic, payload, ch) && out + [] == out;
    assert Fits(s1, [id], topic, payload, ch);
    CallAllAppend(s, ids, [id], topic, payload, ch);
  }
}
