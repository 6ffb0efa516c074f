/** An answered request ends the server: its timer still fires, finds nothing pending, and the error of that
    timeout leaves the task loop. */
module LateTimeouts {
  import opened Common
  import opened Matching
  import opened Tries
  import opened FlatDirectories
  import opened Topics
  import opened Protocol
  import opened ServerSpec
  import opened ServerInvariants
  import opened Systems
  import opened ServerPromises

  /** Event number `k` processed a timeout that could not be answered. */
  ghost predicate Unanswerable(events: seq<Event>, k: nat) {
    && k < |events| && events[k].Process?
    && var y := StateAfter(events[..k]);
       y.queue != [] && y.queue[0].RequestTimeout? && !CanAnswer(y.core, y.queue[0].reqId, events[k].env)
  }

  lemma {:induction false} CrashHasCause(events: seq<Event>) returns (k: nat)
    requires IsRun(events) && StateAfter(events).status.Crashed?
    ensures Unanswerable(events, k)
    decreases |events|
  {
    assert events != [];
    hide CanAnswer, IsRun, StateAfter, SystemInv, ProcessTask;
    k := |events| - 1;
    var before, e := events[..k], events[k];
    assert events[..k + 1] == events;
    UpTo(events, k);
    if StateAfter(before).status.Crashed? {
      k := CrashHasCause(before);
      assert before[..k] == events[..k];
    } else {
      Reachable(before);
      StopsExactly(StateAfter(before), e.env);
    }
  }

  /** A crash is for good. */
  lemma {:induction false} CrashLasts(events: seq<Event>, n: nat)
    requires IsRun(events) && n <= |events| && StateAfter(events[..n]).status.Crashed?
    ensures StateAfter(events).status == StateAfter(events[..n]).status
    decreases |events|
  {
    if n == |events| {
      assert events[..n] == events;
    } else {
      var before := events[..|events| - 1];
      assert before[..n] == events[..n];
      CrashLasts(before, n);
      assert !events[|events| - 1].Process?;
    }
  }

  lemma CauseMakesCrash(events: seq<Event>, k: nat)
    requires IsRun(events) && Unanswerable(events, k)
    ensures StateAfter(events).status.Crashed?
  {
    hide IsRun, StateAfter, SystemInv, CanAnswer, Apply;
    UpTo(events, k);
    Reachable(events[..k]);
    StopsExactly(StateAfter(events[..k]), events[k].env);
    CrashLasts(events, k + 1);
  }

  /** A run has crashed exactly when one of its events processed a timeout that could not be answered. */
  lemma CrashExplained(events: seq<Event>)
    requires IsRun(events)
    ensures StateAfter(events).status.Crashed? <==> exists k: nat :: Unanswerable(events, k)
  {
    hide IsRun, StateAfter, Unanswerable;
    if StateAfter(events).status.Crashed? { var k := CrashHasCause(events); }
    if k: nat :| Unanswerable(events, k) { CauseMakesCrash(events, k); }
  }

  /** A quiet moment: the task just enqueued is processed at once. */
  lemma AtOnce(events: seq<Event>, e: Event, task: Task) returns (more: seq<Event>)
    requires IsRun(events) && StateAfter(events).queue == [] && StateAfter(events).leaving == {}
    requires StateAfter(events).status == Running && Enabled(StateAfter(events), e)
    requires Apply(StateAfter(events), e).queue == [task] && Apply(StateAfter(events), e).leaving == {}
    requires e.Connect? || e.Receive? || e.Fire?
    requires task.Message? ==> !task.msg.content.Pub?
    ensures var y := Apply(StateAfter(events), e);
            var (core, verdict) := ProcessTask(y.core, task, CALM);
            IsRun(more) && StateAfter(more) == System(core, [], {}, After(verdict))
  {
    Continues(events, e);
    Continues(events + [e], Process(CALM));
    more := events + [e] + [Process(CALM)];
    hide ProcessTask;
  }

  const CALM: Env := Env({}, {}, [], false)

  /** Two clients, 1 serving the topic and 2 asking, and nothing else going on. */
  function Ready(t: Topic): Core {
    InitCore().(nextClientId := 3, nextMsgId := 1, senders := {1, 2},
                dir := Flat({(0, KILL)}, map[Segments(t) := 1]),
                sent := map[1 := [Msg(0, ProtocolServer.Ack(1, None, None))], 2 := []],
                processed := [Register, Register, Message(1, Msg(1, ProtocolClient.Srv(t)))])
  }

  lemma ServeStep(t: Topic, two: Core)
    requires Concrete(Segments(t))
    requires two == InitCore().(nextClientId := 3, senders := {1, 2}, sent := map[1 := [], 2 := []],
                                processed := [Register, Register])
    ensures ProcessTask(two, Message(1, Msg(1, ProtocolClient.Srv(t))), CALM) == (Ready(t), Continue)
  {
    var s0 := two.(processed := two.processed + [Message(1, Msg(1, ProtocolClient.Srv(t)))]);
    assert s0.processed == Ready(t).processed;
    var dir := Flat({(0, KILL)}, map[Segments(t) := 1]);
    assert two.dir.Claim(1, Segments(t)) == (dir, Result<(), DirectoryError>.Ok(()));
    var s' := Acknowledge(s0.(dir := dir), 1, 1, None, None, CALM);
    assert s'.sent.Keys == {1, 2} && s'.sent[1] == Ready(t).sent[1] && s'.sent[2] == [];
    assert s'.sent == Ready(t).sent;
    assert s' == Ready(t);
    hide Segments, Acknowledge;
  }

  lemma AskStep(t: Topic, question: Payload)
    ensures ProcessTask(Ready(t), Message(2, Msg(1, ProtocolClient.Req(t, question))), CALM)
            == (Asked(t, question), Continue)
  {
    var s := Ready(t);
    var s0 := s.(processed := s.processed + [Message(2, Msg(1, ProtocolClient.Req(t, question)))]);
    assert s.dir.Owner(Segments(t)) == Some(1);
    var s1 := Send(s0, 1, ProtocolServer.Req(t, question));
    var s2 := Accept(s1, 2, 1, t, question, 1, 1);
    assert s2.pending == Asked(t, question).pending && s2.timers == {1};
    var s3 := Send(s2, 2, ProtocolServer.Ack(1, None, None));
    assert s3.sent.Keys == {1, 2} && s3.sent[1] == Asked(t, question).sent[1]
           && s3.sent[2] == Asked(t, question).sent[2];
    assert s3.sent == Asked(t, question).sent;
    assert s3 == Asked(t, question);
    hide Segments, Send, Accept;
  }

  lemma AnswerStep(t: Topic, question: Payload, answer: Payload)
    ensures var rsp := Msg(2, ProtocolClient.Rsp(1, Answer, answer));
            var (s', v) := ProcessTask(Asked(t, question), Message(1, rsp), CALM);
            && v == Continue && s'.pending == map[] && s'.timers == {1}
            && 1 in s'.outcome && s'.outcome[1].Responded? && s'.outcome[1].author == 1
            && s'.outcome[1].payload == answer
  {
    hide Segments;
  }

  lemma GetReady(t: Topic) returns (events: seq<Event>)
    requires Concrete(Segments(t))
    ensures IsRun(events) && StateAfter(events) == System(Ready(t), [], {}, Running)
  {
    events := AtOnce([], Connect, Register);
    var one := InitCore().(nextClientId := 2, senders := {1}, sent := map[1 := []], processed := [Register]);
    assert StateAfter(events) == System(one, [], {}, Running);
    events := AtOnce(events, Connect, Register);
    var two := InitCore().(nextClientId := 3, senders := {1, 2}, sent := map[1 := [], 2 := []],
                           processed := [Register, Register]);
    assert StateAfter(events) == System(two, [], {}, Running);
    ServeStep(t, two);
    hide IsRun, StateAfter, ProcessTask;
    var srv := Msg(1, ProtocolClient.Srv(t));
    events := AtOnce(events, Receive(1, srv), Message(1, srv));
  }

  function Asked(t: Topic, question: Payload): Core {
    var s := Ready(t);
    s.(nextMsgId := 3, pending := map[1 := Pending(1, 2, 1)], timers := {1},
       sent := map[1 := s.sent[1] + [Msg(1, ProtocolServer.Req(t, question))],
                   2 := [Msg(2, ProtocolServer.Ack(1, None, None))]],
       processed := s.processed + [Message(2, Msg(1, ProtocolClient.Req(t, question)))],
       accepted := map[1 := Acceptance(3, 2, 1, 1, t, question)], acceptedBy := map[3 := 1])
  }

  /** Whatever the topic, the question and the answer: serve, ask, answer, let the request timer fire. Every
      message was delivered, the request was answered by its owner, and the server has crashed. */
  lemma AnsweredRequestCrashes(t: Topic, question: Payload, answer: Payload) returns (events: seq<Event>)
    requires Concrete(Segments(t))
    ensures IsRun(events) && StateAfter(events).status == Crashed(InvalidRequestId)
    ensures var s := StateAfter(events).core;
            1 in s.outcome && s.outcome[1].Responded? && s.outcome[1].author == 1 && s.outcome[1].payload == answer
  {
    events := GetReady(t);
    var req, rsp := Msg(1, ProtocolClient.Req(t, question)), Msg(2, ProtocolClient.Rsp(1, Answer, answer));
    AskStep(t, question);
    AnswerStep(t, question, answer);
    hide IsRun, StateAfter, ProcessTask, Segments;
    events := AtOnce(events, Receive(2, req), Message(2, req));
    events := AtOnce(events, Receive(1, rsp), Message(1, rsp));
    LateTimeoutIsSilent(StateAfter(events).core.(timers := {}), 1, CALM);
    events := AtOnce(events, Fire(1), RequestTimeout(1));
  }
}
