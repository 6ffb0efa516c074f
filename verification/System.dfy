/** The whole server: its core, the one task queue, the connection stubs that fill it, and the request timers.
    Everything the outside world does is an event; a run is a list of events. */
module Systems {
  import opened Common
  import opened Tries
  import opened Topics
  import opened Protocol
  import opened ServerSpec
  import opened ServerInvariants
  import opened ServerEffects

  datatype Status = Running | Stopped | Crashed(error: BusError) | Panicked

  /** `leaving` holds the clients whose stub has enqueued its Deregister: from then on sends to them may fail. */
  datatype System = System(core: Core, queue: seq<Task>, leaving: set<ClientId>, status: Status) {
    /** Every task ever enqueued, in order. */
    function All(): seq<Task> { core.processed + queue }
  }

  datatype Event =
    | Connect
    | Receive(client: ClientId, msg: ClientMsg)
    | Leave(client: ClientId)
    | Fire(reqId: MsgId)
    | Process(env: Env)
    | StopSignal

  function Init(): System {
    System(InitCore(), [], {}, Running)
  }

  /** What can happen. A stub hands over messages until it leaves, and it leaves once. The core takes tasks in
      order while it runs, and visits the subscribers of a publication in some order. */
  ghost predicate Enabled(y: System, e: Event) {
    match e
    case Connect => true
    case Receive(c, _) => c in y.core.sent && c !in y.leaving
    case Leave(c) => c in y.core.sent && c !in y.leaving
    case Fire(m) => m in y.core.timers
    case Process(env) =>
      && y.status == Running && y.queue != [] && env.leaving == y.leaving
      && (y.queue[0].Message? && y.queue[0].msg.content.Pub? ==>
            Lists(env.order, y.core.dir.Subscribers(Segments(y.queue[0].msg.content.topic))))
    case StopSignal => y.status == Running
  }

  function After(v: Verdict): Status {
    match v
    case Continue => Running
    case Finish => Stopped
    case Fail(e) => Crashed(e)
    case Panic => Panicked
  }

  function Apply(y: System, e: Event): System {
    match e
    case Connect => y.(queue := y.queue + [Register])
    case Receive(c, msg) => y.(queue := y.queue + [Message(c, msg)])
    case Leave(c) => y.(queue := y.queue + [Deregister(c)], leaving := y.leaving + {c})
    case Fire(m) => y.(core := y.core.(timers := y.core.timers - {m}), queue := y.queue + [RequestTimeout(m)])
    case Process(env) =>
      if y.queue == [] then y else
      var (core, verdict) := ProcessTask(y.core, y.queue[0], env);
      System(core, y.queue[1..], y.leaving, After(verdict))
    case StopSignal => y.(status := Stopped)
  }

  function StateAfter(events: seq<Event>): System {
    if events == [] then Init() else Apply(StateAfter(events[..|events| - 1]), events[|events| - 1])
  }

  ghost predicate IsRun(events: seq<Event>) {
    events != [] ==> IsRun(events[..|events| - 1]) && Enabled(StateAfter(events[..|events| - 1]), events[|events| - 1])
  }

  /** One more event. */
  lemma Continues(events: seq<Event>, e: Event)
    requires IsRun(events) && Enabled(StateAfter(events), e)
    ensures IsRun(events + [e]) && StateAfter(events + [e]) == Apply(StateAfter(events), e)
  {
    assert (events + [e])[..|events|] == events;
  }

  /** A run up to an event, and one step from there. */
  lemma UpTo(events: seq<Event>, k: nat)
    requires IsRun(events) && k < |events|
    ensures IsRun(events[..k]) && IsRun(events[..k + 1]) && Enabled(StateAfter(events[..k]), events[k])
    ensures StateAfter(events[..k + 1]) == Apply(StateAfter(events[..k]), events[k])
    decreases |events|
  {
    hide Enabled, Apply;
    if k == |events| - 1 {
      assert events[..k + 1] == events;
    } else {
      var before := events[..|events| - 1];
      UpTo(before, k);
      assert before[..k] == events[..k] && before[..k + 1] == events[..k + 1];
    }
  }

  // ---------- What holds in every reachable state ----------

  /** A client's Deregister is the last task that bears its id. */
  ghost predicate LastWords(all: seq<Task>) {
    forall i, j | 0 <= i < j < |all| && all[i].Deregister? ::
      && !(all[j].Message? && all[j].client == all[i].client)
      && all[j] != all[i]
  }

  ghost predicate QueueOk(s: Core, all: seq<Task>, leaving: set<ClientId>) {
    && (forall i | 0 <= i < |all| :: Known(s, all[i]))
    && LastWords(all)
    && (forall c: ClientId :: c in leaving <==> Deregister(c) in all)
  }

  /** Each accepted request has one timer: still armed, or turned into the one timeout task. */
  ghost predicate TimersOk(s: Core, all: seq<Task>) {
    && s.timers <= s.accepted.Keys
    && (forall m | m in s.accepted :: m in s.timers <==> RequestTimeout(m) !in all)
    && (forall i | 0 <= i < |all| && all[i].RequestTimeout? :: all[i].reqId in s.accepted)
    && (forall i, j | 0 <= i < j < |all| && all[i].RequestTimeout? :: all[j] != all[i])
  }

  /** A client that lost its channel is leaving; one that never registered has left no trace. */
  ghost predicate ClientsOk(s: Core, leaving: set<ClientId>) {
    && (forall c | c in s.sent :: c in s.senders || c in leaving)
    && (forall c: ClientId | c != 0 && c !in s.sent :: Gone(s, c))
  }

  /** What processed tasks have achieved for good. */
  ghost predicate Settled(s: Core) {
    && (forall i | 0 <= i < |s.processed| && s.processed[i].Deregister? :: Gone(s, s.processed[i].client))
    && (forall i | 0 <= i < |s.processed| && s.processed[i].RequestTimeout? :: s.processed[i].reqId !in s.pending)
  }

  /** While the server runs, every timeout it processed found its request pending and its requester reachable. */
  ghost predicate TimeoutsAnswered(s: Core) {
    forall i | 0 <= i < |s.processed| && s.processed[i].RequestTimeout? ::
      var m := s.processed[i].reqId; m in s.outcome && s.outcome[m].Responded? && s.outcome[m].author == 0
  }

  ghost predicate SystemInv(y: System) {
    && Inv(y.core, {})
    && QueueOk(y.core, y.All(), y.leaving)
    && TimersOk(y.core, y.All())
    && ClientsOk(y.core, y.leaving)
    && Settled(y.core)
    && (y.status == Running ==> TimeoutsAnswered(y.core))
  }

  // ---------- One task, summarised ----------

  function Newcomer(s: Core, task: Task): set<ClientId> {
    if task.Register? then {s.nextClientId} else {}
  }

  function Dropped(task: Task): set<ClientId> {
    if task.Deregister? then {task.client} else {}
  }

  ghost predicate TaskEffects(s: Core, s': Core, task: Task, env: Env) {
    && s'.processed == s.processed + [task]
    && s'.sent.Keys == s.sent.Keys + Newcomer(s, task)
    && s'.senders <= s.senders + Newcomer(s, task)
    && s.senders + Newcomer(s, task) - s'.senders <= env.leaving + Dropped(task)
    && s.accepted.Keys <= s'.accepted.Keys
    && s'.timers == s.timers + (s'.accepted.Keys - s.accepted.Keys)
  }

  ghost predicate ActsFor(task: Task, c: ClientId) {
    task.Message? && task.client == c
  }

  lemma MessageTaskEffects(s: Core, s0: Core, c: ClientId, msg: ClientMsg, env: Env)
    requires s0 == s.(processed := s.processed + [Message(c, msg)]) && Inv(s0, {})
    ensures TaskEffects(s, ProcessMsg(s0, c, msg, env).0, Message(c, msg), env)
  {
    MessageEffects(s0, c, msg, env);
    hide Inv, ProcessMsg, StayGone;
  }

  lemma TimeoutTaskEffects(s: Core, s0: Core, m: MsgId, env: Env)
    requires s0 == s.(processed := s.processed + [RequestTimeout(m)]) && Inv(s0, {})
    ensures TaskEffects(s, Respond(s0, 0, m, Timeout, [], env).0, RequestTimeout(m), env)
  {
    SenderIsClient(s0, {});
    RespondEffects(s0, 0, m, Timeout, [], env, 0);
    hide Inv, Respond, StayGone;
  }

  lemma TaskHasEffects(s: Core, task: Task, env: Env)
    requires Inv(s, {})
    ensures TaskEffects(s, ProcessTask(s, task, env).0, task, env)
  {
    var s0 := s.(processed := s.processed + [task]);
    NextTask(s, task);
    RegisterTaskEffects(s, s0, env);
    hide Inv;
    match task {
      case Register =>
      case Deregister(c) => DeregisterTaskEffects(s, s0, c, env); hide DeregisterClient, TaskEffects;
      case Message(c, msg) => MessageTaskEffects(s, s0, c, msg, env); hide ProcessMsg, TaskEffects;
      case RequestTimeout(m) => TimeoutTaskEffects(s, s0, m, env); hide Respond, TaskEffects;
    }
  }

  lemma RegisterTaskEffects(s: Core, s0: Core, env: Env)
    requires Inv(s, {})
    ensures s0 == s.(processed := s.processed + [Register]) ==> TaskEffects(s, RegisterClient(s0), Register, env)
  {}

  lemma DeregisterTaskEffects(s: Core, s0: Core, c: ClientId, env: Env)
    requires s0 == s.(processed := s.processed + [Deregister(c)])
    ensures TaskEffects(s, DeregisterClient(s0, c), Deregister(c), env)
  {
    DeregisterShape(s0, c);
    hide DeregisterClient;
  }

  lemma DeregisterShape(s: Core, c: ClientId)
    ensures var s' := DeregisterClient(s, c);
            && s'.senders == s.senders - {c} && s'.processed == s.processed && s'.sent == s.sent
            && s'.accepted == s.accepted && s'.timers == s.timers
  {}

  lemma TaskGone(s: Core, task: Task, env: Env, c: ClientId)
    requires Inv(s, {}) && c != 0
    requires if task == Deregister(c) then true else Gone(s, c) && !ActsFor(task, c) && c !in Newcomer(s, task)
    ensures Gone(ProcessTask(s, task, env).0, c)
  {
    hide Inv, ProcessMsg, Respond, DeregisterClient;
    var s0 := s.(processed := s.processed + [task]);
    NextTask(s, task);
    SenderIsClient(s0, {});
    assert Gone(s, c) ==> Gone(s0, c);
    hide Absent, Involves;
    match task
    case Register =>
    case Deregister(d) => DeregisterGone(s0, d, c);
    case Message(d, msg) => MessageEffects(s0, d, msg, env);
    case RequestTimeout(m) => RespondGone(s0, 0, m, Timeout, [], env, c);
  }

  // ---------- Each event keeps the invariant ----------

  lemma InitSystemInv()
    ensures SystemInv(Init())
  {
    InitInv();
    forall c: ClientId | c != 0 ensures Gone(InitCore(), c) {}
    hide Inv, Gone;
  }

  lemma EnqueuedQueue(s: Core, s': Core, all: seq<Task>, leaving: set<ClientId>, task: Task, leaving': set<ClientId>)
    requires QueueOk(s, all, leaving) && Known(s, task) && s'.sent == s.sent
    requires leaving' == if task.Deregister? then leaving + {task.client} else leaving
    requires task.Message? || task.Deregister? ==> task.client !in leaving
    ensures QueueOk(s', all + [task], leaving')
  {
    forall c: ClientId ensures c in leaving' <==> Deregister(c) in all + [task] {}
    assert LastWords(all + [task]) by {
      forall i | 0 <= i < |all| && all[i].Deregister? ensures all[i].client in leaving { assert all[i] in all; }
    }
  }

  lemma EnqueuedTimers(s: Core, all: seq<Task>, task: Task, timers: set<MsgId>)
    requires TimersOk(s, all) && timers == (if task.RequestTimeout? then s.timers - {task.reqId} else s.timers)
    requires task.RequestTimeout? ==> task.reqId in s.timers
    ensures TimersOk(s.(timers := timers), all + [task])
  {}

  /** A new task at the end of the queue. */
  lemma Enqueued(y: System, y': System, task: Task)
    requires SystemInv(y) && Known(y.core, task) && y'.queue == y.queue + [task] && y'.status == y.status
    requires y'.core == y.core.(timers := if task.RequestTimeout? then y.core.timers - {task.reqId} else y.core.timers)
    requires y'.leaving == if task.Deregister? then y.leaving + {task.client} else y.leaving
    requires task.Message? || task.Deregister? ==> task.client !in y.leaving
    requires task.RequestTimeout? ==> task.reqId in y.core.timers
    ensures SystemInv(y')
  {
    assert y'.All() == y.All() + [task];
    TimersAreFree(y.core, y'.core.timers);
    EnqueuedQueue(y.core, y'.core, y.All(), y.leaving, task, y'.leaving);
    EnqueuedTimers(y.core, y.All(), task, y'.core.timers);
    EnqueuedClients(y.core, y'.core.timers, y.leaving, y'.leaving);
    hide Inv, QueueOk, TimersOk, ClientsOk, Settled, TimeoutsAnswered, Known;
  }

  lemma EnqueuedClients(s: Core, timers: set<MsgId>, leaving: set<ClientId>, leaving': set<ClientId>)
    requires ClientsOk(s, leaving) && Settled(s) && leaving <= leaving'
    ensures var s' := s.(timers := timers);
            ClientsOk(s', leaving') && Settled(s') && (TimeoutsAnswered(s) ==> TimeoutsAnswered(s'))
  {
    var s' := s.(timers := timers);
    forall c | Gone(s, c) ensures Gone(s', c) {}
  }

  lemma TimersAreFree(s: Core, timers: set<MsgId>)
    requires Inv(s, {})
    ensures Inv(s.(timers := timers), {})
  {
    hide Past;
    var s' := s.(timers := timers);
    assert Quiet(s, s') by { assert forall d: ClientId :: s'.Channel(d) == s.Channel(d); }
    PastFrame(s, s', {});
  }

  lemma ProcessQueue(y: System, env: Env, s': Core)
    requires SystemInv(y) && y.queue != [] && TaskEffects(y.core, s', y.queue[0], env)
    ensures s'.processed + y.queue[1..] == y.All()
    ensures QueueOk(s', y.All(), y.leaving) && TimersOk(s', y.All())
  {
    hide Inv, ClientsOk, Settled, TimeoutsAnswered;
    assert y.queue == [y.queue[0]] + y.queue[1..];
    assert s'.processed + y.queue[1..] == y.All();
    assert y.All()[|y.core.processed|] == y.queue[0];
  }

  /** The current task comes after every processed one. */
  lemma CurrentIsLast(y: System, i: nat)
    requires LastWords(y.All()) && y.queue != [] && i < |y.core.processed| && y.core.processed[i].Deregister?
    ensures !ActsFor(y.queue[0], y.core.processed[i].client)
  {
    assert y.All()[i] == y.core.processed[i] && y.All()[|y.core.processed|] == y.queue[0];
  }

  lemma StrangersStayGone(y: System, env: Env, c: ClientId)
    requires SystemInv(y) && y.queue != [] && c != 0 && c !in y.core.sent && c !in Newcomer(y.core, y.queue[0])
    ensures Gone(ProcessTask(y.core, y.queue[0], env).0, c)
  {
    assert y.All()[|y.core.processed|] == y.queue[0] && Known(y.core, y.queue[0]);
    hide Inv, LastWords, TimersOk, Settled, TimeoutsAnswered, ProcessTask, Gone;
    TaskGone(y.core, y.queue[0], env, c);
  }

  lemma ProcessClients(y: System, env: Env)
    requires SystemInv(y) && y.queue != [] && env.leaving == y.leaving
    ensures var s' := ProcessTask(y.core, y.queue[0], env).0; ClientsOk(s', y.leaving)
  {
    var s' := ProcessTask(y.core, y.queue[0], env).0;
    TaskHasEffects(y.core, y.queue[0], env);
    assert y.queue[0] in y.All() by { assert y.All()[|y.core.processed|] == y.queue[0]; }
    hide Inv, LastWords, TimersOk, Settled, TimeoutsAnswered, ProcessTask, Gone;
    forall c: ClientId | c != 0 && c !in s'.sent ensures Gone(s', c) {
      StrangersStayGone(y, env, c);
    }
  }

  lemma ProcessSettles(y: System, env: Env)
    requires SystemInv(y) && y.queue != []
    ensures var s' := ProcessTask(y.core, y.queue[0], env).0;
            forall i | 0 <= i < |s'.processed| && s'.processed[i].Deregister? :: Gone(s', s'.processed[i].client)
  {
    hide ProcessTask, Gone;
    var s, task := y.core, y.queue[0];
    var s' := ProcessTask(s, task, env).0;
    TaskHasEffects(s, task, env);
    assert y.All()[|s.processed|] == task;
    SenderIsClient(s, {});
    forall i | 0 <= i < |s'.processed| && s'.processed[i].Deregister? ensures Gone(s', s'.processed[i].client) {
      var c := s'.processed[i].client;
      if i < |s.processed| {
        assert y.All()[i] == s.processed[i] && Known(s, s.processed[i]);
        CurrentIsLast(y, i);
        assert s.nextClientId !in s.sent;
      } else {
        assert Known(s, task);
      }
      TaskGone(s, task, env, c);
    }
  }

  /** What is neither pending nor new is settled for good. */
  lemma StaysSettled(s: Core, s': Core, m: MsgId)
    requires Inv(s, {}) && Inv(s', {}) && Extends(s, s') && m in s.accepted && m !in s.pending
    ensures m !in s'.pending && m in s'.outcome && s'.outcome[m] == s.outcome[m]
  {}

  lemma OldTimeout(y: System, env: Env, i: nat)
    requires SystemInv(y) && y.queue != [] && i < |y.core.processed| && y.core.processed[i].RequestTimeout?
    ensures var s' := ProcessTask(y.core, y.queue[0], env).0;
            var m := y.core.processed[i].reqId;
            m !in s'.pending && m in s'.outcome && m in y.core.outcome && s'.outcome[m] == y.core.outcome[m]
  {
    var s, task := y.core, y.queue[0];
    assert y.All()[|s.processed|] == task && Known(s, task);
    assert y.All()[i] == s.processed[i];
    TaskKeeps(s, task, env);
    assert s.processed[i].reqId !in s.pending && s.processed[i].reqId in s.accepted;
    hide ProcessTask, QueueOk, TimersOk, ClientsOk, Settled, TimeoutsAnswered;
    StaysSettled(s, ProcessTask(s, task, env).0, s.processed[i].reqId);
  }

  /** A processed timeout leaves its request no longer pending, then and later. */
  lemma ProcessedTimeoutsEnd(y: System, env: Env, i: nat)
    requires SystemInv(y) && y.queue != [] && i <= |y.core.processed|
    requires (y.core.processed + [y.queue[0]])[i].RequestTimeout?
    ensures (y.core.processed + [y.queue[0]])[i].reqId !in ProcessTask(y.core, y.queue[0], env).0.pending
  {
    hide SystemInv, ProcessTask;
    if i < |y.core.processed| { OldTimeout(y, env, i); } else { NewTimeout(y.core, y.queue[0].reqId, env); }
  }

  /** A timeout leaves its request no longer pending; if it was answered, that was the server's doing. */
  lemma NewTimeout(s: Core, m: MsgId, env: Env)
    ensures var (s', v) := ProcessTask(s, RequestTimeout(m), env);
            && m !in s'.pending
            && (v == Continue ==> m in s'.outcome && s'.outcome[m].Responded? && s'.outcome[m].author == 0)
  {}

  /** While the loop goes on, every processed timeout was one that the server answered. */
  lemma ProcessedTimeoutsAnswered(y: System, env: Env, i: nat)
    requires SystemInv(y) && y.queue != [] && i <= |y.core.processed| && TimeoutsAnswered(y.core)
    requires (y.core.processed + [y.queue[0]])[i].RequestTimeout? && ProcessTask(y.core, y.queue[0], env).1 == Continue
    ensures var m, s' := (y.core.processed + [y.queue[0]])[i].reqId, ProcessTask(y.core, y.queue[0], env).0;
            m in s'.outcome && s'.outcome[m].Responded? && s'.outcome[m].author == 0
  {
    hide SystemInv, ProcessTask;
    if i < |y.core.processed| { OldTimeout(y, env, i); } else { NewTimeout(y.core, y.queue[0].reqId, env); }
  }

  lemma ProcessTimeouts(y: System, env: Env)
    requires SystemInv(y) && y.queue != []
    ensures var (s', v) := ProcessTask(y.core, y.queue[0], env);
            && (forall i | 0 <= i < |s'.processed| && s'.processed[i].RequestTimeout? ::
                  s'.processed[i].reqId !in s'.pending)
            && (TimeoutsAnswered(y.core) && v == Continue ==> TimeoutsAnswered(s'))
  {
    TaskRecorded(y, env);
    hide SystemInv, ProcessTask;
    var (s', v) := ProcessTask(y.core, y.queue[0], env);
    forall i | 0 <= i < |s'.processed| && s'.processed[i].RequestTimeout? ensures s'.processed[i].reqId !in s'.pending {
      ProcessedTimeoutsEnd(y, env, i);
    }
    if TimeoutsAnswered(y.core) && v == Continue {
      forall i | 0 <= i < |s'.processed| && s'.processed[i].RequestTimeout?
        ensures var m := s'.processed[i].reqId; m in s'.outcome && s'.outcome[m].Responded? && s'.outcome[m].author == 0
      {
        ProcessedTimeoutsAnswered(y, env, i);
      }
    }
  }

  lemma TaskRecorded(y: System, env: Env)
    requires SystemInv(y) && y.queue != []
    ensures ProcessTask(y.core, y.queue[0], env).0.processed == y.core.processed + [y.queue[0]]
  {
    TaskHasEffects(y.core, y.queue[0], env);
    hide SystemInv, Inv, ProcessTask;
  }

  lemma ProcessKeeps(y: System, env: Env)
    requires SystemInv(y) && Enabled(y, Process(env))
    ensures SystemInv(Apply(y, Process(env)))
  {
    hide SystemInv, Inv, QueueOk, TimersOk, ClientsOk, Settled, TimeoutsAnswered, ProcessTask;
    var s' := ProcessTask(y.core, y.queue[0], env).0;
    CoreKeeps(y, env);
    TaskHas(y, env);
    ProcessQueue(y, env, s');
    ProcessClients(y, env);
    ProcessSettles(y, env);
    ProcessTimeouts(y, env);
    AllSettled(s');
    Conclude(Apply(y, Process(env)));
  }

  lemma TaskHas(y: System, env: Env)
    requires SystemInv(y) && y.queue != []
    ensures TaskEffects(y.core, ProcessTask(y.core, y.queue[0], env).0, y.queue[0], env)
    ensures y.status == Running ==> TimeoutsAnswered(y.core)
  {
    hide Inv, QueueOk, TimersOk, ClientsOk, Settled, TimeoutsAnswered, ProcessTask, TaskEffects;
    TaskHasEffects(y.core, y.queue[0], env);
  }

  lemma AllSettled(s: Core)
    requires forall i | 0 <= i < |s.processed| && s.processed[i].Deregister? :: Gone(s, s.processed[i].client)
    requires forall i | 0 <= i < |s.processed| && s.processed[i].RequestTimeout? :: s.processed[i].reqId !in s.pending
    ensures Settled(s)
  {}

  lemma Conclude(y: System)
    requires Inv(y.core, {}) && QueueOk(y.core, y.All(), y.leaving) && TimersOk(y.core, y.All())
    requires ClientsOk(y.core, y.leaving) && Settled(y.core) && (y.status == Running ==> TimeoutsAnswered(y.core))
    ensures SystemInv(y)
  {
    hide Inv, QueueOk, TimersOk, ClientsOk, Settled, TimeoutsAnswered;
  }

  lemma CoreKeeps(y: System, env: Env)
    requires SystemInv(y) && y.queue != []
    ensures Inv(ProcessTask(y.core, y.queue[0], env).0, {})
  {
    assert y.All()[|y.core.processed|] == y.queue[0] && Known(y.core, y.queue[0]);
    hide Inv, LastWords, TimersOk, ClientsOk, Settled, TimeoutsAnswered, ProcessTask;
    TaskKeeps(y.core, y.queue[0], env);
  }

  lemma EventKeeps(y: System, e: Event)
    requires SystemInv(y) && Enabled(y, e)
    ensures SystemInv(Apply(y, e))
  {
    match e {
      case Process(env) => ProcessKeeps(y, env);
      case StopSignal => hide Inv, QueueOk, TimersOk, ClientsOk, Settled, TimeoutsAnswered;
      case _ => hide SystemInv; Enqueued(y, Apply(y, e), NewTask(e)[0]);
    }
  }

  /** What an event puts into the queue; processing takes nothing from the history of tasks. */
  function NewTask(e: Event): seq<Task> {
    match e
    case Connect => [Register]
    case Receive(c, msg) => [Message(c, msg)]
    case Leave(c) => [Deregister(c)]
    case Fire(m) => [RequestTimeout(m)]
    case _ => []
  }

  lemma ProcessAll(y: System, env: Env)
    requires SystemInv(y) && Enabled(y, Process(env))
    ensures Apply(y, Process(env)).All() == y.All()
  {
    TaskHasEffects(y.core, y.queue[0], env);
    assert y.queue == [y.queue[0]] + y.queue[1..];
    hide SystemInv, ProcessTask, Inv;
  }

  lemma AllMoved(y: System, e: Event)
    requires SystemInv(y) && Enabled(y, e)
    ensures Apply(y, e).All() == y.All() + NewTask(e)
  {
    hide SystemInv, ProcessTask;
    match e
    case Process(env) => ProcessAll(y, env);
    case _ =>
  }

  /** In every run, every state satisfies the invariant. */
  lemma {:induction false} Reachable(events: seq<Event>)
    requires IsRun(events)
    ensures SystemInv(StateAfter(events))
    decreases |events|
  {
    if events == [] {
      InitSystemInv();
    } else {
      Reachable(events[..|events| - 1]);
      EventKeeps(StateAfter(events[..|events| - 1]), events[|events| - 1]);
    }
  }
}
