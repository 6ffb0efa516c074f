/** What the server's state means in terms of the messages it has processed: who holds which subscription, who owns
    which topic, and what becomes of pending requests. */
module Bookkeeping {
  import opened Common
  import opened Matching
  import opened Tries
  import opened FlatDirectories
  import opened Topics
  import opened Protocol
  import opened ServerSpec
  import opened ServerInvariants
  import opened ServerEffects
  import opened Systems
  import opened ServerTheorems
  import opened ServerPromises
  import opened Origins

  // ---------- What sending may take away ----------

  /** From `s` to `s'` some clients were removed, with their subscriptions, their topics and their requests. All else
      in the directory stayed, and so did every other pending request, save those in `settled`. */
  ghost predicate Shrinks(s: Core, s': Core, settled: set<MsgId>) {
    var gone := s.senders - s'.senders;
    && s'.senders <= s.senders
    && (forall c: ClientId, p :: (c, p) in s'.dir.subs <==> (c, p) in s.dir.subs && c !in gone)
    && (forall p :: s'.dir.Owner(p) == Surviving(s.dir.Owner(p), gone))
    && (forall m | m in s.pending && m !in settled && !Parted(s.pending[m], gone) ::
          m in s'.pending && s'.pending[m] == s.pending[m])
  }

  function Surviving(owner: Option<ClientId>, gone: set<ClientId>): Option<ClientId> {
    if owner.Some? && owner.value in gone then None else owner
  }

  /** One of the two parties is in `gone`. */
  predicate Parted(p: Pending, gone: set<ClientId>) {
    p.requester in gone || p.responder in gone
  }

  lemma ShrinksTransitive(s: Core, t: Core, u: Core, settled: set<MsgId>)
    requires Shrinks(s, t, settled) && Shrinks(t, u, settled)
    ensures Shrinks(s, u, settled)
  {
    var a, b, all := s.senders - t.senders, t.senders - u.senders, s.senders - u.senders;
    assert all == a + b;
    forall p ensures u.dir.Owner(p) == Surviving(s.dir.Owner(p), all) {
      assert t.dir.Owner(p) == Surviving(s.dir.Owner(p), a) && u.dir.Owner(p) == Surviving(t.dir.Owner(p), b);
    }
    forall c: ClientId, p ensures (c, p) in u.dir.subs <==> (c, p) in s.dir.subs && c !in all {
      assert (c, p) in t.dir.subs <==> (c, p) in s.dir.subs && c !in a;
    }
    forall m | m in s.pending && m !in settled && !Parted(s.pending[m], all)
      ensures m in u.pending && u.pending[m] == s.pending[m]
    {
      assert m in t.pending && t.pending[m] == s.pending[m];
    }
  }

  lemma NothingGone(s: Core, s': Core, settled: set<MsgId>)
    requires s'.senders == s.senders && s'.dir == s.dir
    requires forall m | m in s.pending && m !in settled :: m in s'.pending && s'.pending[m] == s.pending[m]
    ensures Shrinks(s, s', settled)
  {
    assert s.senders - s'.senders == {};
  }

  lemma DeregisterShrinks(s: Core, s': Core, c: ClientId, settled: set<MsgId>)
    requires c in s.senders && s'.senders == s.senders - {c} && s'.dir == s.dir.DropClient(c)
    requires s'.pending == map m | m in s.pending && !Involves(s.pending[m], c) :: s.pending[m]
    ensures Shrinks(s, s', settled)
  {
    assert s.senders - s'.senders == {c};
  }

  lemma DeliverShrinks(s: Core, c: ClientId, x: ProtocolServer, env: Env, settled: set<MsgId>)
    ensures Shrinks(s, Deliver(s, c, x, env).0, settled)
  {
    hide Shrinks;
    var s' := Deliver(s, c, x, env).0;
    if c in s.senders && c in env.leaving && s.nextMsgId in env.failing {
      DeregisterShrinks(s, s', c, settled);
    } else {
      NothingGone(s, s', settled);
    }
  }

  lemma {:induction false} PublishShrinks(s: Core, clients: seq<ClientId>, x: ProtocolServer, env: Env)
    ensures Shrinks(s, PublishTo(s, clients, x, env).0, {})
    decreases |clients|
  {
    hide Shrinks, Deliver;
    NothingGone(s, s, {});
    if clients != [] && clients[0] != 0 {
      var (s1, r) := Deliver(s, clients[0], x, env);
      DeliverShrinks(s, clients[0], x, env, {});
      if r.Ok? {
        PublishShrinks(s1, clients[1..], x, env);
        ShrinksTransitive(s, s1, PublishTo(s1, clients[1..], x, env).0, {});
      }
    }
  }

  lemma RespondShrinks(s: Core, author: ClientId, m: MsgId, status: RspStatus, payload: Payload, env: Env, mine: bool)
    requires mine <==> author == 0 || (m in s.pending && s.pending[m].responder == author)
    ensures Shrinks(s, Respond(s, author, m, status, payload, env).0, if mine then {m} else {})
  {
    hide Shrinks, Deliver;
    var settled, s' := if mine then {m} else {}, Respond(s, author, m, status, payload, env).0;
    NothingGone(s, s, settled);
    if mine && m in s.pending {
      var p := s.pending[m];
      var s1 := s.(pending := s.pending - {m});
      var x := ProtocolServer.Rsp(p.requestId, status, payload);
      var s2 := Deliver(s1, p.requester, x, env).0;
      NothingGone(s, s1, settled);
      DeliverShrinks(s1, p.requester, x, env, settled);
      NothingGone(s2, s', settled);
      ShrinksTransitive(s, s1, s2, settled);
      ShrinksTransitive(s, s2, s', settled);
    }
  }

  lemma RequestShrinks(s: Core, c: ClientId, reqId: MsgId, topic: Topic, payload: Payload, env: Env)
    requires s.nextMsgId !in s.pending
    ensures Shrinks(s, Request(s, c, reqId, topic, payload, env).0, {})
  {
    hide Shrinks, Deliver, Segments;
    NothingGone(s, s, {});
    var owner, s' := s.dir.Owner(Segments(topic)), Request(s, c, reqId, topic, payload, env).0;
    if owner.Some? {
      var x := ProtocolServer.Req(topic, payload);
      var s1 := Deliver(s, owner.value, x, env).0;
      DeliverShrinks(s, owner.value, x, env, {});
      DeliverId(s, owner.value, x, env);
      NothingGone(s1, s', {});
      ShrinksTransitive(s, s1, s', {});
    }
  }

  lemma DeliverId(s: Core, c: ClientId, x: ProtocolServer, env: Env)
    ensures var (s', r) := Deliver(s, c, x, env);
            s'.pending.Keys <= s.pending.Keys && (r.Ok? ==> r.value == s.nextMsgId)
  {}

  // ---------- What one task does to the books ----------

  predicate Asks(task: Task, c: ClientId, p: Pattern) {
    task.Message? && task.client == c && task.msg.content.Sub? && Segments(task.msg.content.topic) == p
  }

  predicate Withdraws(task: Task, c: ClientId, p: Pattern) {
    task.Message? && task.client == c && task.msg.content.Unsub? && Segments(task.msg.content.topic) == p
  }

  predicate Claims(task: Task, p: Pattern) {
    task.Message? && task.msg.content.Srv? && Segments(task.msg.content.topic) == p && Concrete(p)
  }

  /** `task` is the response to the pending request `m`, recorded as `p`, or its timeout. */
  predicate Settles(task: Task, m: MsgId, p: Pending) {
    || task == RequestTimeout(m)
    || (task.Message? && task.client == p.responder && task.msg.content.Rsp? && task.msg.content.reqId == m)
  }

  /** Who lost its registration, or was told to go. */
  function Removed(s: Core, s': Core, task: Task): set<ClientId> {
    s.senders - s'.senders + Dropped(task)
  }

  /** Subscriptions follow the task's Sub or Unsub, and no other changes; a free topic goes to the client that claims
      it, an owned one becomes free when its owner gives it up, and no other changes; every pending request that the
      task does not settle stays as it is. Only removed clients lose more. */
  ghost predicate Books(s: Core, s': Core, task: Task) {
    var gone := Removed(s, s', task);
    && (forall c: ClientId, p :: (c, p) in s'.dir.subs <==>
          c !in gone && (Asks(task, c, p) || ((c, p) in s.dir.subs && !Withdraws(task, c, p))))
    && (forall p :: s'.dir.Owner(p) == Surviving(
          if Claims(task, p) && s.dir.Owner(p).None? then Some(task.client)
          else if s.dir.Owner(p).Some? && GivesUp(task, s.dir.Owner(p).value, p) then None
          else s.dir.Owner(p), gone))
    && (forall m | m in s.pending && !Settles(task, m, s.pending[m]) && !Parted(s.pending[m], gone) ::
          m in s'.pending && s'.pending[m] == s.pending[m])
  }

  lemma BooksThenShrinks(s: Core, s1: Core, s': Core, task: Task)
    requires Books(s, s1, task) && Shrinks(s1, s', {}) && s1.senders <= s.senders
    ensures Books(s, s', task)
  {
    hide Asks, Withdraws, Settles, GivesUp;
    var a, b, all := Removed(s, s1, task), s1.senders - s'.senders, Removed(s, s', task);
    assert all == a + b;
    forall p
      ensures s'.dir.Owner(p) == Surviving(
                if Claims(task, p) && s.dir.Owner(p).None? then Some(task.client)
                else if s.dir.Owner(p).Some? && GivesUp(task, s.dir.Owner(p).value, p) then None
                else s.dir.Owner(p), all)
    {
      assert s'.dir.Owner(p) == Surviving(s1.dir.Owner(p), b);
    }
    forall c: ClientId, p
      ensures (c, p) in s'.dir.subs <==>
                c !in all && (Asks(task, c, p) || ((c, p) in s.dir.subs && !Withdraws(task, c, p)))
    {
      assert (c, p) in s'.dir.subs <==> (c, p) in s1.dir.subs && c !in b;
    }
    forall m | m in s.pending && !Settles(task, m, s.pending[m]) && !Parted(s.pending[m], all)
      ensures m in s'.pending && s'.pending[m] == s.pending[m]
    {
      assert m in s1.pending && s1.pending[m] == s.pending[m];
    }
  }

  /** A task that says nothing about the directory. */
  lemma JustShrinks(s: Core, s': Core, task: Task, settled: set<MsgId>)
    requires Shrinks(s, s', settled) && !task.Deregister?
    requires task.Message? ==>
               var x := task.msg.content; !x.Sub? && !x.Unsub? && !x.Srv? && !x.Unsrv?
    requires forall m | m in s.pending && m in settled :: Settles(task, m, s.pending[m])
    ensures Books(s, s', task)
  {
    assert Removed(s, s', task) == s.senders - s'.senders;
    assert forall p, c: ClientId ::
        !Asks(task, c, p) && !Withdraws(task, c, p) && !Claims(task, p) && !GivesUp(task, c, p);
    hide Segments, Asks, Withdraws, Claims, GivesUp;
  }

  lemma DirectoryBooks(s: Core, c: ClientId, msg: ClientMsg, env: Env)
    requires msg.content.Sub? || msg.content.Unsub? || msg.content.Srv? || msg.content.Unsrv?
    requires WellFormed(s.dir)
    ensures Books(s, Handle(s, c, msg, env).0, Message(c, msg))
    ensures Handle(s, c, msg, env).0.senders == s.senders
  {
    var task, s' := Message(c, msg), Handle(s, c, msg, env).0;
    assert Removed(s, s', task) == {};
    hide Segments;
    forall p
      ensures s'.dir.Owner(p) == Surviving(
                if Claims(task, p) && s.dir.Owner(p).None? then Some(task.client)
                else if s.dir.Owner(p).Some? && GivesUp(task, s.dir.Owner(p).value, p) then None
                else s.dir.Owner(p), {})
    {}
  }

  lemma HandleBooks(s: Core, c: ClientId, msg: ClientMsg, env: Env)
    requires !msg.content.Pub? && c != 0 && WellFormed(s.dir) && s.nextMsgId !in s.pending
    ensures Books(s, Handle(s, c, msg, env).0, Message(c, msg)) && Handle(s, c, msg, env).0.senders <= s.senders
  {
    hide Books, Shrinks, Request, Respond;
    var task, x, s' := Message(c, msg), msg.content, Handle(s, c, msg, env).0;
    if x.Req? {
      RequestShrinks(s, c, msg.id, x.topic, x.payload, env);
      JustShrinks(s, s', task, {});
      ShrinksSenders(s, s', {});
    } else if x.Rsp? {
      var mine := x.reqId in s.pending && s.pending[x.reqId].responder == c;
      RespondShrinks(s, c, x.reqId, x.status, x.payload, env, mine);
      JustShrinks(s, s', task, if mine then {x.reqId} else {});
      ShrinksSenders(s, s', if mine then {x.reqId} else {});
    } else if x.Stop? || x.KeepAlive? {
      NothingGone(s, s', {});
      JustShrinks(s, s', task, {});
    } else {
      DirectoryBooks(s, c, msg, env);
    }
  }

  lemma MessageBooks(s: Core, c: ClientId, msg: ClientMsg, env: Env)
    requires c != 0 && WellFormed(s.dir) && s.nextMsgId !in s.pending
    ensures Books(s, ProcessMsg(s, c, msg, env).0, Message(c, msg))
  {
    hide Books, Shrinks, Handle, PublishTo, Deliver, ProcessMsg;
    var task, s' := Message(c, msg), ProcessMsg(s, c, msg, env).0;
    var (s1, ack) := BeforeAck(s, c, msg, env);
    AckComesLast(s, c, msg, env);
    if msg.content.Pub? {
      PublishShrinks(s, env.order, ProtocolServer.Pub(msg.content.topic, msg.content.payload), env);
      JustShrinks(s, s1, task, {});
      ShrinksSenders(s, s1, {});
    } else {
      HandleBooks(s, c, msg, env);
    }
    if ack.Some? {
      DeliverShrinks(s1, c, ack.value, env, {});
      BooksThenShrinks(s, s1, s', task);
    }
  }

  lemma ShrinksSenders(s: Core, s': Core, settled: set<MsgId>)
    requires Shrinks(s, s', settled)
    ensures s'.senders <= s.senders
  {}

  /** Every task keeps the books. */
  lemma TaskBooks(s: Core, task: Task, env: Env)
    requires WellFormed(s.dir) && s.nextMsgId !in s.pending && (task.Message? ==> task.client != 0)
    ensures Books(s, ProcessTask(s, task, env).0, task)
  {
    hide Books, Shrinks, ProcessMsg, Respond;
    var s0, s' := s.(processed := s.processed + [task]), ProcessTask(s, task, env).0;
    match task {
      case Register => RegisterBooks(s, s');
      case Deregister(c) => DroppedBooks(s, s', c);
      case Message(c, msg) =>
        MessageBooks(s0, c, msg, env);
        SameBooks(s, s0, s', task);
      case RequestTimeout(m) =>
        RespondShrinks(s0, 0, m, Timeout, [], env, true);
        JustShrinks(s0, s', task, {m});
        SameBooks(s, s0, s', task);
    }
  }

  lemma RegisterBooks(s: Core, s': Core)
    requires s.senders <= s'.senders && s'.dir == s.dir && s'.pending == s.pending
    ensures Books(s, s', Register)
  {
    assert Removed(s, s', Register) == {};
  }

  lemma SameBooks(s: Core, s0: Core, s': Core, task: Task)
    requires s0.senders == s.senders && s0.dir == s.dir && s0.pending == s.pending && Books(s0, s', task)
    ensures Books(s, s', task)
  {
    hide Asks, Withdraws, Settles, GivesUp;
  }

  lemma DroppedBooks(s: Core, s': Core, c: ClientId)
    requires s'.senders == s.senders - {c} && s'.dir == s.dir.DropClient(c)
    requires s'.pending == map m | m in s.pending && !Involves(s.pending[m], c) :: s.pending[m]
    ensures Books(s, s', Deregister(c))
  {
    assert Removed(s, s', Deregister(c)) == {c};
  }

  // ---------- Over runs ----------

  /** The state before and after event `k`. */
  function Before(events: seq<Event>, k: nat): Core
    requires k <= |events|
  {
    StateAfter(events[..k]).core
  }

  /** Event `k` processed a task. */
  ghost predicate Processes(events: seq<Event>, k: nat) {
    k < |events| && events[k].Process? && StateAfter(events[..k]).queue != []
  }

  lemma BooksOf(events: seq<Event>, k: nat)
    requires IsRun(events) && Processes(events, k)
    ensures Books(Before(events, k), Before(events, k + 1), TaskAt(events, k))
    ensures Before(events, k + 1).processed == Before(events, k).processed + [TaskAt(events, k)]
    ensures var task := TaskAt(events, k);
            task.Message? ==> task.client != 0 && task.client in Before(events, k).sent
  {
    hide IsRun, StateAfter, Enabled, SystemInv, Books, ProcessTask;
    var y := StateAfter(events[..k]);
    UpTo(events, k);
    Reachable(events[..k]);
    ReadyForTask(y);
    TaskBooks(y.core, y.queue[0], events[k].env);
    TaskRecorded(y, events[k].env);
  }

  lemma ReadyForTask(y: System)
    requires SystemInv(y) && y.queue != []
    ensures WellFormed(y.core.dir) && y.core.nextMsgId !in y.core.pending && Inv(y.core, {})
    ensures y.queue[0].Message? ==> y.queue[0].client != 0 && y.queue[0].client in y.core.sent
  {
    FreshId(y.core, {});
    assert y.All()[|y.core.processed|] == y.queue[0] && Known(y.core, y.queue[0]);
    hide Past;
  }

  // ---------- Subscriptions ----------

  /** The client's last word on the pattern was a Sub. */
  ghost predicate LastWordIsSub(processed: seq<Task>, c: ClientId, p: Pattern) {
    exists i :: 0 <= i < |processed| && Asks(processed[i], c, p)
                && forall j | i < j < |processed| :: !Withdraws(processed[j], c, p)
  }

  lemma LastWordSnoc(processed: seq<Task>, task: Task, c: ClientId, p: Pattern)
    ensures LastWordIsSub(processed + [task], c, p) <==>
              Asks(task, c, p) || (LastWordIsSub(processed, c, p) && !Withdraws(task, c, p))
  {
    hide Asks, Withdraws;
    var all := processed + [task];
    if LastWordIsSub(processed, c, p) && !Withdraws(task, c, p) {
      var i :| 0 <= i < |processed| && Asks(processed[i], c, p)
               && forall j | i < j < |processed| :: !Withdraws(processed[j], c, p);
      assert all[i] == processed[i] && forall j | i < j < |all| :: !Withdraws(all[j], c, p);
    }
    if Asks(task, c, p) { assert all[|processed|] == task; }
    if LastWordIsSub(all, c, p) {
      var i :| 0 <= i < |all| && Asks(all[i], c, p) && forall j | i < j < |all| :: !Withdraws(all[j], c, p);
      if i < |processed| {
        assert Asks(processed[i], c, p) && forall j | i < j < |processed| :: !Withdraws(processed[j], c, p) by {
          assert forall j | 0 <= j < |processed| :: all[j] == processed[j];
        }
        assert all[|processed|] == task;
      }
    }
  }

  /** A client that is new has said nothing yet, and holds nothing. */
  lemma NewcomerIsBlank(y: System, c: ClientId, p: Pattern)
    requires SystemInv(y) && c != 0 && c !in y.core.sent
    ensures (c, p) !in y.core.dir.subs && !LastWordIsSub(y.core.processed, c, p)
  {
    assert Gone(y.core, c);
    assert forall i | 0 <= i < |y.core.processed| :: y.All()[i] == y.core.processed[i] && Known(y.core, y.All()[i]);
    hide Inv;
  }

  /** As long as a client is registered, it holds a pattern exactly when the last of its processed Sub and Unsub
      messages on that pattern was a Sub. */
  lemma {:induction false} HoldsWhatItAsked(events: seq<Event>, c: ClientId, p: Pattern)
    requires IsRun(events) && c in StateAfter(events).core.senders
    ensures var s := StateAfter(events).core; (c, p) in s.dir.subs <==> LastWordIsSub(s.processed, c, p)
    decreases |events|
  {
    assert events != [];
    hide IsRun, StateAfter, Enabled, Apply, SystemInv, LastWordIsSub, Books;
    var k := |events| - 1;
    var before := events[..k];
    var y := StateAfter(before);
    assert events[..k + 1] == events;
    UpTo(events, k);
    Reachable(before);
    if Processes(events, k) {
      BooksOf(events, k);
      LastWordSnoc(y.core.processed, TaskAt(events, k), c, p);
      StaysOrComes(events, k, c);
      if c in y.core.senders { HoldsWhatItAsked(before, c, p); } else { NewcomerIsBlank(y, c, p); }
      HeldAfter(y.core, StateAfter(events).core, TaskAt(events, k), c, p);
    } else {
      NothingProcessed(y, events[k]);
      HoldsWhatItAsked(before, c, p);
    }
  }

  lemma HeldAfter(s: Core, s': Core, task: Task, c: ClientId, p: Pattern)
    requires Books(s, s', task) && c in s'.senders && task != Deregister(c)
    ensures (c, p) in s'.dir.subs <==> Asks(task, c, p) || ((c, p) in s.dir.subs && !Withdraws(task, c, p))
  {
    hide Asks, Withdraws;
  }

  lemma NothingProcessed(y: System, e: Event)
    requires !(e.Process? && y.queue != [])
    ensures var s, s' := y.core, Apply(y, e).core; s' == s.(timers := s'.timers)
  {
    hide ProcessTask;
  }

  /** Who is registered after a task was so before, or has just been registered; and it was not told to go. */
  lemma StaysOrComes(events: seq<Event>, k: nat, c: ClientId)
    requires IsRun(events) && Processes(events, k) && c in Before(events, k + 1).senders
    ensures TaskAt(events, k) != Deregister(c)
    ensures c in Before(events, k).senders || (c != 0 && c !in Before(events, k).sent)
  {
    hide IsRun, StateAfter, Enabled, SystemInv, ProcessTask;
    UpTo(events, k);
    Reachable(events[..k]);
    InvAfter(events[..k + 1]);
    SenderKnown(StateAfter(events[..k]), events[k].env, c);
  }

  lemma SenderKnown(y: System, env: Env, c: ClientId)
    requires SystemInv(y) && y.queue != [] && c in ProcessTask(y.core, y.queue[0], env).0.senders
    ensures y.queue[0] != Deregister(c)
    ensures c in y.core.senders || (c != 0 && c !in y.core.sent)
  {
    TaskHasEffects(y.core, y.queue[0], env);
    FreshClient(y.core);
    ReadyForTask(y);
    if y.queue[0] == Deregister(c) { DeregisterShape(y.core.(processed := y.core.processed + [y.queue[0]]), c); }
    hide SystemInv;
  }

  // ---------- Owners ----------

  /** Who owns a topic after a task: a claim takes a free topic, its owner's Unsrv frees it, and the removal of its
      owner frees it; nothing else changes it. */
  lemma OwnerAfter(events: seq<Event>, k: nat, p: Pattern)
    requires IsRun(events) && Processes(events, k)
    ensures var s, s', task := Before(events, k), Before(events, k + 1), TaskAt(events, k);
            var was, now := s.dir.Owner(p), s'.dir.Owner(p);
            if Claims(task, p) && was.None?
            then now == if task.client in Removed(s, s', task) then None else Some(task.client)
            else if was.Some? && (GivesUp(task, was.value, p) || was.value in Removed(s, s', task)) then now == None
            else now == was
  {
    BooksOf(events, k);
    hide IsRun, StateAfter, Processes, Claims, GivesUp, Removed;
  }

  /** Event `j` processed no claim of the topic. */
  ghost predicate NoClaim(events: seq<Event>, j: nat, p: Pattern) {
    Processes(events, j) ==> !Claims(TaskAt(events, j), p)
  }

  lemma {:induction false} StaysFree(events: seq<Event>, n: nat, l: nat, p: Pattern)
    requires IsRun(events) && n <= l <= |events| && Before(events, n).dir.Owner(p) == None
    requires forall j | n <= j < l :: NoClaim(events, j, p)
    ensures Before(events, l).dir.Owner(p) == None
    decreases l
  {
    hide IsRun, StateAfter, Claims, GivesUp, Removed, Enabled, Apply;
    if n < l {
      StaysFree(events, n, l - 1, p);
      assert NoClaim(events, l - 1, p);
      UpTo(events, l - 1);
      if Processes(events, l - 1) {
        OwnerAfter(events, l - 1, p);
      } else {
        NothingProcessed(StateAfter(events[..l - 1]), events[l - 1]);
      }
    }
  }

  /** What its owner gives up is free for whoever claims it next. Event `k` processed the owner's Unsrv, event `l` the
      first claim after that: then the claimer owns the topic, unless that very event removed it. */
  lemma FreedForNext(events: seq<Event>, k: nat, l: nat, p: Pattern)
    requires IsRun(events) && k < l && Processes(events, k) && Processes(events, l)
    requires Before(events, k).dir.Owner(p).Some? && GivesUp(TaskAt(events, k), Before(events, k).dir.Owner(p).value, p)
    requires Claims(TaskAt(events, l), p) && forall j | k < j < l :: NoClaim(events, j, p)
    ensures Before(events, k + 1).dir.Owner(p) == None
    ensures var s, s', task := Before(events, l), Before(events, l + 1), TaskAt(events, l);
            s.dir.Owner(p) == None
            && s'.dir.Owner(p) == if task.client in Removed(s, s', task) then None else Some(task.client)
  {
    OwnerAfter(events, k, p);
    hide IsRun, StateAfter, Processes, Removed;
    StaysFree(events, k + 1, l, p);
    OwnerAfter(events, l, p);
  }

  // ---------- Pending requests ----------

  /** A pending request stays as it is through every task but its own response or timeout, as long as neither of its
      parties is removed. */
  lemma PendingStays(events: seq<Event>, k: nat, m: MsgId)
    requires IsRun(events) && Processes(events, k) && m in Before(events, k).pending
    requires var s, s', task := Before(events, k), Before(events, k + 1), TaskAt(events, k);
             var r := s.pending[m];
             !Settles(task, m, r) && r.requester !in Removed(s, s', task) && r.responder !in Removed(s, s', task)
    ensures var s, s' := Before(events, k), Before(events, k + 1); m in s'.pending && s'.pending[m] == s.pending[m]
  {
    BooksOf(events, k);
    hide IsRun, StateAfter, Processes, Settles, Removed;
  }

  /** A client that is registered after a task was not removed by it. */
  lemma RegisteredNotRemoved(events: seq<Event>, k: nat, c: ClientId)
    requires IsRun(events) && Processes(events, k) && c in Before(events, k + 1).senders
    ensures c !in Removed(Before(events, k), Before(events, k + 1), TaskAt(events, k))
  {
    StaysOrComes(events, k, c);
    hide IsRun, StateAfter, Processes;
  }

  /** A request is cancelled only if its requester or its responder is no longer registered. */
  lemma CancelledMeansGone(events: seq<Event>, m: MsgId)
    requires IsRun(events)
    ensures var s := StateAfter(events).core;
            m in s.outcome && s.outcome[m] == Cancelled ==>
              m in s.accepted && !(s.accepted[m].requester in s.senders && s.accepted[m].responder in s.senders)
  {
    InvAfter(events);
    hide IsRun, StateAfter, Past;
  }
}
