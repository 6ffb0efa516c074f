/** The server's end of one client: it moves messages between the client's connection and the core, and
    announces the client's departure last of all. */
module ClientStubs {
  import opened Common
  import opened Tries
  import opened Protocol
  import opened ServerSpec
  import opened Systems

  /** What wakes the stub. What the client sends may be unreadable, the core may be gone when a message for it
      arrives, and a message from the core may fail to reach the connection. */
  datatype Wake =
    | FromClient(msg: ClientMsg, accepted: bool)
    | ConnectionClosed
    | ReadFailed
    | FromCore(out: ServerMsg, written: bool)
    | CoreClosed
    | KeepAliveExpired

  datatype StubError = ChannelClosed | Unreadable | CoreGone | NotWritten | ClientTimeout(client: ClientId)

  predicate Ends(wake: Wake) {
    !(wake.FromClient? && wake.accepted) && !(wake.FromCore? && wake.written)
  }

  function EndOf(wake: Wake, c: ClientId): Result<(), StubError> {
    match wake
    case FromClient(_, _) => Err(CoreGone)
    case ConnectionClosed => Err(ChannelClosed)
    case ReadFailed => Err(Unreadable)
    case KeepAliveExpired => Err(ClientTimeout(c))
    case FromCore(_, _) => Err(NotWritten)
    case _ => Ok(())
  }

  /** The messages from the client, in order, as tasks. */
  function Tasks(wakes: seq<Wake>, c: ClientId): seq<Task> {
    if wakes == [] then []
    else
      var last := wakes[|wakes| - 1];
      Tasks(wakes[..|wakes| - 1], c) + if last.FromClient? then [Message(c, last.msg)] else []
  }

  /** The messages from the core, in order. */
  function Forwarded(wakes: seq<Wake>): seq<ServerMsg> {
    if wakes == [] then []
    else
      var last := wakes[|wakes| - 1];
      Forwarded(wakes[..|wakes| - 1]) + if last.FromCore? then [last.out] else []
  }

  /** A message for the client, or one of the client's. */
  predicate IsOf(wake: Wake, fromCore: bool) {
    if fromCore then wake.FromCore? else wake.FromClient?
  }

  /** `places` are the places of the core's messages among the wakes, or of the client's, in order. */
  ghost predicate Picks(wakes: seq<Wake>, places: seq<nat>, fromCore: bool) {
    && (forall j | 0 <= j < |places| :: places[j] < |wakes| && IsOf(wakes[places[j]], fromCore))
    && (forall i, j | 0 <= i < j < |places| :: places[i] < places[j])
    && (forall w: nat | w < |wakes| && IsOf(wakes[w], fromCore) :: w in places)
  }

  lemma FirstPlace(wakes: seq<Wake>, places: seq<nat>, fromCore: bool)
    requires Picks(wakes, places, fromCore)
    ensures places == [] || places[0] < |wakes|
  {}

  lemma PlacesBelow(wakes: seq<Wake>, places: seq<nat>, fromCore: bool)
    requires wakes != [] && Picks(wakes, places, fromCore)
    ensures forall j | 0 <= j < |places| :: places[j] < |wakes| && IsOf(wakes[places[j]], fromCore)
    ensures forall j | 0 <= j < |places| && !(j == |places| - 1 && IsOf(wakes[|wakes| - 1], fromCore)) ::
              places[j] < |wakes| - 1
  {
    hide IsOf;
    var n := |places|;
    forall j | 0 <= j < n && !(j == n - 1 && IsOf(wakes[|wakes| - 1], fromCore)) ensures places[j] < |wakes| - 1 {
      assert IsOf(wakes[places[j]], fromCore);
      if j < n - 1 { assert places[j] < places[n - 1] && places[n - 1] < |wakes|; }
    }
  }

  lemma PicksFront(wakes: seq<Wake>, places: seq<nat>, fromCore: bool)
    requires wakes != [] && Picks(wakes, places, fromCore)
    ensures var k, n := |wakes| - 1, |places|;
            if IsOf(wakes[k], fromCore) then n > 0 && places[n - 1] == k && Picks(wakes[..k], places[..n - 1], fromCore)
            else Picks(wakes[..k], places, fromCore)
  {
    hide Picks, IsOf;
    var k := |wakes| - 1;
    if IsOf(wakes[k], fromCore) {
      LastIsPicked(wakes, places, fromCore);
      PickedFront(wakes, places, places[..|places| - 1], fromCore);
    } else {
      PickedFront(wakes, places, places, fromCore);
    }
  }

  lemma LastIsPicked(wakes: seq<Wake>, places: seq<nat>, fromCore: bool)
    requires wakes != [] && Picks(wakes, places, fromCore) && IsOf(wakes[|wakes| - 1], fromCore)
    ensures places != [] && places[|places| - 1] == |wakes| - 1
  {
    var n := |places|;
    var j :| 0 <= j < n && places[j] == |wakes| - 1;
    assert places[n - 1] < |wakes| && forall i | 0 <= i < n - 1 :: places[i] < places[n - 1];
  }

  lemma PickedFront(wakes: seq<Wake>, places: seq<nat>, front: seq<nat>, fromCore: bool)
    requires wakes != [] && Picks(wakes, places, fromCore)
    requires if IsOf(wakes[|wakes| - 1], fromCore)
             then places != [] && places[|places| - 1] == |wakes| - 1 && front == places[..|places| - 1]
             else front == places
    ensures Picks(wakes[..|wakes| - 1], front, fromCore)
  {
    hide IsOf;
    var k := |wakes| - 1;
    PlacesBelow(wakes, places, fromCore);
    forall w: nat | w < k && IsOf(wakes[..k][w], fromCore) ensures w in front {
      assert IsOf(wakes[w], fromCore);
      var i :| 0 <= i < |places| && places[i] == w;
      assert front[i] == w;
    }
    assert forall j | 0 <= j < |front| :: front[j] == places[j] && places[j] < k;
  }

  lemma ForwardedUnfolded(wakes: seq<Wake>)
    ensures var k := |wakes| - 1;
            Forwarded(wakes) == if wakes == [] then []
                                else Forwarded(wakes[..k]) + if wakes[k].FromCore? then [wakes[k].out] else []
  {}

  lemma TasksUnfolded(wakes: seq<Wake>, c: ClientId)
    ensures var k := |wakes| - 1;
            Tasks(wakes, c) == if wakes == [] then []
                               else Tasks(wakes[..k], c)
                                    + if wakes[k].FromClient? then [Message(c, wakes[k].msg)] else []
  {}

  /** Each of the core's messages is forwarded, once and in order. */
  lemma {:induction false} ForwardedByPlace(wakes: seq<Wake>, places: seq<nat>)
    requires Picks(wakes, places, true)
    ensures |Forwarded(wakes)| == |places|
    ensures forall j | 0 <= j < |places| :: places[j] < |wakes| && wakes[places[j]].FromCore?
    ensures forall j | 0 <= j < |places| :: Forwarded(wakes)[j] == wakes[places[j]].out
    decreases |wakes|
  {
    hide Picks, Forwarded;
    ForwardedUnfolded(wakes);
    if wakes == [] {
      FirstPlace(wakes, places, true);
    } else {
      var k, n := |wakes| - 1, |places|;
      PicksFront(wakes, places, true);
      PlacesBelow(wakes, places, true);
      var front := if wakes[k].FromCore? then places[..n - 1] else places;
      ForwardedByPlace(wakes[..k], front);
      forall j | 0 <= j < n ensures Forwarded(wakes)[j] == wakes[places[j]].out {
        if j < |front| { assert front[j] == places[j] && wakes[..k][front[j]] == wakes[places[j]]; }
      }
    }
  }

  /** Each of the client's messages becomes a task, once and in order. */
  lemma {:induction false} TasksByPlace(wakes: seq<Wake>, c: ClientId, places: seq<nat>)
    requires Picks(wakes, places, false)
    ensures |Tasks(wakes, c)| == |places|
    ensures forall j | 0 <= j < |places| :: places[j] < |wakes| && wakes[places[j]].FromClient?
    ensures forall j | 0 <= j < |places| :: Tasks(wakes, c)[j] == Message(c, wakes[places[j]].msg)
    decreases |wakes|
  {
    hide Picks, Tasks;
    TasksUnfolded(wakes, c);
    if wakes == [] {
      FirstPlace(wakes, places, false);
    } else {
      var k, n := |wakes| - 1, |places|;
      PicksFront(wakes, places, false);
      PlacesBelow(wakes, places, false);
      var front := if wakes[k].FromClient? then places[..n - 1] else places;
      TasksByPlace(wakes[..k], c, front);
      forall j | 0 <= j < n ensures Tasks(wakes, c)[j] == Message(c, wakes[places[j]].msg) {
        if j < |front| { assert front[j] == places[j] && wakes[..k][front[j]] == wakes[places[j]]; }
      }
    }
  }

  /** `out` is what the core's messages among the wakes are, place by place, ... */
  ghost predicate Conveys(out: seq<ServerMsg>, wakes: seq<Wake>) {
    forall places: seq<nat> | Picks(wakes, places, true) ::
      |out| == |places| && forall j | 0 <= j < |places| :: out[j] == wakes[places[j]].out
  }

  /** ... and `tasks` is what the client's are. */
  ghost predicate Submits(tasks: seq<Task>, wakes: seq<Wake>, c: ClientId) {
    forall places: seq<nat> | Picks(wakes, places, false) ::
      |tasks| == |places| && forall j | 0 <= j < |places| :: tasks[j] == Message(c, wakes[places[j]].msg)
  }

  lemma BothWays(wakes: seq<Wake>, c: ClientId)
    ensures Conveys(Forwarded(wakes), wakes) && Submits(Tasks(wakes, c), wakes, c)
  {
    forall places: seq<nat> | Picks(wakes, places, true)
      ensures |Forwarded(wakes)| == |places|
      ensures forall j | 0 <= j < |places| :: Forwarded(wakes)[j] == wakes[places[j]].out
    {
      ForwardedByPlace(wakes, places);
    }
    forall places: seq<nat> | Picks(wakes, places, false)
      ensures |Tasks(wakes, c)| == |places|
      ensures forall j | 0 <= j < |places| :: Tasks(wakes, c)[j] == Message(c, wakes[places[j]].msg)
    {
      TasksByPlace(wakes, c, places);
    }
  }

  /** There always are such places. */
  lemma {:induction false} PlacesExist(wakes: seq<Wake>, fromCore: bool) returns (places: seq<nat>)
    ensures Picks(wakes, places, fromCore)
    decreases |wakes|
  {
    if wakes == [] {
      places := [];
    } else {
      var k := |wakes| - 1;
      var before := PlacesExist(wakes[..k], fromCore);
      places := if IsOf(wakes[k], fromCore) then before + [k] else before;
      OneMorePlace(wakes, before, places, fromCore);
    }
  }

  lemma OneMorePlace(wakes: seq<Wake>, before: seq<nat>, places: seq<nat>, fromCore: bool)
    requires wakes != [] && Picks(wakes[..|wakes| - 1], before, fromCore)
    requires places == if IsOf(wakes[|wakes| - 1], fromCore) then before + [|wakes| - 1] else before
    ensures Picks(wakes, places, fromCore)
  {
    var k := |wakes| - 1;
    assert forall j | 0 <= j < |before| :: wakes[..k][before[j]] == wakes[before[j]];
    forall w: nat | w < |wakes| && IsOf(wakes[w], fromCore) ensures w in places {
      if w < k {
        assert IsOf(wakes[..k][w], fromCore) && w in before;
      } else {
        assert places[|before|] == w;
      }
    }
  }

  /** The way to the client, from the core's channel to the connection: if the core hands over the first messages of
      the client's channel, in order, then just these are what a stub with a new connection writes to it. */
  lemma ConnectionCarries(events: seq<Event>, c: ClientId, wakes: seq<Wake>, places: seq<nat>, written: seq<ServerMsg>)
    requires IsRun(events) && Picks(wakes, places, true) && |places| <= |StateAfter(events).core.Channel(c)|
    requires forall j | 0 <= j < |places| :: wakes[places[j]].out == StateAfter(events).core.Channel(c)[j]
    requires Conveys(written, wakes)
    ensures written == StateAfter(events).core.Channel(c)[..|places|]
  {}

  class ClientStub {
    const id: ClientId
    var tasks: seq<Task>           // everything sent to the core
    var transport: seq<ServerMsg>  // everything written to the connection

    constructor (client: ClientId)
      ensures id == client && tasks == [] && transport == []
    {
      id, tasks, transport := client, [], [];
    }

    /** The loop: until something ends it, or for as long as `wakes` goes on. */
    method Relay(wakes: seq<Wake>) returns (ended: Option<Result<(), StubError>>, n: nat)
      modifies this
      ensures n <= |wakes| && (forall i | 0 <= i < n :: !Ends(wakes[i])) && (n < |wakes| ==> Ends(wakes[n]))
      ensures ended == if n < |wakes| then Some(EndOf(wakes[n], id)) else None
      ensures tasks == old(tasks) + Tasks(wakes[..n], id)
      ensures transport == old(transport) + Forwarded(wakes[..n])
      ensures old(transport) <= transport && Conveys(transport[|old(transport)|..], wakes[..n])
      ensures old(tasks) <= tasks && Submits(tasks[|old(tasks)|..], wakes[..n], id)
      ensures n < |wakes| ==>
                && (wakes[n].ConnectionClosed? ==> ended == Some(Err(ChannelClosed)))
                && (wakes[n].ReadFailed? ==> ended == Some(Err(Unreadable)))
                && (wakes[n].KeepAliveExpired? ==> ended == Some(Err(ClientTimeout(id))))
                && (wakes[n].FromClient? ==> ended == Some(Err(CoreGone)))
                && (wakes[n].FromCore? ==> ended == Some(Err(NotWritten)))
                && (wakes[n].CoreClosed? ==> ended == Some(Ok(())))
    {
      hide Conveys, Submits;
      n, ended := 0, None;
      while n < |wakes| && ended.None?
        decreases |wakes| - n, if ended.None? then 1 else 0
        invariant 0 <= n <= |wakes| && forall i | 0 <= i < n :: !Ends(wakes[i])
        invariant ended.Some? ==> n < |wakes| && Ends(wakes[n]) && ended.value == EndOf(wakes[n], id)
        invariant tasks == old(tasks) + Tasks(wakes[..n], id)
        invariant transport == old(transport) + Forwarded(wakes[..n])
      {
        assert wakes[..n + 1][..n] == wakes[..n];
        match wakes[n] {
          case FromClient(msg, accepted) =>
            if accepted { tasks := tasks + [Message(id, msg)]; } else { ended := Some(Err(CoreGone)); }
          case ConnectionClosed => ended := Some(Err(ChannelClosed));
          case ReadFailed => ended := Some(Err(Unreadable));
          case FromCore(msg, written) =>
            if written { transport := transport + [msg]; } else { ended := Some(Err(NotWritten)); }
          case CoreClosed => ended := Some(Ok(()));
          case KeepAliveExpired => ended := Some(Err(ClientTimeout(id)));
        }
        n := if ended.None? then n + 1 else n;
      }
      assert transport[|old(transport)|..] == Forwarded(wakes[..n]) && tasks[|old(tasks)|..] == Tasks(wakes[..n], id);
      BothWays(wakes[..n], id);
    }

    /** However the loop ends, the Deregister is enqueued then: once, and after every message. If the core is gone
        by then, that is the error. */
    method Serve(wakes: seq<Wake>, coreGone: bool) returns (ended: Option<Result<(), StubError>>, n: nat)
      modifies this
      ensures n <= |wakes| && (forall i | 0 <= i < n :: !Ends(wakes[i])) && (n < |wakes| ==> Ends(wakes[n]))
      ensures ended == if n == |wakes| then None else Some(if coreGone then Err(CoreGone) else EndOf(wakes[n], id))
      ensures tasks == old(tasks) + Tasks(wakes[..n], id) + if ended.Some? && !coreGone then [Deregister(id)] else []
      ensures transport == old(transport) + Forwarded(wakes[..n])
      ensures old(transport) <= transport && Conveys(transport[|old(transport)|..], wakes[..n])
    {
      ended, n := Relay(wakes);
      if ended.Some? {
        if coreGone {
          return Some(Err(CoreGone)), n;
        }
        tasks := tasks + [Deregister(id)];
      }
    }
  }

  // ---------- Stubs and the system's events ----------

  /** The tasks of one client among all that were ever enqueued, in order. */
  function OwnTasks(all: seq<Task>, c: ClientId): seq<Task> {
    if all == [] then []
    else
      var last := all[|all| - 1];
      OwnTasks(all[..|all| - 1], c)
      + if last == Deregister(c) || (last.Message? && last.client == c) then [last] else []
  }

  /** Nothing of the client's. */
  predicate Foreign(news: seq<Task>, c: ClientId) {
    |news| <= 1 && forall t | t in news :: t != Deregister(c) && !(t.Message? && t.client == c)
  }

  lemma OwnTasksSnoc(all: seq<Task>, news: seq<Task>, c: ClientId)
    requires |news| <= 1
    ensures OwnTasks(all + news, c) == OwnTasks(all, c) + if Foreign(news, c) then [] else news
  {
    if news == [] {
      assert all + news == all;
    } else {
      assert (all + news)[..|all|] == all && news == [news[0]];
    }
  }

  /** What a stub that was woken like this has enqueued so far, and, once it left, all that it ever enqueues. */
  function Enqueued(wakes: seq<Wake>, left: bool, c: ClientId): seq<Task> {
    Tasks(wakes, c) + if left then [Deregister(c)] else []
  }

  lemma TasksSnoc(wakes: seq<Wake>, msg: ClientMsg, c: ClientId)
    ensures Tasks(wakes + [FromClient(msg, true)], c) == Tasks(wakes, c) + [Message(c, msg)]
  {
    assert (wakes + [FromClient(msg, true)])[..|wakes|] == wakes;
  }

  function OwnNews(e: Event, c: ClientId): seq<Task> {
    if (e.Receive? || e.Leave?) && e.client == c then NewTask(e) else []
  }

  lemma EventTasks(y: System, e: Event, c: ClientId)
    requires SystemInv(y) && Enabled(y, e)
    ensures var y' := Apply(y, e);
            && OwnTasks(y'.All(), c) == OwnTasks(y.All(), c) + OwnNews(e, c)
            && (c in y'.leaving <==> c in y.leaving || e == Leave(c))
            && (c in y.leaving ==> !(e.Receive? && e.client == c) && e != Leave(c))
  {
    hide SystemInv, System.All, ProcessTask, OwnTasks;
    AllMoved(y, e);
    OwnTasksSnoc(y.All(), NewTask(e), c);
  }

  /** Every run treats every client as some stub of its own would: whatever else happens in between, the client's
      tasks are what `Serve` enqueues for these wakes, in order, with the Deregister last. */
  lemma {:induction false} EveryClientHasStub(events: seq<Event>, c: ClientId) returns (wakes: seq<Wake>)
    requires IsRun(events)
    ensures forall i | 0 <= i < |wakes| :: !Ends(wakes[i])
    ensures var y := StateAfter(events); OwnTasks(y.All(), c) == Enqueued(wakes, c in y.leaving, c)
    decreases |events|
  {
    hide SystemInv, System.All, Apply, Enabled;
    if events == [] {
      wakes := [];
      NothingYet(c);
    } else {
      hide OwnTasks, Tasks;
      var before, e := events[..|events| - 1], events[|events| - 1];
      wakes := EveryClientHasStub(before, c);
      Reachable(before);
      EventTasks(StateAfter(before), e, c);
      if e.Receive? && e.client == c {
        TasksSnoc(wakes, e.msg, c);
        wakes := wakes + [FromClient(e.msg, true)];
      }
    }
  }

  lemma NothingYet(c: ClientId)
    ensures OwnTasks(Init().All(), c) == Enqueued([], false, c) && c !in Init().leaving
  {}

  /** And every stub may go on as its code does: in any run in which the client is present and its stub has not
      left, whatever happened in between, the next message or the departure is an event of the system, and puts
      into the queue what the stub enqueues. */
  lemma StubTakesPart(events: seq<Event>, wakes: seq<Wake>, c: ClientId, msg: ClientMsg)
    requires IsRun(events) && c in StateAfter(events).core.sent
    requires OwnTasks(StateAfter(events).All(), c) == Enqueued(wakes, false, c)
    ensures var e, now := Receive(c, msg), wakes + [FromClient(msg, true)];
            IsRun(events + [e]) && OwnTasks(StateAfter(events + [e]).All(), c) == Enqueued(now, false, c)
    ensures IsRun(events + [Leave(c)])
            && OwnTasks(StateAfter(events + [Leave(c)]).All(), c) == Enqueued(wakes, true, c)
  {
    hide IsRun, StateAfter, SystemInv, System.All, Apply, OwnTasks, Tasks;
    var y := StateAfter(events);
    NotLeaving(events, wakes, c);
    Reachable(events);
    Continues(events, Receive(c, msg));
    Continues(events, Leave(c));
    EventTasks(y, Receive(c, msg), c);
    EventTasks(y, Leave(c), c);
    TasksSnoc(wakes, msg, c);
  }

  lemma NotLeaving(events: seq<Event>, wakes: seq<Wake>, c: ClientId)
    requires IsRun(events) && OwnTasks(StateAfter(events).All(), c) == Enqueued(wakes, false, c)
    ensures c !in StateAfter(events).leaving
  {
    var own := EveryClientHasStub(events, c);
    DepartureShows(own, wakes, c);
  }

  lemma DepartureShows(a: seq<Wake>, b: seq<Wake>, c: ClientId)
    ensures Enqueued(a, true, c) != Enqueued(b, false, c)
  {
    assert Enqueued(a, true, c)[|Tasks(a, c)|] == Deregister(c);
    TasksAreMessages(b, c);
  }

  lemma {:induction false} TasksAreMessages(wakes: seq<Wake>, c: ClientId)
    ensures forall i | 0 <= i < |Tasks(wakes, c)| :: Tasks(wakes, c)[i].Message?
  {
    if wakes != [] { TasksAreMessages(wakes[..|wakes| - 1], c); }
  }
}
