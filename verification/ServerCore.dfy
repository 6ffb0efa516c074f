/** The server core as the source has it: one object whose fields its methods update. Each method is proved to
    do to the whole state exactly what its counterpart in the state machine does. */
module ServerCores {
  import opened Common
  import opened Tries
  import opened FlatDirectories
  import opened Topics
  import opened Protocol
  import opened ServerSpec
  import opened Systems
  import opened Directories

  class ServerCore {
    var senders: set<ClientId>
    var channels: map<ClientId, seq<ServerMsg>>
    const directory: Directory
    var nextClientId: ClientId
    var nextMsgId: MsgId
    var pending: map<MsgId, Pending>
    var timers: set<MsgId>

    ghost var processed: seq<Task>
    ghost var accepted: map<MsgId, Acceptance>
    ghost var acceptedBy: map<int, MsgId>
    ghost var outcome: map<MsgId, Outcome>
    ghost var source: map<MsgId, MsgId>

    ghost predicate Valid()
      reads this, directory, directory.repr
    {
      directory.Rooted() && this !in directory.repr
    }

    ghost function State(): Core
      reads this, directory
    {
      Core(senders, directory.Content(), nextClientId, nextMsgId, pending, timers, channels,
           processed, accepted, acceptedBy, outcome, source)
    }

    constructor ()
      ensures Valid() && fresh(this) && fresh(directory.repr)
      ensures State() == InitCore()
    {
      senders, channels := {}, map[];
      directory := new Directory();
      nextClientId, nextMsgId, pending, timers := 1, 0, map[], {};
      processed, accepted, acceptedBy, outcome, source := [], map[], map[], map[], map[];
      new;
      InitialDirectory(directory);
    }

    /** Subscribe id 0, which is no client, to the kill topic. */
    static method InitialDirectory(directory: Directory)
      requires directory.Valid() && directory.trie == EMPTY
      modifies directory.repr
      ensures directory.Rooted() && fresh(directory.repr - old(directory.repr))
      ensures directory.Content() == InitCore().dir
    {
      hide View, Parse, Segments, IsTopicPattern;
      ViewEmpty();
      KillTopic();
      directory.Subscribe(0, FromSegments(KILL));
      assert directory.Content().subs == {(0, KILL)};
    }

    method RegisterClient()
      requires Valid()
      modifies this
      ensures Valid() && State() == ServerSpec.RegisterClient(old(State()))
    {
      var clientId := nextClientId;
      nextClientId := nextClientId + 1;
      channels := channels[clientId := []];
      senders := senders + {clientId};
    }

    method DeregisterClient(id: ClientId)
      requires Valid()
      modifies this, directory.repr
      ensures Valid() && directory.repr == old(directory.repr)
      ensures State() == ServerSpec.DeregisterClient(old(State()), id)
    {
      senders := senders - {id};
      var topics := directory.DropClient(id);
      outcome := outcome + map m | m in pending && Involves(pending[m], id) :: Cancelled;
      pending := map m | m in pending && !Involves(pending[m], id) :: pending[m];
    }

    method NewMsg(content: ProtocolServer) returns (msg: ServerMsg)
      modifies this`nextMsgId
      ensures msg == Msg(old(nextMsgId), content) && nextMsgId == old(nextMsgId) + 1
    {
      msg := Msg(nextMsgId, content);
      nextMsgId := nextMsgId + 1;
    }

    method Deliver(client: ClientId, content: ProtocolServer, env: Env) returns (r: Result<MsgId, BusError>)
      requires Valid()
      modifies this, directory.repr
      ensures Valid() && directory.repr == old(directory.repr)
      ensures (State(), r) == ServerSpec.Deliver(old(State()), client, content, env)
    {
      var msg := NewMsg(content);
      if client !in senders {
        return Err(UnknownClient(client));
      }
      if client in env.leaving && msg.id in env.failing {
        // nobody reads this channel any more
        DeregisterClient(client);
        return Err(DeliveryFailed(client));
      }
      channels := channels[client := (if client in channels then channels[client] else []) + [msg]];
      return Ok(msg.id);
    }

    method Serve(client: ClientId, topic: Topic) returns (err: Option<BusError>)
      requires Valid()
      modifies directory.repr
      ensures Valid() && fresh(directory.repr - old(directory.repr))
      ensures (State(), err) == ServerSpec.Serve(old(State()), client, topic)
    {
      var r := directory.Claim(client, topic);
      return if r.Ok? then None else Some(Refused(r.error));
    }

    method Unserve(client: ClientId, topic: Topic, env: Env) returns (err: Option<BusError>, used: Env)
      requires Valid()
      modifies directory.repr
      ensures Valid() && directory.repr == old(directory.repr)
      ensures used == env.(sawWildcard := UnclaimRefused(old(directory.trie), Segments(topic)))
      ensures (State(), err) == ServerSpec.Unserve(old(State()), client, topic, used)
    {
      var r := directory.Unclaim(client, topic);
      used := env.(sawWildcard := r.Err?);
      err := if r.Ok? then None else Some(Refused(r.error));
    }

    method Request(client: ClientId, reqId: MsgId, topic: Topic, payload: Payload, env: Env)
      returns (err: Option<BusError>)
      requires Valid()
      modifies this, directory.repr
      ensures Valid() && directory.repr == old(directory.repr)
      ensures (State(), err) == ServerSpec.Request(old(State()), client, reqId, topic, payload, env)
    {
      var owner := directory.GetOwner(topic);
      if owner.None? {
        return Some(ServiceNotFound(topic));
      }
      var r := Deliver(owner.value, ProtocolServer.Req(topic, payload), env);
      if r.Err? {
        return Some(r.error);
      }
      Track(r.value, client, reqId, owner.value, topic, payload);
      return None;
    }

    /** Keep the forwarded request as pending and start its timer. */
    method Track(m: MsgId, client: ClientId, reqId: MsgId, owner: ClientId, topic: Topic, payload: Payload)
      requires Valid()
      modifies this`pending, this`timers, this`accepted, this`acceptedBy
      ensures Valid()
      ensures State() == old(State()).(
                pending := old(pending)[m := Pending(reqId, client, owner)],
                timers := old(timers) + {m},
                accepted := old(accepted)[m := Acceptance(|processed| - 1, client, reqId, owner, topic, payload)],
                acceptedBy := old(acceptedBy)[|processed| - 1 := m])
    {
      pending := pending[m := Pending(reqId, client, owner)];
      timers := timers + {m};
      accepted := accepted[m := Acceptance(|processed| - 1, client, reqId, owner, topic, payload)];
      acceptedBy := acceptedBy[|processed| - 1 := m];
    }

    method Respond(client: ClientId, reqId: MsgId, status: RspStatus, payload: Payload, env: Env)
      returns (err: Option<BusError>)
      requires Valid()
      modifies this, directory.repr
      ensures Valid() && directory.repr == old(directory.repr)
      ensures (State(), err) == ServerSpec.Respond(old(State()), client, reqId, status, payload, env)
    {
      hide View, WellFormed, Segments;
      if reqId !in pending {
        return Some(InvalidRequestId);
      }
      var p := pending[reqId];
      // only the client that got the request may answer it; 0 is the server itself
      if client != 0 && p.responder != client {
        return Some(InvalidRequestId);
      }
      pending := pending - {reqId};
      ghost var pos := |State().Channel(p.requester)|;
      var r := Deliver(p.requester, ProtocolServer.Rsp(p.requestId, status, payload), env);
      if r.Err? {
        outcome := outcome[reqId := Undeliverable];
        return Some(r.error);
      }
      outcome := outcome[reqId := Responded(|processed| - 1, client, pos, r.value, status, payload)];
      source := source[r.value := reqId];
      return None;
    }

    /** The fan-out loop. A failed send ends it, after changing the directory under its feet. */
    method PublishTo(clients: seq<ClientId>, content: ProtocolServer, env: Env) returns (r: Published)
      requires Valid()
      modifies this, directory.repr
      ensures Valid() && directory.repr == old(directory.repr)
      ensures (State(), r) == ServerSpec.PublishTo(old(State()), clients, content, env)
    {
      var i := 0;
      while i < |clients|
        invariant 0 <= i <= |clients|
        invariant Valid() && directory.repr == old(directory.repr)
        invariant ServerSpec.PublishTo(old(State()), clients, content, env)
                  == ServerSpec.PublishTo(State(), clients[i..], content, env)
      {
        if clients[i] == 0 {
          return Killed;
        }
        var sent := Deliver(clients[i], content, env);
        if sent.Err? {
          return NotSent(sent.error);
        }
        assert clients[i..][1..] == clients[i + 1..];
        i := i + 1;
      }
      return AllSent;
    }

    method Handle(client: ClientId, msg: ClientMsg, env: Env) returns (err: Option<BusError>, used: Env)
      requires Valid() && !msg.content.Pub?
      modifies this, directory.repr
      ensures Valid() && fresh(directory.repr - old(directory.repr))
      ensures used == env.(sawWildcard := used.sawWildcard)
      ensures msg.content.Unsrv? ==>
                used.sawWildcard == UnclaimRefused(old(directory.trie), Segments(msg.content.topic))
      ensures (State(), err) == ServerSpec.Handle(old(State()), client, msg, used)
    {
      hide View, WellFormed, Segments;
      err, used := None, env;
      match msg.content {
        case Sub(topic) => directory.Subscribe(client, topic);
        case Unsub(topic) => directory.Unsubscribe(client, topic);
        case Srv(topic) => err := Serve(client, topic);
        case Unsrv(topic) => err, used := Unserve(client, topic, env);
        case Req(topic, payload) => err := Request(client, msg.id, topic, payload, env);
        case Rsp(m, status, payload) => err := Respond(client, m, status, payload, env);
        case Stop =>
        case KeepAlive =>
      }
    }

    method ProcessMsg(client: ClientId, msg: ClientMsg, env: Env) returns (verdict: Verdict, used: Env)
      requires Valid()
      modifies this, directory.repr
      ensures Valid() && fresh(directory.repr - old(directory.repr))
      ensures used == env.(sawWildcard := used.sawWildcard, order := used.order)
      ensures msg.content.Pub? ==> Lists(used.order, old(State()).dir.Subscribers(Segments(msg.content.topic)))
      ensures msg.content.Unsrv? ==>
                used.sawWildcard == UnclaimRefused(old(directory.trie), Segments(msg.content.topic))
      ensures (State(), verdict) == ServerSpec.ProcessMsg(old(State()), client, msg, used)
    {
      verdict := if msg.content.Stop? then Finish else Continue;
      var err: Option<BusError>, recipients: Option<nat> := None, None;
      if msg.content.Pub? {
        var subscribers := directory.GetSubscribers(msg.content.topic);
        used := env.(order := subscribers);
        var r := PublishTo(subscribers, ProtocolServer.Pub(msg.content.topic, msg.content.payload), used);
        if r.Killed? {
          return Panic, used;
        }
        if r.AllSent? {
          recipients := Some(|subscribers|);
        } else {
          err := Some(r.error);
        }
      } else {
        err, used := Handle(client, msg, env);
      }
      // whether the Ack arrives changes nothing here
      var ignored := Deliver(client, ProtocolServer.Ack(msg.id, err, recipients), used);
    }

    method ProcessTask(task: Task, env: Env) returns (verdict: Verdict, used: Env)
      requires Valid()
      modifies this, directory.repr
      ensures Valid() && fresh(directory.repr - old(directory.repr))
      ensures used == env.(sawWildcard := used.sawWildcard, order := used.order)
      ensures task.Message? && task.msg.content.Pub? ==>
                Lists(used.order, old(State()).dir.Subscribers(Segments(task.msg.content.topic)))
      ensures task.Message? && task.msg.content.Unsrv? ==>
                used.sawWildcard == UnclaimRefused(old(directory.trie), Segments(task.msg.content.topic))
      ensures (State(), verdict) == ServerSpec.ProcessTask(old(State()), task, used)
    {
      processed := processed + [task];
      verdict, used := Continue, env;
      match task {
        case Register => RegisterClient();
        case Deregister(client) => DeregisterClient(client);
        case Message(client, msg) => verdict, used := ProcessMsg(client, msg, env);
        case RequestTimeout(m) =>
          var err := Respond(0, m, Timeout, [], env);
          if err.Some? {
            verdict := Fail(err.value);
          }
      }
    }

    /** One turn of the loop, or one thing that happens around it: a connection, a message, a departure, a timer.
        `took` is false when there is nothing to take, or when the event cannot happen now. */
    method Turn(event: Event, waiting: seq<Task>, leaving: set<ClientId>)
      returns (took: bool, queue: seq<Task>, left: set<ClientId>, status: Status, ghost now: Event)
      requires Valid()
      modifies this, directory.repr
      ensures Valid() && fresh(directory.repr - old(directory.repr))
      ensures var y := System(old(State()), waiting, leaving, Running);
              && (took <==> CanOccur(y, event))
              && System(State(), queue, left, status) == (if took then Apply(y, now) else y)
              && (took ==> Enabled(y, now) && SameWish(now, event))
      ensures took && event.Process? && waiting[0].Message? && waiting[0].msg.content.Unsrv? ==>
                now.env.sawWildcard == UnclaimRefused(old(directory.trie), Segments(waiting[0].msg.content.topic))
    {
      hide ServerSpec.ProcessTask, View, WellFormed;
      took, queue, left, status, now := true, waiting, leaving, Running, event;
      match event {
        case Connect => queue := waiting + [Register];
        case Receive(client, msg) =>
          took := client in channels && client !in leaving;
          if took { queue := waiting + [Message(client, msg)]; }
        case Leave(client) =>
          took := client in channels && client !in leaving;
          if took { queue, left := waiting + [Deregister(client)], leaving + {client}; }
        case Fire(m) =>
          took := m in timers;
          if took { timers, queue := timers - {m}, waiting + [RequestTimeout(m)]; }
        case StopSignal => status := Stopped;
        case Process(env) =>
          took := waiting != [];
          if took {
            var verdict, used := ProcessTask(waiting[0], env.(leaving := leaving));
            queue, status, now := waiting[1..], After(verdict), Process(used);
          }
      }
    }

    /** The task loop amid its world. `world` says what happens around the loop and when the loop gets its turn, for
        as long as it goes on; what does not fit the moment is passed over. Whatever the world does, the loop and
        the world together make a run of the system, and this object stays in the state of that run. */
    method Run(ghost past: seq<Event>, waiting: seq<Task>, leaving: set<ClientId>, world: seq<Event>)
      returns (ghost run: seq<Event>, status: Status, queue: seq<Task>, left: set<ClientId>, n: nat)
      requires Valid() && IsRun(past) && StateAfter(past) == System(State(), waiting, leaving, Running)
      modifies this, directory.repr
      ensures Valid() && fresh(directory.repr - old(directory.repr))
      ensures IsRun(past + run) && StateAfter(past + run) == System(State(), queue, left, status)
      ensures n <= |world| && Carried(past, world[..n], run) && (status == Running ==> n == |world|)
    {
      hide IsRun, StateAfter, Apply, Enabled, CanOccur, SameWish, View, WellFormed;
      run, status, queue, left, n := [], Running, waiting, leaving, 0;
      assert past + run == past;
      while n < |world| && status == Running
        invariant 0 <= n <= |world|
        invariant Valid() && fresh(directory.repr - old(directory.repr))
        invariant IsRun(past + run) && StateAfter(past + run) == System(State(), queue, left, status)
        invariant Carried(past, world[..n], run)
      {
        var took;
        ghost var now;
        took, queue, left, status, now := Turn(world[n], queue, left);
        if took { Continues(past + run, now); }
        OneMoreCarried(past, world, n, run, took, now);
        if took {
          assert past + run + [now] == past + (run + [now]);
          run := run + [now];
        }
        n := n + 1;
      }
    }
  }

  /** The event can happen, or the loop has something to take. */
  ghost predicate CanOccur(y: System, e: Event) {
    if e.Process? then y.status == Running && y.queue != [] else Enabled(y, e)
  }

  /** `now` is what was wished for: the same event, with the same sends failing. */
  predicate SameWish(now: Event, wished: Event) {
    if wished.Process? then now.Process? && now.env.failing == wished.env.failing else now == wished
  }

  /** `run` carries out `world` after `past`: every event that could happen at its moment, in order, and no other. */
  ghost predicate Carried(past: seq<Event>, world: seq<Event>, run: seq<Event>)
    decreases |world|
  {
    if world == [] then run == []
    else
      var before, wished := world[..|world| - 1], world[|world| - 1];
      || (!CanOccur(StateAfter(past + run), wished) && Carried(past, before, run))
      || (run != [] && CanOccur(StateAfter(past + run[..|run| - 1]), wished) && SameWish(run[|run| - 1], wished)
          && Carried(past, before, run[..|run| - 1]))
  }

  lemma OneMoreCarried(past: seq<Event>, world: seq<Event>, n: nat, run: seq<Event>, took: bool, now: Event)
    requires n < |world| && Carried(past, world[..n], run)
    requires took <==> CanOccur(StateAfter(past + run), world[n])
    requires took ==> SameWish(now, world[n])
    ensures Carried(past, world[..n + 1], if took then run + [now] else run)
  {
    assert world[..n + 1][..n] == world[..n];
    if took { assert (run + [now])[..|run|] == run; }
  }
}
