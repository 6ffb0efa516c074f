/** Server and client cores together. The `unwrap` with which a client looks up the callback of a response is
    safe only because of what the server guarantees: this file is that argument. Clients that are not attached
    here may send anything. */
module Composition {
  import opened Tries
  import opened Topics
  import opened Protocol
  import opened ServerSpec
  import opened ServerInvariants
  import opened Systems
  import ST = ServerTheorems
  import O = Origins
  import opened ClientSpec

  datatype Fate = Living | Over | LostOnSend | LostOnReceive

  /** A client core at its end of a connection: everything it sent (`up`), how much of that the stub has handed
      to the server (`taken`), and how much of its channel it has received (`got`). */
  datatype End = End(client: Client, fate: Fate, up: seq<ClientMsg>, taken: nat, got: nat)

  datatype World = World(sys: System, ends: map<ClientId, End>)

  datatype WorldEvent =
    | Server(event: Event)
    | Attach(client: ClientId)
    | Hand(client: ClientId)
    | Act(client: ClientId, task: ClientTask, lost: set<MsgId>)
    | Get(client: ClientId, choices: Choices)

  function InitWorld(): World {
    World(Init(), map[])
  }

  function Inbox(w: World, c: ClientId): seq<ServerMsg> {
    w.sys.core.Channel(c)
  }

  ghost predicate CanHappen(w: World, e: WorldEvent) {
    match e
    case Server(event) => Enabled(w.sys, event) && (event.Receive? ==> event.client !in w.ends)
    case Attach(c) => c in w.sys.core.sent && c !in w.ends && forall t | t in w.sys.All() && t.Message? :: t.client != c
    case Hand(c) =>
      && c in w.ends && w.ends[c].taken < |w.ends[c].up|
      && Enabled(w.sys, Receive(c, w.ends[c].up[w.ends[c].taken]))
    case Act(c, task, _) => c in w.ends && w.ends[c].fate.Living? && !task.TaskStop?
    case Get(c, ch) =>
      && c in w.ends && w.ends[c].fate.Living? && w.ends[c].got < |Inbox(w, c)|
      && Possible(w.ends[c].client, Inbox(w, c)[w.ends[c].got], ch)
  }

  function FateOf(ending: Ending, onPanic: Fate): Fate {
    match ending
    case Alive => Living
    case Failed => Over
    case Panicked => onPanic
  }

  function Happen(w: World, e: WorldEvent): World {
    match e
    case Server(event) => w.(sys := Apply(w.sys, event))
    case Attach(c) => w.(ends := w.ends[c := End(InitClient(), Living, [], 0, 0)])
    case Hand(c) =>
      if c !in w.ends || w.ends[c].taken >= |w.ends[c].up| then w else
      var end := w.ends[c];
      World(Apply(w.sys, Receive(c, end.up[end.taken])), w.ends[c := end.(taken := end.taken + 1)])
    case Act(c, task, lost) =>
      if c !in w.ends then w else
      var end := w.ends[c];
      var (client, ending, out) := ClientSpec.Send(end.client, task, lost);
      w.(ends := w.ends[c := end.(client := client, fate := FateOf(ending, LostOnSend), up := end.up + out)])
    case Get(c, ch) =>
      if c !in w.ends || w.ends[c].got >= |Inbox(w, c)| then w else
      var end := w.ends[c];
      var (client, ending, out) := AfterReceive(end.client, Inbox(w, c)[end.got], ch);
      w.(ends := w.ends[c := end.(client := client, fate := FateOf(ending, LostOnReceive), up := end.up + out,
                                  got := end.got + 1)])
  }

  function WorldAfter(events: seq<WorldEvent>): World {
    if events == [] then InitWorld() else Happen(WorldAfter(events[..|events| - 1]), events[|events| - 1])
  }

  ghost predicate IsHistory(events: seq<WorldEvent>) {
    events != [] ==>
      IsHistory(events[..|events| - 1]) && CanHappen(WorldAfter(events[..|events| - 1]), events[|events| - 1])
  }

  // ---------- What the two sides know of each other ----------

  function ReqIds(up: seq<ClientMsg>): set<MsgId> {
    set x | x in up && x.content.Req? :: x.id
  }

  function RspIds(inbox: seq<ServerMsg>): set<MsgId> {
    set x | x in inbox && x.content.Rsp? :: x.content.reqId
  }

  /** A client's own message ids strictly increase. */
  ghost predicate Numbered(up: seq<ClientMsg>, last: MsgId) {
    && (forall i | 0 <= i < |up| :: up[i].id <= last)
    && (forall i, j | 0 <= i < j < |up| :: up[i].id < up[j].id)
  }

  /** What the server got from `c` came from there, in order. */
  ghost predicate InOrder(all: seq<Task>, c: ClientId, sent: seq<ClientMsg>) {
    && (forall i | 0 <= i < |all| && all[i].Message? && all[i].client == c :: all[i].msg in sent)
    && (forall i, j | 0 <= i < j < |all| && all[i].Message? && all[j].Message? && all[i].client == all[j].client == c ::
          all[i].msg.id < all[j].msg.id)
  }

  /** A living client waits for exactly the responses to its requests that it has not received yet. */
  ghost predicate EndOk(end: End, c: ClientId, inbox: seq<ServerMsg>, all: seq<Task>) {
    && Agrees(end.client)
    && end.taken <= |end.up| && end.got <= |inbox|
    && Numbered(end.up, end.client.nextMsgId)
    && InOrder(all, c, end.up[..end.taken])
    && (end.fate.Living? ==> end.client.rsps == ReqIds(end.up) - RspIds(inbox[..end.got]))
    && end.fate != LostOnReceive
  }

  ghost predicate WorldInv(w: World) {
    && SystemInv(w.sys)
    && forall c | c in w.ends :: c in w.sys.core.sent && EndOk(w.ends[c], c, Inbox(w, c), w.sys.All())
  }

  // ---------- Why a response always finds its callback ----------

  lemma AskedAt(s: Core, m: MsgId)
    requires Inv(s, {}) && m in s.accepted
    ensures var a := s.accepted[m];
            && 0 <= a.at < |s.processed| && a.at in s.acceptedBy && s.acceptedBy[a.at] == m
            && s.processed[a.at] == Message(a.requester, Msg(a.requestId, ProtocolClient.Req(a.topic, a.payload)))
  {
    assert AcceptanceOk(s, m, s.accepted[m]);
  }

  /** Two accepted requests of one client have different ids, and both are among what the client sent. */
  lemma AskedOnce(s: Core, all: seq<Task>, c: ClientId, sent: seq<ClientMsg>, m: MsgId, n: MsgId)
    requires Inv(s, {}) && s.processed <= all && InOrder(all, c, sent)
    requires m in s.accepted && n in s.accepted && s.accepted[m].requester == s.accepted[n].requester == c
    ensures Msg(s.accepted[m].requestId, ProtocolClient.Req(s.accepted[m].topic, s.accepted[m].payload)) in sent
    ensures s.accepted[m].requestId == s.accepted[n].requestId ==> m == n
  {
    AskedAt(s, m);
    AskedAt(s, n);
    hide Inv, InOrder;
    var i, j := s.accepted[m].at, s.accepted[n].at;
    assert all[i] == s.processed[i] && all[j] == s.processed[j];
    Places(all, c, sent, i, j);
  }

  lemma Places(all: seq<Task>, c: ClientId, sent: seq<ClientMsg>, i: nat, j: nat)
    requires InOrder(all, c, sent) && i < |all| && j < |all|
    requires all[i].Message? && all[j].Message? && all[i].client == all[j].client == c
    ensures all[i].msg in sent && (all[i].msg.id == all[j].msg.id ==> i == j)
  {}

  lemma OriginOf(s: Core, c: ClientId, i: nat) returns (m: MsgId)
    requires Inv(s, {}) && i < |s.Channel(c)| && s.Channel(c)[i].content.Rsp?
    ensures m in s.accepted && s.accepted[m].requester == c && s.accepted[m].requestId == s.Channel(c)[i].content.reqId
    ensures m in s.outcome && s.outcome[m].Responded? && s.outcome[m].pos == i
  {
    assert Sourced(s, c, i);
    m := s.source[s.Channel(c)[i].id];
    assert ResponseOk(s, s.accepted[m], m, s.outcome[m]);
  }

  lemma NotAnsweredYet(s: Core, all: seq<Task>, c: ClientId, sent: seq<ClientMsg>, m: MsgId, got: nat)
    requires Inv(s, {}) && s.processed <= all && InOrder(all, c, sent) && got <= |s.Channel(c)|
    requires m in s.accepted && s.accepted[m].requester == c
    requires m in s.outcome && s.outcome[m].Responded? ==> s.outcome[m].pos >= got
    ensures s.accepted[m].requestId !in RspIds(s.Channel(c)[..got])
  {
    hide Inv, InOrder;
    var id, inbox := s.accepted[m].requestId, s.Channel(c);
    if id in RspIds(inbox[..got]) {
      var x :| x in inbox[..got] && x.content.Rsp? && x.content.reqId == id;
      var i :| 0 <= i < got && inbox[i] == x;
      var n := OriginOf(s, c, i);
      AskedOnce(s, all, c, sent, m, n);
    }
  }

  /** An accepted request whose response is not among the first `got` messages is still waited for. */
  lemma Awaited(s: Core, all: seq<Task>, c: ClientId, end: End, m: MsgId)
    requires Inv(s, {}) && s.processed <= all && EndOk(end, c, s.Channel(c), all) && end.fate.Living?
    requires m in s.accepted && s.accepted[m].requester == c
    requires m in s.outcome && s.outcome[m].Responded? ==> s.outcome[m].pos >= end.got
    ensures s.accepted[m].requestId in end.client.rsps
  {
    hide Inv, Agrees, Numbered, InOrder, RspIds;
    var sent := end.up[..end.taken];
    NotAnsweredYet(s, all, c, sent, m, end.got);
    AskedOnce(s, all, c, sent, m, m);
    var ask := Msg(s.accepted[m].requestId, ProtocolClient.Req(s.accepted[m].topic, s.accepted[m].payload));
    assert ask in end.up;
    assert ask.id in ReqIds(end.up);
  }

  /** The composition theorem, in one state: the response that a client receives next has its callback. */
  lemma ResponseFindsCallback(w: World, c: ClientId)
    requires WorldInv(w) && c in w.ends && w.ends[c].fate.Living?
    requires w.ends[c].got < |Inbox(w, c)| && Inbox(w, c)[w.ends[c].got].content.Rsp?
    ensures Inbox(w, c)[w.ends[c].got].content.reqId in w.ends[c].client.rsps
  {
    var s := w.sys.core;
    assert Inv(s, {}) && EndOk(w.ends[c], c, s.Channel(c), w.sys.All());
    hide SystemInv, Inv, EndOk;
    var m := OriginOf(s, c, w.ends[c].got);
    Awaited(s, w.sys.All(), c, w.ends[c], m);
  }

  // ---------- Every event keeps it ----------

  /** `out` carries new numbers up to `now`, in order, and no request. */
  ghost predicate Continues(out: seq<ClientMsg>, last: MsgId, now: MsgId) {
    && last <= now
    && (forall i | 0 <= i < |out| :: last < out[i].id <= now && !out[i].content.Req?)
    && (forall i, j | 0 <= i < j < |out| :: out[i].id < out[j].id)
  }

  lemma ContinuesOn(a: seq<ClientMsg>, b: seq<ClientMsg>, last: MsgId, mid: MsgId, now: MsgId)
    requires Continues(a, last, mid) && Continues(b, mid, now)
    ensures Continues(a + b, last, now)
  {}

  lemma UnsubscribeContinues(s: Client, topics: seq<Topic>, lost: set<MsgId>)
    ensures var (s', e, out) := ClientSpec.Unsubscribe(s, topics, lost); Continues(out, s.nextMsgId, s'.nextMsgId)
    decreases |topics|
  {
    if topics != [] {
      var (s1, e1, out) := ClientSpec.Send(s, TaskUnsub(topics[0]), lost);
      if e1 == Alive {
        UnsubscribeContinues(s1, topics[1..], lost);
        var (s2, e2, more) := ClientSpec.Unsubscribe(s1, topics[1..], lost);
        ContinuesOn(out, more, s.nextMsgId, s1.nextMsgId, s2.nextMsgId);
      }
    }
  }

  lemma CallOneContinues(s: Client, id: MsgId, topic: Topic, payload: Payload, ch: Choices)
    ensures var (s', e, out) := CallOne(s, id, topic, payload, ch); Continues(out, s.nextMsgId, s'.nextMsgId)
  {
    if id in ch.dead {
      UnsubscribeContinues(s.(pubs := s.pubs - {id}, dir := s.dir.DropClient(id)), Listed(ch, id), ch.lost);
    }
  }

  lemma {:induction false} CallAllContinues(s: Client, ids: seq<MsgId>, topic: Topic, payload: Payload, ch: Choices)
    ensures var (s', e, out) := CallAll(s, ids, topic, payload, ch); Continues(out, s.nextMsgId, s'.nextMsgId)
    decreases |ids|
  {
    hide CallOne;
    if ids != [] && ids[0] in s.pubs {
      var (s1, e1, out) := CallOne(s, ids[0], topic, payload, ch);
      CallOneContinues(s, ids[0], topic, payload, ch);
      if e1 == Alive {
        CallAllContinues(s1, ids[1..], topic, payload, ch);
        var (s2, e2, more) := CallAll(s1, ids[1..], topic, payload, ch);
        ContinuesOn(out, more, s.nextMsgId, s1.nextMsgId, s2.nextMsgId);
      }
    }
  }

  lemma ContinuesNumbered(up: seq<ClientMsg>, out: seq<ClientMsg>, last: MsgId, now: MsgId)
    requires Numbered(up, last) && Continues(out, last, now)
    ensures Numbered(up + out, now) && ReqIds(up + out) == ReqIds(up)
  {
    assert forall x | x in up :: x in up + out;
  }

  lemma RspIdsSnoc(inbox: seq<ServerMsg>, got: nat)
    requires got < |inbox|
    ensures RspIds(inbox[..got + 1]) ==
              RspIds(inbox[..got]) + (if inbox[got].content.Rsp? then {inbox[got].content.reqId} else {})
  {
    assert inbox[..got + 1] == inbox[..got] + [inbox[got]];
    assert forall x | x in inbox[..got] :: x in inbox[..got + 1];
    assert inbox[got] in inbox[..got + 1];
  }

  lemma GetKeeps(end: End, c: ClientId, inbox: seq<ServerMsg>, all: seq<Task>, ch: Choices)
    requires EndOk(end, c, inbox, all) && end.fate.Living? && end.got < |inbox|
    requires Possible(end.client, inbox[end.got], ch)
    requires inbox[end.got].content.Rsp? ==> inbox[end.got].content.reqId in end.client.rsps
    ensures var (client, ending, out) := AfterReceive(end.client, inbox[end.got], ch);
            var fate := FateOf(ending, LostOnReceive);
            EndOk(end.(client := client, fate := fate, up := end.up + out, got := end.got + 1), c, inbox, all)
  {
    var (client, ending, out) := AfterReceive(end.client, inbox[end.got], ch);
    AfterReceiveAgrees(end.client, inbox[end.got], ch);
    if inbox[end.got].content.Pub? {
      CallAllContinues(end.client, ch.order, inbox[end.got].content.topic, inbox[end.got].content.payload, ch);
    }
    assert Continues(out, end.client.nextMsgId, client.nextMsgId);
    ContinuesNumbered(end.up, out, end.client.nextMsgId, client.nextMsgId);
    RspIdsSnoc(inbox, end.got);
    assert (end.up + out)[..end.taken] == end.up[..end.taken];
    hide Agrees, Possible, AfterReceive, Numbered, InOrder, ReqIds, RspIds;
  }

  lemma SendNumbered(s: Client, up: seq<ClientMsg>, task: ClientTask, lost: set<MsgId>)
    requires Numbered(up, s.nextMsgId)
    ensures var (s', e, out) := ClientSpec.Send(s, task, lost);
            && Numbered(up + out, s'.nextMsgId)
            && (e == Alive ==>
                  && ReqIds(up + out) == ReqIds(up) + (if task.TaskReq? then {s.nextMsgId + 1} else {})
                  && s'.rsps == s.rsps + (if task.TaskReq? then {s.nextMsgId + 1} else {}))
  {
    var (s', e, out) := ClientSpec.Send(s, task, lost);
    SendShape(s, task, lost);
    hide ClientSpec.Send;
    ReqIdsConcat(up, out);
    if e == Alive { assert out == [out[0]]; }
  }

  lemma SendShape(s: Client, task: ClientTask, lost: set<MsgId>)
    ensures var (s', e, out) := ClientSpec.Send(s, task, lost);
            && s'.nextMsgId == s.nextMsgId + 1
            && (if e == Alive then |out| == 1 && out[0].id == s'.nextMsgId && (out[0].content.Req? <==> task.TaskReq?)
                else out == [])
            && (e == Alive ==> s'.rsps == s.rsps + (if task.TaskReq? then {s'.nextMsgId} else {}))
  {
    hide Segments;
  }

  lemma ReqIdsConcat(up: seq<ClientMsg>, out: seq<ClientMsg>)
    requires |out| <= 1
    ensures ReqIds(up + out) == ReqIds(up) + if out != [] && out[0].content.Req? then {out[0].id} else {}
  {
    assert forall x | x in up + out :: x in up || x in out;
    assert forall x | x in up :: x in up + out;
    if out != [] { assert out[0] in up + out; }
  }

  lemma ActKeeps(end: End, c: ClientId, inbox: seq<ServerMsg>, all: seq<Task>, task: ClientTask, lost: set<MsgId>)
    requires EndOk(end, c, inbox, all) && end.fate.Living?
    requires forall i | 0 <= i < |inbox| && inbox[i].content.Rsp? :: inbox[i].content.reqId <= end.client.nextMsgId
    ensures var (client, ending, out) := ClientSpec.Send(end.client, task, lost);
            EndOk(end.(client := client, fate := FateOf(ending, LostOnSend), up := end.up + out), c, inbox, all)
  {
    var (client, ending, out) := ClientSpec.Send(end.client, task, lost);
    SendAgrees(end.client, task, lost);
    SendNumbered(end.client, end.up, task, lost);
    assert (end.up + out)[..end.taken] == end.up[..end.taken];
    assert end.client.nextMsgId + 1 !in RspIds(inbox[..end.got]);
    hide Agrees, BeforeSend, ClientSpec.Send, Numbered, InOrder, ReqIds;
  }

  /** No response bears a number that the client has not given out yet. */
  lemma ResponsesAreOld(w: World, c: ClientId, i: nat)
    requires WorldInv(w) && c in w.ends && i < |Inbox(w, c)| && Inbox(w, c)[i].content.Rsp?
    ensures Inbox(w, c)[i].content.reqId <= w.ends[c].client.nextMsgId
  {
    var s, end := w.sys.core, w.ends[c];
    assert Inv(s, {}) && EndOk(end, c, s.Channel(c), w.sys.All());
    var m := OriginOf(s, c, i);
    hide SystemInv, Inv;
    AskedOnce(s, w.sys.All(), c, end.up[..end.taken], m, m);
  }

  /** The server's side moved; the channel only grew, and the tasks of `c` are as they were. */
  lemma ServerMoved(end: End, c: ClientId, inbox: seq<ServerMsg>, inbox': seq<ServerMsg>, all: seq<Task>,
                    all': seq<Task>)
    requires EndOk(end, c, inbox, all) && inbox <= inbox'
    requires all' == all || (exists t :: all' == all + [t] && !(t.Message? && t.client == c))
    ensures EndOk(end, c, inbox', all')
  {
    assert inbox'[..end.got] == inbox[..end.got];
    hide Agrees, Numbered;
  }

  lemma HandKeeps(end: End, c: ClientId, inbox: seq<ServerMsg>, all: seq<Task>)
    requires EndOk(end, c, inbox, all) && end.taken < |end.up|
    ensures EndOk(end.(taken := end.taken + 1), c, inbox, all + [Message(c, end.up[end.taken])])
  {
    assert end.up[..end.taken + 1] == end.up[..end.taken] + [end.up[end.taken]];
    hide Agrees;
  }

  lemma SystemMoved(y: System, e: Event)
    requires SystemInv(y) && Enabled(y, e)
    ensures SystemInv(Apply(y, e)) && Extends(y.core, Apply(y, e).core)
    ensures Apply(y, e).All() == y.All() + NewTask(e)
  {
    hide SystemInv, Apply, Enabled, Extends;
    EventKeeps(y, e);
    ST.EventExtends(y, e);
    AllMoved(y, e);
  }

  lemma InboxGrows(s: Core, s': Core, c: ClientId)
    requires Extends(s, s') && c in s.sent
    ensures c in s'.sent && s.Channel(c) <= s'.Channel(c)
  {}

  /** A server event other than a message of `c` leaves the agreement about `c` alone. */
  lemma EndUndisturbed(y: System, y': System, end: End, c: ClientId, news: seq<Task>)
    requires EndOk(end, c, y.core.Channel(c), y.All()) && y.core.Channel(c) <= y'.core.Channel(c)
    requires y'.All() == y.All() + news && (news == [] || exists t :: news == [t] && !(t.Message? && t.client == c))
    ensures EndOk(end, c, y'.core.Channel(c), y'.All())
  {
    hide EndOk, System.All, Core.Channel;
    ServerMoved(end, c, y.core.Channel(c), y'.core.Channel(c), y.All(), y'.All());
  }

  lemma ServerKeeps(y: System, e: Event, end: End, c: ClientId)
    requires SystemInv(y) && Enabled(y, e) && (e.Receive? ==> e.client != c)
    requires c in y.core.sent && EndOk(end, c, y.core.Channel(c), y.All())
    ensures var y' := Apply(y, e); c in y'.core.sent && EndOk(end, c, y'.core.Channel(c), y'.All())
  {
    hide SystemInv, Apply, EndOk, Enabled, System.All, Core.Channel, Extends;
    SystemMoved(y, e);
    InboxGrows(y.core, Apply(y, e).core, c);
    EndUndisturbed(y, Apply(y, e), end, c, NewTask(e));
  }

  lemma OthersUndisturbed(w: World, c: ClientId, d: ClientId, msg: ClientMsg)
    requires WorldInv(w) && d in w.ends && d != c
    ensures EndOk(w.ends[d], d, Inbox(w, d), w.sys.All() + [Message(c, msg)])
  {
    hide SystemInv, EndOk;
    ServerMoved(w.ends[d], d, Inbox(w, d), Inbox(w, d), w.sys.All(), w.sys.All() + [Message(c, msg)]);
  }

  lemma HandedOver(y: System, c: ClientId, msg: ClientMsg)
    ensures var y' := Apply(y, Receive(c, msg)); y'.All() == y.All() + [Message(c, msg)] && y'.core == y.core
  {
    assert y.core.processed + (y.queue + [Message(c, msg)]) == y.All() + [Message(c, msg)];
    hide ProcessTask;
  }

  lemma HandWorldKeeps(w: World, c: ClientId)
    requires WorldInv(w) && CanHappen(w, Hand(c))
    ensures WorldInv(Happen(w, Hand(c)))
  {
    hide SystemInv, EndOk, Apply, Enabled, System.All, Core.Channel;
    var end := w.ends[c];
    assert EndOk(end, c, Inbox(w, c), w.sys.All());
    var msg := end.up[end.taken];
    EventKeeps(w.sys, Receive(c, msg));
    HandedOver(w.sys, c, msg);
    HandKeeps(end, c, Inbox(w, c), w.sys.All());
    forall d | d in w.ends && d != c { OthersUndisturbed(w, c, d, msg); }
  }

  lemma ServerWorldKeeps(w: World, e: Event)
    requires WorldInv(w) && CanHappen(w, Server(e))
    ensures WorldInv(Happen(w, Server(e)))
  {
    EventKeeps(w.sys, e);
    hide SystemInv, EndOk, Apply, Enabled, System.All, Core.Channel;
    forall d | d in w.ends { ServerKeeps(w.sys, e, w.ends[d], d); }
  }

  lemma ActWorldKeeps(w: World, c: ClientId, task: ClientTask, lost: set<MsgId>)
    requires WorldInv(w) && CanHappen(w, Act(c, task, lost))
    ensures WorldInv(Happen(w, Act(c, task, lost)))
  {
    forall i | 0 <= i < |Inbox(w, c)| && Inbox(w, c)[i].content.Rsp?
      ensures Inbox(w, c)[i].content.reqId <= w.ends[c].client.nextMsgId
    {
      ResponsesAreOld(w, c, i);
    }
    hide SystemInv, EndOk, ClientSpec.Send;
    ActKeeps(w.ends[c], c, Inbox(w, c), w.sys.All(), task, lost);
  }

  lemma GetWorldKeeps(w: World, c: ClientId, ch: Choices)
    requires WorldInv(w) && CanHappen(w, Get(c, ch))
    ensures WorldInv(Happen(w, Get(c, ch)))
  {
    hide SystemInv, EndOk, AfterReceive, Possible;
    if Inbox(w, c)[w.ends[c].got].content.Rsp? { ResponseFindsCallback(w, c); }
    GetKeeps(w.ends[c], c, Inbox(w, c), w.sys.All(), ch);
  }

  lemma WorldKeeps(w: World, e: WorldEvent)
    requires WorldInv(w) && CanHappen(w, e)
    ensures WorldInv(Happen(w, e))
  {
    match e
    case Server(event) => ServerWorldKeeps(w, event);
    case Hand(c) => HandWorldKeeps(w, c);
    case Attach(c) => AttachOk(w, c); hide SystemInv, EndOk;
    case Act(c, task, lost) => ActWorldKeeps(w, c, task, lost);
    case Get(c, ch) => GetWorldKeeps(w, c, ch);
  }

  lemma AttachOk(w: World, c: ClientId)
    requires WorldInv(w) && CanHappen(w, Attach(c))
    ensures EndOk(End(InitClient(), Living, [], 0, 0), c, Inbox(w, c), w.sys.All())
  {
    InitAgrees();
    assert forall i | 0 <= i < |w.sys.All()| :: w.sys.All()[i] in w.sys.All();
    hide SystemInv, Agrees;
  }

  lemma {:induction false} Worlds(events: seq<WorldEvent>)
    requires IsHistory(events)
    ensures WorldInv(WorldAfter(events))
    decreases |events|
  {
    if events == [] {
      InitSystemInv();
    } else {
      Worlds(events[..|events| - 1]);
      hide WorldInv, CanHappen;
      WorldKeeps(WorldAfter(events[..|events| - 1]), events[|events| - 1]);
    }
  }

  /** In every run of the server with any number of client cores, and of other clients that behave as they
      like, no client core ever fails to find the callback of a response. */
  lemma NoResponseIsLost(events: seq<WorldEvent>, c: ClientId)
    requires IsHistory(events) && c in WorldAfter(events).ends
    ensures WorldAfter(events).ends[c].fate != LostOnReceive
  {
    Worlds(events);
    assert EndOk(WorldAfter(events).ends[c], c, Inbox(WorldAfter(events), c), WorldAfter(events).sys.All());
  }

  // ---------- Everything in flight ----------

  /** Where a request of a client, or its response, may currently be. */
  datatype Place = InPending(m: MsgId) | InInbox(i: nat) | OnTheWay(k: nat)

  ghost predicate InFlight(w: World, c: ClientId, at: Place)
    requires c in w.ends
  {
    match at
    case InPending(m) => m in w.sys.core.pending && w.sys.core.pending[m].requester == c
    case InInbox(i) => w.ends[c].got <= i < |Inbox(w, c)| && Inbox(w, c)[i].content.Rsp?
    case OnTheWay(k) =>
      k < |w.ends[c].up| && w.ends[c].up[k].content.Req? && Message(c, w.ends[c].up[k]) !in w.sys.core.processed
  }

  ghost function IdAt(w: World, c: ClientId, at: Place): MsgId
    requires c in w.ends && InFlight(w, c, at)
  {
    match at
    case InPending(m) => w.sys.core.pending[m].requestId
    case InInbox(i) => Inbox(w, c)[i].content.reqId
    case OnTheWay(k) => w.ends[c].up[k].id
  }

  /** The accepted request behind a pending entry or a response. */
  lemma AcceptedAt(w: World, c: ClientId, at: Place) returns (m: MsgId)
    requires WorldInv(w) && c in w.ends && InFlight(w, c, at) && !at.OnTheWay?
    ensures var s := w.sys.core;
            && m in s.accepted && s.accepted[m].requester == c && s.accepted[m].requestId == IdAt(w, c, at)
            && (at.InPending? ==> m == at.m && m !in s.outcome)
            && (at.InInbox? ==> m in s.outcome && s.outcome[m].Responded? && s.outcome[m].pos == at.i)
  {
    var s := w.sys.core;
    assert Inv(s, {});
    match at
    case InPending(p) => m := p;
    case InInbox(i) => hide SystemInv, Inv, EndOk; m := OriginOf(s, c, i);
  }

  /** A request still on its way shares its id with none that the server has accepted. */
  lemma OnTheWayIsNew(w: World, c: ClientId, k: nat, m: MsgId)
    requires WorldInv(w) && c in w.ends && InFlight(w, c, OnTheWay(k))
    requires m in w.sys.core.accepted && w.sys.core.accepted[m].requester == c
    ensures w.sys.core.accepted[m].requestId != w.ends[c].up[k].id
  {
    var s, end := w.sys.core, w.ends[c];
    assert Inv(s, {}) && EndOk(end, c, s.Channel(c), w.sys.All());
    UpNumbered(end, c, s.Channel(c), w.sys.All());
    hide SystemInv, Inv, EndOk, InOrder;
    AskedAt(s, m);
    AskedOnce(s, w.sys.All(), c, end.up[..end.taken], m, m);
    var ask := Msg(s.accepted[m].requestId, ProtocolClient.Req(s.accepted[m].topic, s.accepted[m].payload));
    assert Message(c, ask) in s.processed;
    if ask.id == end.up[k].id { SameNumber(end.up, end.client.nextMsgId, ask, end.up[k]); }
  }

  lemma SameNumber(up: seq<ClientMsg>, last: MsgId, x: ClientMsg, y: ClientMsg)
    requires Numbered(up, last) && x in up && y in up && x.id == y.id
    ensures x == y
  {}

  /** Requests in flight, pending entries and responses in flight for one client bear pairwise distinct ids ... */
  lemma InFlightDistinct(w: World, c: ClientId, a: Place, b: Place)
    requires WorldInv(w) && c in w.ends && InFlight(w, c, a) && InFlight(w, c, b) && a != b
    ensures IdAt(w, c, a) != IdAt(w, c, b)
  {
    hide WorldInv, EndOk, InOrder, Inv, Core.Channel, System.All;
    var end := w.ends[c];
    EndFacts(w, c);
    if a.OnTheWay? && b.OnTheWay? {
      UpNumbered(end, c, Inbox(w, c), w.sys.All());
    } else if a.OnTheWay? {
      var m := AcceptedAt(w, c, b);
      OnTheWayIsNew(w, c, a.k, m);
    } else if b.OnTheWay? {
      var m := AcceptedAt(w, c, a);
      OnTheWayIsNew(w, c, b.k, m);
    } else {
      var m := AcceptedAt(w, c, a);
      var n := AcceptedAt(w, c, b);
      UpNumbered(end, c, Inbox(w, c), w.sys.All());
      AskedOnce(w.sys.core, w.sys.All(), c, end.up[..end.taken], m, n);
    }
  }

  lemma EndFacts(w: World, c: ClientId)
    requires WorldInv(w) && c in w.ends
    ensures Inv(w.sys.core, {}) && EndOk(w.ends[c], c, Inbox(w, c), w.sys.All()) && w.sys.core.processed <= w.sys.All()
  {
    hide Inv, EndOk;
  }

  lemma UpNumbered(end: End, c: ClientId, inbox: seq<ServerMsg>, all: seq<Task>)
    requires EndOk(end, c, inbox, all)
    ensures Numbered(end.up, end.client.nextMsgId) && end.taken <= |end.up| && end.got <= |inbox|
    ensures InOrder(all, c, end.up[..end.taken])
  {}

  /** ... and each of them is still a key of the response callbacks. */
  lemma InFlightAwaited(w: World, c: ClientId, at: Place)
    requires WorldInv(w) && c in w.ends && w.ends[c].fate.Living? && InFlight(w, c, at)
    ensures IdAt(w, c, at) in w.ends[c].client.rsps
  {
    hide WorldInv, Inv, EndOk, Agrees, InOrder, Numbered, Core.Channel, System.All, RspIds;
    EndFacts(w, c);
    if at.OnTheWay? {
      StillAwaited(w, c, at.k);
    } else {
      var m := AcceptedAt(w, c, at);
      Awaited(w.sys.core, w.sys.All(), c, w.ends[c], m);
    }
  }

  lemma StillAwaited(w: World, c: ClientId, k: nat)
    requires WorldInv(w) && c in w.ends && w.ends[c].fate.Living? && InFlight(w, c, OnTheWay(k))
    ensures w.ends[c].up[k].id in w.ends[c].client.rsps
  {
    hide WorldInv, Inv, Agrees, InOrder, Numbered, Core.Channel, System.All;
    var end := w.ends[c];
    var id := end.up[k].id;
    EndFacts(w, c);
    assert end.up[k] in end.up && id in ReqIds(end.up);
    if id in RspIds(Inbox(w, c)[..end.got]) {
      var x :| x in Inbox(w, c)[..end.got] && x.content.Rsp? && x.content.reqId == id;
      var i :| 0 <= i < end.got && Inbox(w, c)[i] == x;
      var m := OriginOf(w.sys.core, c, i);
      OnTheWayIsNew(w, c, k, m);
    }
  }

  // ---------- What holds of every run holds here ----------

  /** What an event of the world is to the server. */
  function ServerSide(w: World, e: WorldEvent): seq<Event> {
    match e
    case Server(event) => [event]
    case Hand(c) =>
      if c in w.ends && w.ends[c].taken < |w.ends[c].up| then [Receive(c, w.ends[c].up[w.ends[c].taken])] else []
    case _ => []
  }

  lemma ServerFollows(w: World, e: WorldEvent)
    requires CanHappen(w, e)
    ensures var side := ServerSide(w, e);
            if side == [] then Happen(w, e).sys == w.sys
            else |side| == 1 && Enabled(w.sys, side[0]) && Happen(w, e).sys == Apply(w.sys, side[0])
  {
    hide Apply, Enabled, AfterReceive, ClientSpec.Send, Possible, Inbox;
  }

  /** The server's side of a history is a run of the system. */
  lemma {:induction false} WorldIsRun(events: seq<WorldEvent>) returns (run: seq<Event>)
    requires IsHistory(events)
    ensures IsRun(run) && StateAfter(run) == WorldAfter(events).sys
    decreases |events|
  {
    hide CanHappen, Happen, Apply, Enabled, ServerSide;
    run := [];
    if events != [] {
      var w, e := WorldAfter(events[..|events| - 1]), events[|events| - 1];
      run := WorldIsRun(events[..|events| - 1]);
      ServerFollows(w, e);
      var side := ServerSide(w, e);
      if side != [] {
        Systems.Continues(run, side[0]);
        run := run + [side[0]];
      }
    }
  }

  /** Every Ack that a client core receives answers the one message of its own with that number. An Ack without an
      error carries the number of recipients exactly when that message was a publication, so the publisher's
      `unwrap` of it never fails. */
  lemma AckAnswersOwn(events: seq<WorldEvent>, c: ClientId, i: nat) returns (x: ClientMsg)
    requires IsHistory(events) && c in WorldAfter(events).ends
    requires i < |Inbox(WorldAfter(events), c)| && Inbox(WorldAfter(events), c)[i].content.Ack?
    ensures var up, ack := WorldAfter(events).ends[c].up, Inbox(WorldAfter(events), c)[i].content;
            && x in up && x.id == ack.msgId && (forall y | y in up && y.id == ack.msgId :: y == x)
            && (ack.err.None? ==> (ack.recipients.Some? <==> x.content.Pub?))
  {
    var w := WorldAfter(events);
    var run := WorldIsRun(events);
    var k := O.AckAnswersMessage(run, c, i);
    O.ProcessedAt(run, k);
    Worlds(events);
    hide IsHistory, WorldAfter, IsRun, StateAfter, WorldInv;
    var p := |StateAfter(run[..k]).core.processed|;
    x := w.sys.core.processed[p].msg;
    OwnMessage(w, c, p);
  }

  /** A processed message of an attached client is the one that it sent under that number. */
  lemma OwnMessage(w: World, c: ClientId, k: nat)
    requires WorldInv(w) && c in w.ends && k < |w.sys.core.processed|
    requires w.sys.core.processed[k].Message? && w.sys.core.processed[k].client == c
    ensures var x, up := w.sys.core.processed[k].msg, w.ends[c].up;
            x in up && forall y | y in up && y.id == x.id :: y == x
  {
    hide WorldInv, EndOk, InOrder, Numbered, System.All, Core.Channel, Inv;
    var s, end := w.sys.core, w.ends[c];
    EndFacts(w, c);
    UpNumbered(end, c, Inbox(w, c), w.sys.All());
    assert w.sys.All()[k] == s.processed[k];
    Places(w.sys.All(), c, end.up[..end.taken], k, k);
    var x := s.processed[k].msg;
    assert x in end.up;
    forall y | y in end.up && y.id == x.id ensures y == x { SameNumber(end.up, end.client.nextMsgId, y, x); }
  }
}
