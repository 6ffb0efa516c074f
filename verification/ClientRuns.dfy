/** A client's whole life: when the `unwrap` behind an Unsrv can fail. */
module ClientRuns {
  import opened Matching
  import opened Topics
  import opened Protocol
  import opened ClientSpec

  /** A step, together with what the world decides in it: `lost` holds the messages that the connection refuses. */
  datatype Step = Act(task: ClientTask, lost: set<MsgId>) | Get(msg: ServerMsg, choices: Choices)

  function Apply(s: Client, step: Step): (Client, Ending, seq<ClientMsg>) {
    match step
    case Act(task, lost) => Send(s, task, lost)
    case Get(msg, ch) => AfterReceive(s, msg, ch)
  }

  function ClientAfter(steps: seq<Step>): Client {
    if steps == [] then InitClient() else Apply(ClientAfter(steps[..|steps| - 1]), steps[|steps| - 1]).0
  }

  /** Every step could happen, and none of them ended the loop. */
  ghost predicate IsLife(steps: seq<Step>) {
    steps != [] ==>
      var before, step := steps[..|steps| - 1], steps[|steps| - 1];
      && IsLife(before)
      && (step.Get? ==> Possible(ClientAfter(before), step.msg, step.choices))
      && Apply(ClientAfter(before), step).1.Alive?
  }

  /** How many more Srv than Unsrv there were for a topic. */
  function Serving(steps: seq<Step>, p: Pattern): int {
    if steps == [] then 0
    else
      var step := steps[|steps| - 1];
      Serving(steps[..|steps| - 1], p)
      + (if step.Act? && step.task.TaskSrv? && Segments(step.task.topic) == p then 1 else 0)
      - (if step.Act? && step.task.TaskUnsrv? && Segments(step.task.topic) == p then 1 else 0)
  }

  /** Along a client's life a topic is served at most once at a time, and the local directory knows whether. */
  lemma {:induction false} ServedOnce(steps: seq<Step>, p: Pattern)
    requires IsLife(steps)
    ensures Agrees(ClientAfter(steps))
    ensures Serving(steps, p) == if ClientAfter(steps).dir.Owner(p).Some? then 1 else 0
    decreases |steps|
  {
    if steps == [] {
      InitAgrees();
    } else {
      var before, step := steps[..|steps| - 1], steps[|steps| - 1];
      var s := ClientAfter(before);
      ServedOnce(before, p);
      match step {
        case Act(task, lost) => SendAgrees(s, task, lost); OwnerAfterSend(s, task, p);
        case Get(msg, ch) => AfterReceiveAgrees(s, msg, ch);
      }
      hide Agrees, Possible, BeforeSend, Send, AfterReceive;
    }
  }

  lemma OwnerAfterSend(s: Client, task: ClientTask, p: Pattern)
    requires Agrees(s) && BeforeSend(s, task).1.Alive?
    ensures var was, now := s.dir.Owner(p), BeforeSend(s, task).0.dir.Owner(p);
            if task.TaskSrv? && Segments(task.topic) == p then was.None? && now.Some?
            else if task.TaskUnsrv? && Segments(task.topic) == p then was.Some? && now.None?
            else now == was
  {
    BeforeSendAgrees(s, task);
  }

  /** The `unwrap` for an Unsrv fails exactly when this client has given the topic up as often as it took it.
      So it never fails when each Unsrv follows its own successful Srv. */
  lemma UnsrvFailsExactly(steps: seq<Step>, topic: Topic)
    requires IsLife(steps)
    ensures BeforeSend(ClientAfter(steps), TaskUnsrv(topic)).1.Panicked? <==> Serving(steps, Segments(topic)) == 0
    ensures Serving(steps, Segments(topic)) in {0, 1}
  {
    ServedOnce(steps, Segments(topic));
    hide IsLife, ClientAfter, Serving, Segments, Agrees;
  }

  // ---------- The event loop ----------

  /** What wakes the loop: a message from the server, the end of that channel or a failure to read it, a task, the
      end of the tasks, or the keep-alive timer. The callbacks in `dead` have lost their users, and the connection
      refuses the messages in `lost`. */
  datatype Input =
    | FromServer(msg: ServerMsg, dead: set<MsgId>, lost: set<MsgId>)
    | ChannelClosed
    | ReadFailed
    | FromUser(task: ClientTask, lost: set<MsgId>)
    | NoMoreUsers
    | KeepAliveTick(lost: set<MsgId>)

  /** How the loop stands after a turn: not over, returned, left with an error, or dead of a failed `unwrap`. */
  datatype LoopEnd = Ongoing | Finished | Broken | Dead

  /** The inputs that end the loop without a step. */
  predicate Leaves(input: Input) {
    input.ChannelClosed? || input.ReadFailed? || input.NoMoreUsers? || (input.FromUser? && input.task.TaskStop?)
  }

  function LeaveEnd(input: Input): LoopEnd {
    if input.ChannelClosed? || input.ReadFailed? then Broken else Finished
  }

  function LoopOn(ending: Ending): LoopEnd {
    match ending
    case Alive => Ongoing
    case Failed => Broken
    case Panicked => Dead
  }

  /** `step` is the loop's reaction to `input`: the order of a visit is the loop's to find, all else is given. */
  predicate Answers(step: Step, input: Input) {
    match input
    case FromServer(msg, dead, lost) =>
      step.Get? && step.msg == msg && step.choices.dead == dead && step.choices.lost == lost
    case FromUser(task, lost) => !task.TaskStop? && step == Act(task, lost)
    case KeepAliveTick(lost) => step == Act(TaskKeepAlive, lost)
    case _ => false
  }

  /** Everything a life sent to the server, in order. */
  function SentBy(steps: seq<Step>): seq<ClientMsg> {
    if steps == [] then []
    else
      var before := steps[..|steps| - 1];
      SentBy(before) + Apply(ClientAfter(before), steps[|steps| - 1]).2
  }

  /** The inputs on which a client with this life dies: a response to a request that is not waiting for one, and an
      Unsrv for a topic that was given up as often as it was taken. */
  predicate Kills(steps: seq<Step>, step: Step) {
    match step
    case Get(msg, _) => msg.content.Rsp? && msg.content.reqId !in ClientAfter(steps).rsps
    case Act(task, _) => task.TaskUnsrv? && Serving(steps, Segments(task.topic)) == 0
  }

  /** The inputs on which it ends with an error: a request whose callback lost its user, a Srv on a topic that it
      serves already or that has a wildcard, and any message that the connection refuses. */
  ghost predicate Breaks(steps: seq<Step>, step: Step) {
    var s := ClientAfter(steps);
    match step
    case Get(msg, ch) =>
      || (msg.content.Req? && s.dir.Owner(Segments(msg.content.topic)).Some?
          && s.dir.Owner(Segments(msg.content.topic)).value in ch.dead)
      || (msg.content.Pub? && !Writable(s.nextMsgId, Unsubs(ch.order, ch), ch.lost))
    case Act(task, lost) =>
      && !Kills(steps, step)
      && (!Writable(s.nextMsgId, 1, lost)
          || (task.TaskSrv? && !(Concrete(Segments(task.topic)) && Serving(steps, Segments(task.topic)) == 0)))
  }

  /** How one more step ends. */
  lemma TurnOutcome(steps: seq<Step>, step: Step)
    requires IsLife(steps) && (step.Act? ==> !step.task.TaskStop?)
    requires step.Get? ==> Possible(ClientAfter(steps), step.msg, step.choices)
    ensures var (s', ending, _) := Apply(ClientAfter(steps), step);
            Agrees(s') && (ending.Panicked? <==> Kills(steps, step)) && (ending.Failed? <==> Breaks(steps, step))
  {
    var s := ClientAfter(steps);
    ServedOnce(steps, []);
    hide Agrees, Possible, BeforeSend, Send, AfterReceive, IsLife, ClientAfter, Writable, Unsubs;
    match step
    case Get(msg, ch) => AfterReceiveAgrees(s, msg, ch);
    case Act(task, lost) =>
      BeforeSendAgrees(s, task);
      SendAgrees(s, task, lost);
      if task.TaskUnsrv? || task.TaskSrv? { ServedOnce(steps, Segments(task.topic)); }
  }
}
