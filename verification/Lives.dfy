/** Client cores inside histories: each lives a life of its own, so whatever is known of lives holds there too. */
module Lives {
  import opened Tries
  import opened Topics
  import opened Protocol
  import opened Systems
  import opened ClientSpec
  import opened Composition
  import Runs = ClientRuns
  import EndToEnd

  /** Everything that a client core has received. */
  function Heard(w: World, c: ClientId): seq<ServerMsg>
    requires c in w.ends
  {
    if w.ends[c].got <= |Inbox(w, c)| then Inbox(w, c)[..w.ends[c].got] else []
  }

  /** What the steps received, in order. */
  function Received(steps: seq<Runs.Step>): seq<ServerMsg> {
    if steps == [] then []
    else
      var last := steps[|steps| - 1];
      Received(steps[..|steps| - 1]) + if last.Get? then [last.msg] else []
  }

  /** The client lived `steps`, in which it received `heard`, and is still there. */
  ghost predicate LivesOn(end: End, heard: seq<ServerMsg>, steps: seq<Runs.Step>) {
    && Runs.IsLife(steps) && end.client == Runs.ClientAfter(steps) && end.up == Runs.SentBy(steps)
    && Received(steps) == heard
  }

  /** The client lived `steps`, and `last` ended it. */
  ghost predicate EndedBy(end: End, heard: seq<ServerMsg>, steps: seq<Runs.Step>, last: Runs.Step) {
    && Runs.IsLife(steps) && Received(steps) + (if last.Get? then [last.msg] else []) == heard
    && (last.Act? ==> !last.task.TaskStop?)
    && (last.Get? ==> Possible(Runs.ClientAfter(steps), last.msg, last.choices))
    && var (client, ending, out) := Runs.Apply(Runs.ClientAfter(steps), last);
       && end.client == client && end.up == Runs.SentBy(steps) + out && !ending.Alive?
       && end.fate == FateOf(ending, if last.Act? then LostOnSend else LostOnReceive)
  }

  /** What `e` is to the client `c`. */
  ghost predicate IsStepOf(w: World, e: WorldEvent, c: ClientId, step: Runs.Step) {
    c in w.ends &&
    match step
    case Act(task, lost) => e == WorldEvent.Act(c, task, lost)
    case Get(msg, ch) =>
      && e == WorldEvent.Get(c, ch) && w.ends[c].got < |Inbox(w, c)|
      && msg == Inbox(w, c)[w.ends[c].got]
  }

  lemma LivesOneMore(end: End, end': End, heard: seq<ServerMsg>, heard': seq<ServerMsg>, steps: seq<Runs.Step>,
                     step: Runs.Step)
    requires LivesOn(end, heard, steps) && heard' == heard + if step.Get? then [step.msg] else []
    requires step.Act? ==> !step.task.TaskStop?
    requires step.Get? ==> Possible(end.client, step.msg, step.choices)
    requires var (client, ending, out) := Runs.Apply(end.client, step);
             && end'.client == client && end'.up == end.up + out
             && end'.fate == FateOf(ending, if step.Act? then LostOnSend else LostOnReceive)
    ensures if end'.fate.Living? then LivesOn(end', heard', steps + [step]) else EndedBy(end', heard', steps, step)
  {
    hide Possible, Runs.Apply;
    assert (steps + [step])[..|steps|] == steps;
  }

  /** One event is at most one step of a client, and leaves all others as they are. */
  lemma StepOrNot(w: World, e: WorldEvent, c: ClientId) returns (step: Runs.Step, stepped: bool)
    requires CanHappen(w, e) && c in w.ends
    ensures c in Happen(w, e).ends
    ensures var end, end' := w.ends[c], Happen(w, e).ends[c];
            if !stepped
            then end'.client == end.client && end'.up == end.up && end'.fate == end.fate && end'.got == end.got
            else
              && end.fate.Living? && IsStepOf(w, e, c, step) && (step.Act? ==> !step.task.TaskStop?)
              && (step.Get? ==> Possible(end.client, step.msg, step.choices))
              && end'.got == (if step.Get? then end.got + 1 else end.got)
              && var (client, ending, out) := Runs.Apply(end.client, step);
                 && end'.client == client && end'.up == end.up + out
                 && end'.fate == FateOf(ending, if step.Act? then LostOnSend else LostOnReceive)
  {
    hide Possible, ClientSpec.Send, AfterReceive, Enabled, Systems.Apply;
    step, stepped := Runs.Act(TaskKeepAlive, {}), false;
    match e {
      case Act(d, task, lost) =>
        if d == c { step, stepped := Runs.Act(task, lost), true; }
      case Get(d, ch) =>
        if d == c { step, stepped := Runs.Get(Inbox(w, c)[w.ends[c].got], ch), true; }
      case _ =>
    }
  }

  lemma HearsMore(w: World, w': World, c: ClientId, step: Runs.Step, stepped: bool)
    requires c in w.ends && c in w'.ends && w.ends[c].got <= |Inbox(w, c)| && Inbox(w, c) <= Inbox(w', c)
    requires w'.ends[c].got == if stepped && step.Get? then w.ends[c].got + 1 else w.ends[c].got
    requires stepped && step.Get? ==> w.ends[c].got < |Inbox(w, c)| && step.msg == Inbox(w, c)[w.ends[c].got]
    ensures Heard(w', c) == Heard(w, c) + if stepped && step.Get? then [step.msg] else []
  {}

  lemma GotInRange(events: seq<WorldEvent>, c: ClientId)
    requires IsHistory(events) && c in WorldAfter(events).ends
    ensures WorldAfter(events).ends[c].got <= |Inbox(WorldAfter(events), c)|
  {
    Worlds(events);
    EndFacts(WorldAfter(events), c);
  }

  /** In every history, every client core has lived a life, and if it has ended, one more step explains how. */
  lemma {:induction false} EndHasLife(events: seq<WorldEvent>, c: ClientId)
    returns (steps: seq<Runs.Step>, last: Runs.Step)
    requires IsHistory(events) && c in WorldAfter(events).ends
    ensures var end, heard := WorldAfter(events).ends[c], Heard(WorldAfter(events), c);
            if end.fate.Living? then LivesOn(end, heard, steps) else EndedBy(end, heard, steps, last)
    decreases |events|
  {
    assert events != [];
    hide IsHistory, WorldAfter, CanHappen, Happen, LivesOn, EndedBy, Possible, Runs.Apply, Inbox, Heard;
    var k := |events| - 1;
    var before, e := events[..k], events[k];
    var w, w' := WorldAfter(before), WorldAfter(events);
    assert events[..k + 1] == events;
    EndToEnd.HistoryUpTo(events, k);
    last := Runs.Act(TaskKeepAlive, {});
    if c in w.ends {
      steps, last := EndHasLife(before, c);
      var step, stepped := StepOrNot(w, e, c);
      EndToEnd.InboxKeeps(before, events, c);
      GotInRange(before, c);
      HearsMore(w, w', c, step, stepped);
      if stepped {
        LivesOneMore(w.ends[c], w'.ends[c], Heard(w, c), Heard(w', c), steps, step);
        if w'.ends[c].fate.Living? { steps := steps + [step]; } else { last := step; }
      } else {
        SameLife(w.ends[c], w'.ends[c], Heard(w, c), steps, last);
      }
    } else {
      steps := [];
      NewLife(w, e, c);
    }
  }

  lemma SameLife(end: End, end': End, heard: seq<ServerMsg>, steps: seq<Runs.Step>, last: Runs.Step)
    requires if end.fate.Living? then LivesOn(end, heard, steps) else EndedBy(end, heard, steps, last)
    requires end'.client == end.client && end'.up == end.up && end'.fate == end.fate
    ensures if end'.fate.Living? then LivesOn(end', heard, steps) else EndedBy(end', heard, steps, last)
  {}

  lemma NewLife(w: World, e: WorldEvent, c: ClientId)
    requires CanHappen(w, e) && c !in w.ends && c in Happen(w, e).ends
    ensures var w' := Happen(w, e); w'.ends[c].fate.Living? && LivesOn(w'.ends[c], Heard(w', c), [])
  {
    hide Enabled, Systems.Apply, ClientSpec.Send, AfterReceive, Possible;
  }

  /** So a client core dies in a history only of its own Unsrv, and exactly of one for a topic that it has given up
      as often as it took it; it ends with an error exactly for the reasons that `Breaks` lists. */
  lemma EndExplained(events: seq<WorldEvent>, c: ClientId) returns (steps: seq<Runs.Step>, last: Runs.Step)
    requires IsHistory(events) && c in WorldAfter(events).ends && !WorldAfter(events).ends[c].fate.Living?
    ensures EndedBy(WorldAfter(events).ends[c], Heard(WorldAfter(events), c), steps, last)
    ensures var fate := WorldAfter(events).ends[c].fate;
            && (fate == LostOnSend <==>
                  last.Act? && last.task.TaskUnsrv? && Runs.Serving(steps, Segments(last.task.topic)) == 0)
            && (fate == Over <==> Runs.Breaks(steps, last))
            && (fate == LostOnSend || fate == Over)
  {
    hide IsHistory, WorldAfter, Heard;
    steps, last := EndHasLife(events, c);
    NoResponseIsLost(events, c);
    hide Runs.IsLife, Runs.ClientAfter, Runs.Breaks, Runs.Serving, Possible, Runs.Apply, Segments;
    Runs.TurnOutcome(steps, last);
  }

  /** And while it lives, an Unsrv would fail its `unwrap` exactly then. */
  lemma UnsrvInHistory(events: seq<WorldEvent>, c: ClientId, topic: Topic) returns (steps: seq<Runs.Step>)
    requires IsHistory(events) && c in WorldAfter(events).ends && WorldAfter(events).ends[c].fate.Living?
    ensures LivesOn(WorldAfter(events).ends[c], Heard(WorldAfter(events), c), steps)
    ensures BeforeSend(WorldAfter(events).ends[c].client, TaskUnsrv(topic)).1.Panicked?
            <==> Runs.Serving(steps, Segments(topic)) == 0
  {
    hide IsHistory, WorldAfter, Heard;
    var last;
    steps, last := EndHasLife(events, c);
    Runs.UnsrvFailsExactly(steps, topic);
    hide Runs.Serving, BeforeSend;
  }
}
