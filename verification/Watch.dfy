/**
  One watcher of the runtime: it subscribes, sends a snapshot, then for every event
  sends the task as it is by then, and a new snapshot when it has fallen behind.
  The runtime goes on meanwhile.
*/
module Watch {
  import opened Wrappers
  import opened Registry
  import opened Scheduler
  import opened Eviction
  import opened Family
  import opened Published
  import opened Lifecycle

  datatype Message = Snapshot(tasks: map<TaskId, TaskInfo>) | Changed(info: TaskInfo)

  /** Where the forwarder is. */
  datatype WatchPc =
    | Subscribed                // about to take its first snapshot
    | Listening
    | Looking(task: TaskId)     // has an event of this task, about to read it
    | Behind                    // has been told it missed events, about to take a snapshot
    | Stopping                  // the server is closing, about to take the last snapshot
    | Done

  /** `next` is the position in the event log of the next event to receive; `sent` is everything put on the channel. */
  datatype Watcher = Watcher(pc: WatchPc, next: nat, sent: seq<Message>)

  datatype World = World(sys: Sys, watcher: Watcher, buffer: nat)

  datatype Move =
    | Runs(step: Step)
    | First                     // the first snapshot
    | Receive                   // the next event, or that events were missed
    | Look                      // read the task an event named
    | CatchUp                   // the snapshot after missing events
    | SeeClosing
    | Last                      // the snapshot before the stream closes
    | ClientLeaves

  function SnapshotOf(r: Registry): Message {
    Snapshot(map id | id in r.tasks :: r.tasks[id].info)
  }

  /** The subscription starts where the log is. */
  function Watching(sys: Sys, buffer: nat): World {
    World(sys, Watcher(Subscribed, |sys.log|, []), buffer)
  }

  predicate Able(w: World, move: Move) {
    match move
    case Runs(step) => Enabled(w.sys, step)
    case First => w.watcher.pc.Subscribed?
    case Receive => w.watcher.pc.Listening? && w.watcher.next < |w.sys.log|
    case Look => w.watcher.pc.Looking?
    case CatchUp => w.watcher.pc.Behind?
    case SeeClosing => w.watcher.pc.Listening?
    case Last => w.watcher.pc.Stopping?
    case ClientLeaves => true
  }

  function Sends(w: Watcher, pc: WatchPc, message: Message): Watcher {
    w.(pc := pc, sent := w.sent + [message])
  }

  /** An event, or, more than the buffer behind, that events were missed and where what is left of them begins. */
  function Received(w: World): Watcher
    requires Able(w, Receive)
  {
    if |w.sys.log| - w.watcher.next > w.buffer then w.watcher.(pc := Behind, next := |w.sys.log| - w.buffer)
    else w.watcher.(pc := Looking(w.sys.log[w.watcher.next].TaskOf()), next := w.watcher.next + 1)
  }

  /** The task as it is now; one evicted since has nothing to say about it. */
  function Looked(w: World): Watcher
    requires Able(w, Look)
  {
    var id := w.watcher.pc.task;
    if id in w.sys.reg.tasks then Sends(w.watcher, Listening, Changed(w.sys.reg.tasks[id].info))
    else w.watcher.(pc := Listening)
  }

  ghost function After(w: World, move: Move): World
    requires Able(w, move)
  {
    match move
    case Runs(step) => w.(sys := Next(w.sys, step))
    case First => w.(watcher := Sends(w.watcher, Listening, SnapshotOf(w.sys.reg)))
    case Receive => w.(watcher := Received(w))
    case Look => w.(watcher := Looked(w))
    case CatchUp => w.(watcher := Sends(w.watcher, Listening, SnapshotOf(w.sys.reg)))
    case SeeClosing => w.(watcher := w.watcher.(pc := Stopping))
    case Last => w.(watcher := Sends(w.watcher, Done, SnapshotOf(w.sys.reg)))
    case ClientLeaves => w.(watcher := w.watcher.(pc := Done))
  }

  ghost predicate AbleAll(w: World, moves: seq<Move>)
    decreases |moves|
  {
    moves == [] || (Able(w, moves[0]) && AbleAll(After(w, moves[0]), moves[1..]))
  }

  ghost function AfterAll(w: World, moves: seq<Move>): World
    requires AbleAll(w, moves)
    decreases |moves|
  {
    if moves == [] then w else AfterAll(After(w, moves[0]), moves[1..])
  }

  /**
    Every event within the buffer is answered with the task as it is by then, unless it has gone; a watcher further behind
    takes a snapshot instead, and goes on with the oldest event there still is.
  */
  lemma AnswersEvent(w: World, between: Sys)
    requires Able(w, Receive)
    ensures var event := w.sys.log[w.watcher.next];
            if |w.sys.log| - w.watcher.next <= w.buffer then
              var received := After(w, Receive).(sys := between);
              && Able(received, Look)
              && After(received, Look).watcher
                 == Watcher(Listening, w.watcher.next + 1,
                            w.watcher.sent + if event.TaskOf() in between.reg.tasks
                                             then [Changed(between.reg.tasks[event.TaskOf()].info)] else [])
            else
              var missed := After(w, Receive).(sys := between);
              && Able(missed, CatchUp)
              && After(missed, CatchUp).watcher
                 == Watcher(Listening, |w.sys.log| - w.buffer, w.watcher.sent + [SnapshotOf(between.reg)])
  {
    assert w.watcher.sent + [] == w.watcher.sent;
  }

  // ----- what the client holds -----

  /** What one message says of a task: its value, or, in a snapshot without it, that there is none. */
  function Says(message: Message, id: TaskId): Option<TaskInfo> {
    match message
    case Snapshot(tasks) => if id in tasks then Some(tasks[id]) else None
    case Changed(info) => if info.id == id then Some(info) else None
  }

  /** The client's copy of a task once it has taken these messages in. */
  function Copy(messages: seq<Message>, id: TaskId): Option<TaskInfo> {
    if messages == [] then None
    else
      var last := messages[|messages| - 1];
      if last.Changed? && last.info.id != id then Copy(messages[..|messages| - 1], id) else Says(last, id)
  }

  lemma CopySent(messages: seq<Message>, message: Message, id: TaskId)
    ensures Copy(messages + [message], id)
         == if message.Changed? && message.info.id != id then Copy(messages, id) else Says(message, id)
  {
    assert (messages + [message])[..|messages|] == messages;
  }

  // ----- convergence -----

  /** An event of the task is still to be received. */
  ghost predicate TellsFrom(log: seq<TaskEvent>, from: nat, id: TaskId) {
    exists k :: from <= k < |log| && log[k].TaskOf() == id
  }

  /** Whatever the copy sent last lacks of a task is still to come. */
  ghost predicate CoveredAt(w: World, id: TaskId) {
    id in w.sys.reg.tasks ==>
      || Copy(w.watcher.sent, id) == Some(w.sys.reg.tasks[id].info)
      || TellsFrom(w.sys.log, w.watcher.next, id)
      || w.watcher.pc == Looking(id)
      || w.watcher.pc.Subscribed? || w.watcher.pc.Behind? || w.watcher.pc.Stopping? || w.watcher.pc.Done?
      || w.sys.reg.tasks[id].throttle.pending
  }

  lemma RunsCovered(w: World, step: Step, events: seq<TaskEvent>, id: TaskId)
    requires Able(w, Runs(step)) && CoveredAt(w, id) && w.watcher.next <= |w.sys.log|
    requires Told(Next(w.sys, step), w.sys, events)
    ensures CoveredAt(After(w, Runs(step)), id)
  {
    hide Next, Enabled, StatesOf, MayFollow;
    ToldCovers(w.sys, Next(w.sys, step), events, w.watcher.next, id);
  }

  lemma ToldCovers(s: Sys, t: Sys, events: seq<TaskEvent>, next: nat, id: TaskId)
    requires Told(t, s, events) && next <= |s.log|
    ensures TellsFrom(s.log, next, id) ==> TellsFrom(t.log, next, id)
    ensures id in t.reg.tasks && !TellsFrom(t.log, next, id) ==>
              && id in s.reg.tasks
              && (t.reg.tasks[id].info == s.reg.tasks[id].info || t.reg.tasks[id].throttle.pending)
              && (s.reg.tasks[id].throttle.pending ==> t.reg.tasks[id].throttle.pending)
  {
    if k :| next <= k < |s.log| && s.log[k].TaskOf() == id {
      assert t.log[k].TaskOf() == id;
    }
    assert ToldAt(t.reg.tasks, s.reg.tasks, events, id);
    if Tells(events, id) {
      var k :| 0 <= k < |events| && events[k].TaskOf() == id;
      assert t.log[|s.log| + k].TaskOf() == id;
    }
    hide StatesOf, MayFollow;
  }

  lemma WatcherCovered(w: World, move: Move, id: TaskId)
    requires Able(w, move) && !move.Runs? && CoveredAt(w, id) && Linked(w.sys.reg.tasks)
    ensures CoveredAt(After(w, move), id)
  {
    var r := w.sys.reg;
    match move {
      case Look =>
        var task := w.watcher.pc.task;
        if task in r.tasks {
          CopySent(w.watcher.sent, Changed(r.tasks[task].info), id);
        }
      case Receive =>
        if TellsFrom(w.sys.log, w.watcher.next, id) && w.sys.log[w.watcher.next].TaskOf() != id {
          var k :| w.watcher.next <= k < |w.sys.log| && w.sys.log[k].TaskOf() == id;
          assert k >= w.watcher.next + 1;
        }
      case _ =>
        CopySent(w.watcher.sent, SnapshotOf(r), id);
    }
    hide Linked, Copy;
  }

  // ----- never backwards -----

  /** A state that may be seen after another: the same, a later one, or another wait. */
  predicate NotBack(was: TaskState, now: TaskState) {
    now == was || Rank(was) < Rank(now) || (was.Queued? && now.Queued?)
  }

  lemma NotBackTwice(a: TaskState, b: TaskState, c: TaskState)
    requires NotBack(a, b) && NotBack(b, c)
    ensures NotBack(a, c)
  {
  }

  lemma FollowsNotBack(was: TaskState, now: TaskState)
    requires MayFollow(was, now)
    ensures NotBack(was, now)
  {
  }

  /** A retained task's state moves only forwards, and a task no longer retained never is again. */
  lemma StateMoves(s: Sys, t: Sys, events: seq<TaskEvent>, id: TaskId)
    requires FateAt(t, s, events, id) && ToldAt(t.reg.tasks, s.reg.tasks, events, id)
    requires id in t.reg.tasks && id in s.drivers
    ensures id in s.reg.tasks && NotBack(s.reg.tasks[id].info.state, t.reg.tasks[id].info.state)
  {
    if StatesOf(events, id) != [] && id in s.reg.tasks {
      FollowsNotBack(s.reg.tasks[id].info.state, StatesOf(events, id)[0]);
    }
    hide StatesOf, MayFollow, Tells;
  }

  /** The messages show a task never going back, and no further than it is. */
  ghost predicate ShownAt(w: World, id: TaskId) {
    && ShownForward(w.watcher.sent, id)
    && forall k :: 0 <= k < |w.watcher.sent| && Says(w.watcher.sent[k], id).Some? ==>
         && id in w.sys.drivers
         && (id in w.sys.reg.tasks ==> NotBack(Says(w.watcher.sent[k], id).value.state, w.sys.reg.tasks[id].info.state))
  }

  ghost predicate ShownForward(sent: seq<Message>, id: TaskId) {
    forall i, j :: 0 <= i < j < |sent| && Says(sent[i], id).Some? && Says(sent[j], id).Some? ==>
      NotBack(Says(sent[i], id).value.state, Says(sent[j], id).value.state)
  }

  lemma RunsShown(w: World, t: Sys, events: seq<TaskEvent>, id: TaskId)
    requires ShownAt(w, id) && FateAt(t, w.sys, events, id) && ToldAt(t.reg.tasks, w.sys.reg.tasks, events, id)
    ensures ShownAt(w.(sys := t), id)
  {
    forall k | 0 <= k < |w.watcher.sent| && Says(w.watcher.sent[k], id).Some?
      ensures id in t.drivers
      ensures id in t.reg.tasks ==> NotBack(Says(w.watcher.sent[k], id).value.state, t.reg.tasks[id].info.state)
    {
      if id in t.reg.tasks {
        StateMoves(w.sys, t, events, id);
        NotBackTwice(Says(w.watcher.sent[k], id).value.state, w.sys.reg.tasks[id].info.state, t.reg.tasks[id].info.state);
      }
    }
    hide NotBack, Says, ToldAt;
  }

  /** What is sent of a task is what it is. */
  lemma SaysNow(w: World, move: Move, id: TaskId)
    requires Able(w, move) && !move.Runs? && Linked(w.sys.reg.tasks)
    ensures var now := After(w, move).watcher.sent;
            && w.watcher.sent <= now && |now| <= |w.watcher.sent| + 1
            && (|now| > |w.watcher.sent| && Says(now[|w.watcher.sent|], id).Some? ==>
                  id in w.sys.reg.tasks && Says(now[|w.watcher.sent|], id).value == w.sys.reg.tasks[id].info)
  {
  }

  lemma WatcherShown(w: World, move: Move, id: TaskId)
    requires Able(w, move) && !move.Runs? && Linked(w.sys.reg.tasks) && ShownAt(w, id)
    requires id in w.sys.reg.tasks ==> id in w.sys.drivers
    ensures ShownAt(After(w, move), id)
  {
    SaysNow(w, move, id);
    var was, now := w.watcher.sent, After(w, move).watcher.sent;
    assert After(w, move).sys == w.sys;
    hide After, Able, Linked, Says, NotBack;
    assert forall k :: 0 <= k < |was| ==> now[k] == was[k];
    assert NotBackItself() by { StaysNotBack(); }
  }

  ghost predicate NotBackItself() {
    forall state :: NotBack(state, state)
  }

  lemma StaysNotBack()
    ensures NotBackItself()
  {
  }

  // ----- whole runs -----

  ghost predicate WatchedAt(w: World, id: TaskId) {
    CoveredAt(w, id) && ShownAt(w, id)
  }

  ghost predicate Watched(w: World) {
    w.watcher.next <= |w.sys.log| && forall id :: WatchedAt(w, id)
  }

  lemma NextWatched(w: World, move: Move)
    requires Whole(w.sys) && Able(w, move) && Watched(w)
    ensures Whole(After(w, move).sys) && Watched(After(w, move))
  {
    match move {
      case Runs(step) =>
        NextWhole(w.sys, step);
        RunsWatched(w, step);
      case _ =>
        MovesWatched(w, move);
    }
    hide *;
  }

  lemma RunsWatched(w: World, step: Step)
    requires Whole(w.sys) && Enabled(w.sys, step) && Whole(Next(w.sys, step)) && Watched(w)
    ensures Watched(After(w, Runs(step)))
  {
    hide Next, Enabled, Whole, WatchedAt, CoveredAt, ShownAt, OnlyLaunchRuns, ToldAt, FateAt;
    var events := NextTold(w.sys, step);
    assert Account(w.sys, step, events);
    forall id
      ensures WatchedAt(After(w, Runs(step)), id)
    {
      assert WatchedAt(w, id);
      SplitWatched(w, id);
      RunsCovered(w, step, events, id);
      NextFate(w.sys, step, events, id);
      RunsShown(w, Next(w.sys, step), events, id);
      JoinWatched(After(w, Runs(step)), id);
    }
  }

  lemma SplitWatched(w: World, id: TaskId)
    requires WatchedAt(w, id)
    ensures CoveredAt(w, id) && ShownAt(w, id)
  {
  }

  lemma JoinWatched(w: World, id: TaskId)
    requires CoveredAt(w, id) && ShownAt(w, id)
    ensures WatchedAt(w, id)
  {
  }

  lemma MovesWatched(w: World, move: Move)
    requires Whole(w.sys) && Able(w, move) && !move.Runs? && Watched(w)
    ensures Whole(After(w, move).sys) && Watched(After(w, move))
  {
    assert After(w, move).sys == w.sys && After(w, move).watcher.next <= |w.sys.log|;
    WholeParts(w.sys);
    hide After, Able, Whole, WatchedAt, CoveredAt, ShownAt, Linked;
    forall id
      ensures WatchedAt(After(w, move), id)
    {
      assert WatchedAt(w, id);
      SplitWatched(w, id);
      WatcherCovered(w, move, id);
      WatcherShown(w, move, id);
      JoinWatched(After(w, move), id);
    }
  }

  lemma WholeParts(s: Sys)
    requires Whole(s)
    ensures Linked(s.reg.tasks) && forall id :: id in s.reg.tasks ==> id in s.drivers
  {
  }

  lemma {:induction false} RunWatched(w: World, moves: seq<Move>)
    requires Whole(w.sys) && Watched(w) && AbleAll(w, moves)
    ensures Whole(AfterAll(w, moves).sys) && Watched(AfterAll(w, moves))
    decreases |moves|
  {
    hide Whole, Watched, After, Able;
    if moves != [] {
      NextWatched(w, moves[0]);
      RunWatched(After(w, moves[0]), moves[1..]);
    }
  }

  lemma WatchingWatched(s: Sys, buffer: nat)
    requires Whole(s)
    ensures Watched(Watching(s, buffer))
  {
    hide Whole;
  }

  /** Nothing is left to tell of a task: the watcher has received every event, and no progress of the task is held back. */
  predicate QuietAt(w: World, id: TaskId) {
    w.watcher.pc.Listening? && w.watcher.next == |w.sys.log| && id in w.sys.reg.tasks && !w.sys.reg.tasks[id].throttle.pending
  }

  /**
    However the runtime and the watcher interleave and however often it falls behind, once all is quiet what it sent last
    of every retained task is what the task is.
  */
  lemma Converges(s: Sys, w: World, moves: seq<Move>, id: TaskId)
    requires Whole(s) && w == Watching(s, w.buffer) && AbleAll(w, moves) && QuietAt(AfterAll(w, moves), id)
    ensures var end := AfterAll(w, moves); Copy(end.watcher.sent, id) == Some(end.sys.reg.tasks[id].info)
  {
    WatchingWatched(s, w.buffer);
    RunWatched(w, moves);
    hide Whole, AfterAll, AbleAll, Copy;
    assert WatchedAt(AfterAll(w, moves), id);
  }

  /** Where the client's copy of a task comes from: the last message that says anything of it. */
  lemma {:induction false} CopyFrom(messages: seq<Message>, id: TaskId) returns (k: nat)
    requires Copy(messages, id).Some?
    ensures k < |messages| && Says(messages[k], id) == Copy(messages, id)
    ensures forall j :: k < j < |messages| ==> messages[j].Changed? && Says(messages[j], id).None?
    decreases |messages|
  {
    var n := |messages| - 1;
    if messages[n].Changed? && messages[n].info.id != id {
      k := CopyFrom(messages[..n], id);
    } else {
      k := n;
    }
  }

  lemma CopyForward(sent: seq<Message>, id: TaskId, some: nat, more: nat)
    requires ShownForward(sent, id) && some <= more <= |sent|
    requires Copy(sent[..some], id).Some? && Copy(sent[..more], id).Some?
    ensures NotBack(Copy(sent[..some], id).value.state, Copy(sent[..more], id).value.state)
  {
    var i := CopyFrom(sent[..some], id);
    var j := CopyFrom(sent[..more], id);
    hide Copy, NotBack;
    assert sent[..some][i] == sent[i] && sent[..more][j] == sent[j] && sent[..more][i] == sent[i];
    assert NotBackItself() by { StaysNotBack(); }
    assert i <= j;
  }

  /** Whatever part of the channel the client has taken in, its copy of a task never moves backwards. */
  lemma NeverBackwards(s: Sys, w: World, moves: seq<Move>, id: TaskId, some: nat, more: nat)
    requires Whole(s) && w == Watching(s, w.buffer) && AbleAll(w, moves)
    requires some <= more <= |AfterAll(w, moves).watcher.sent|
    ensures var sent := AfterAll(w, moves).watcher.sent;
            Copy(sent[..some], id).Some? && Copy(sent[..more], id).Some? ==>
              NotBack(Copy(sent[..some], id).value.state, Copy(sent[..more], id).value.state)
  {
    WatchingWatched(s, w.buffer);
    RunWatched(w, moves);
    hide Whole, AfterAll, AbleAll, Copy, NotBack, CoveredAt, ShownForward;
    var end := AfterAll(w, moves);
    assert WatchedAt(end, id);
    if Copy(end.watcher.sent[..some], id).Some? && Copy(end.watcher.sent[..more], id).Some? {
      CopyForward(end.watcher.sent, id, some, more);
    }
  }

  /** A client can leave at any time; and a watcher listening, once the server closes, ends with a snapshot of all there is. */
  lemma ClosesWhole(w: World, id: TaskId)
    requires w.watcher.pc.Listening?
    ensures Able(w, ClientLeaves)
    ensures Able(w, SeeClosing) && Able(After(w, SeeClosing), Last)
    ensures var end := After(After(w, SeeClosing), Last);
            && end.watcher.pc.Done? && end.sys == w.sys
            && Copy(end.watcher.sent, id) == if id in w.sys.reg.tasks then Some(w.sys.reg.tasks[id].info) else None
  {
    LastIsWhole(After(w, SeeClosing), id);
  }

  /** The last snapshot of a closing stream is the registry as it is: every retained task, and no other. */
  lemma LastIsWhole(w: World, id: TaskId)
    requires Able(w, Last)
    ensures Copy(After(w, Last).watcher.sent, id)
         == if id in w.sys.reg.tasks then Some(w.sys.reg.tasks[id].info) else None
  {
    CopySent(w.watcher.sent, SnapshotOf(w.sys.reg), id);
  }
}

/** Quiet can always come: a timer is there for whatever progress is held back, and the watcher catches up. */
module Quiet {
  import opened Registry
  import opened Scheduler
  import opened Eviction
  import opened Family
  import opened Watch
  import TaskProgress

  /** The stream is open: no client gone and no server closing. */
  predicate Open(w: World) {
    !w.watcher.pc.Stopping? && !w.watcher.pc.Done? && w.watcher.next <= |w.sys.log|
  }

  predicate CaughtUp(w: World) {
    w.watcher.pc.Listening? && w.watcher.next == |w.sys.log|
  }

  /** With the runtime still, an open watcher receives and reads whatever is left. */
  lemma {:induction false} Drains(w: World) returns (moves: seq<Move>)
    requires Open(w)
    ensures AbleAll(w, moves) && AfterAll(w, moves).sys == w.sys && CaughtUp(AfterAll(w, moves))
    decreases |w.sys.log| - w.watcher.next, if w.watcher.pc.Listening? then 0 else 1
  {
    if CaughtUp(w) {
      moves := [];
    } else {
      var move := match w.watcher.pc case Subscribed => First case Listening => Receive case Looking(_) => Look case _ => CatchUp;
      var rest := Drains(After(w, move));
      moves := [move] + rest;
      assert moves[1..] == rest;
    }
  }

  /** A timer fires for what is held back of a task. */
  lemma Fires(s: Sys, id: TaskId) returns (step: Step)
    requires id in s.reg.tasks && s.reg.tasks[id].throttle.pending && !Ended(s.reg.tasks[id]) && TaskProgress.TimerToCome(s, id)
    ensures Enabled(s, step)
    ensures var t := Next(s, step); |s.log| <= |t.log| && id in t.reg.tasks && !t.reg.tasks[id].throttle.pending
  {
    var due: nat :| Alarm(id, due) in s.timers;
    var now := if due <= s.clock then s.clock else due;
    step := FlushProgress(id, due, now);
    TaskProgress.FlushNext(s, id, due, now);
    hide Next;
  }

  /** A line goes along with a task while the watcher watches. */
  lemma {:induction false} WatchedAlong(w: World, moves: seq<Move>, id: TaskId, l: TaskProgress.Line) returns (after: TaskProgress.Line)
    requires Whole(w.sys) && AbleAll(w, moves) && TaskProgress.Along(w.sys, id, l)
    ensures TaskProgress.Along(AfterAll(w, moves).sys, id, after)
    decreases |moves|
  {
    hide Whole, Able, After, TaskProgress.Along;
    if moves == [] {
      after := l;
    } else {
      var next := MoveAlong(w, moves[0], id, l);
      after := WatchedAlong(After(w, moves[0]), moves[1..], id, next);
    }
  }

  lemma MoveAlong(w: World, move: Move, id: TaskId, l: TaskProgress.Line) returns (after: TaskProgress.Line)
    requires Whole(w.sys) && Able(w, move) && TaskProgress.Along(w.sys, id, l)
    ensures Whole(After(w, move).sys) && TaskProgress.Along(After(w, move).sys, id, after)
  {
    hide Whole, Enabled, Next, TaskProgress.Along, TaskProgress.Kept;
    if move.Runs? {
      NextWhole(w.sys, move.step);
      var m, next := TaskProgress.NextAlong(w.sys, move.step, id, l);
      TaskProgress.KeptLeads(w.sys, move.step, id, l, m, next);
      after := next;
    } else {
      after := l;
    }
  }

  /**
    Wherever a run of the runtime and the watcher has got to, while the stream is open, it can go on to be quiet about any
    task retained.
  */
  lemma CanBeQuiet(cfg: Config, steps: seq<Step>, w: World, moves: seq<Move>, id: TaskId) returns (more: seq<Move>)
    requires Possible(Initial(cfg), steps) && w == Watching(Run(Initial(cfg), steps), w.buffer) && AbleAll(w, moves)
    requires Open(AfterAll(w, moves)) && id in AfterAll(w, moves).sys.reg.tasks
    ensures AbleAll(AfterAll(w, moves), more) && QuietAt(AfterAll(AfterAll(w, moves), more), id)
  {
    var end := AfterAll(w, moves);
    hide Whole, Possible, Run, RootsSettled, LastOf, TaskProgress.Along, TaskProgress.TimerToCome, Ended, AfterAll, AbleAll, QuietAt, Open;
    var start := TaskProgress.AlwaysAlong(cfg, steps, id);
    AlwaysWhole(cfg, steps);
    var l := WatchedAlong(w, moves, id, start);
    TaskProgress.AlongShows(end.sys, id, l);
    more := Quietens(end, id);
  }

  lemma Quietens(w: World, id: TaskId) returns (more: seq<Move>)
    requires Open(w) && id in w.sys.reg.tasks
    requires w.sys.reg.tasks[id].throttle.pending ==> !Ended(w.sys.reg.tasks[id]) && TaskProgress.TimerToCome(w.sys, id)
    ensures AbleAll(w, more) && QuietAt(AfterAll(w, more), id)
  {
    hide Next, Enabled;
    if w.sys.reg.tasks[id].throttle.pending {
      var step := Fires(w.sys, id);
      var rest := Drains(After(w, Runs(step)));
      more := [Runs(step)] + rest;
      assert more[1..] == rest;
    } else {
      more := Drains(w);
    }
  }
}
