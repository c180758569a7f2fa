/** What the event log says about the registry: no change goes untold but for progress still to be flushed. */
module Published {
  import opened Wrappers
  import Throttle
  import opened Registry
  import opened Scheduler
  import opened Steps
  import opened Eviction
  import opened Family

  function StateIn(event: TaskEvent): Option<TaskState> {
    match event
    case Submitted(info) => Some(info.state)
    case StateChanged(_, state) => Some(state)
    case Progressed(_, _) => None
  }

  /** The states one event shows of a task. */
  function StateShown(event: TaskEvent, id: TaskId): seq<TaskState> {
    if event.TaskOf() == id && StateIn(event).Some? then [StateIn(event).value] else []
  }

  /** The states a log shows a task going through. */
  function StatesOf(log: seq<TaskEvent>, id: TaskId): seq<TaskState> {
    if log == [] then [] else StatesOf(log[..|log| - 1], id) + StateShown(log[|log| - 1], id)
  }

  ghost predicate Tells(log: seq<TaskEvent>, id: TaskId) {
    exists k :: 0 <= k < |log| && log[k].TaskOf() == id
  }

  lemma {:induction false} StatesConcat(a: seq<TaskEvent>, b: seq<TaskEvent>, id: TaskId)
    ensures StatesOf(a + b, id) == StatesOf(a, id) + StatesOf(b, id)
    decreases |b|
  {
    if b == [] {
      assert a + b == a;
    } else {
      var rest := b[..|b| - 1];
      assert (a + b)[..|a + b| - 1] == a + rest;
      StatesConcat(a, rest, id);
    }
  }

  lemma StatesOne(event: TaskEvent, id: TaskId)
    ensures StatesOf([event], id) == StateShown(event, id)
    ensures Tells([event], id) <==> event.TaskOf() == id
  {
    assert [event][..0] == [] && [event][0] == event;
    assert StatesOf([], id) == [];
  }

  lemma StatesTwo(first: TaskEvent, second: TaskEvent, id: TaskId)
    ensures StatesOf([first, second], id) == StateShown(first, id) + StateShown(second, id)
    ensures Tells([first, second], id) <==> first.TaskOf() == id || second.TaskOf() == id
  {
    assert [first] + [second] == [first, second];
    StatesConcat([first], [second], id);
    StatesOne(first, id);
    StatesOne(second, id);
    assert [first, second][0] == first && [first, second][1] == second;
  }

  /** Queued for as long as it waits, then perhaps running and cancelling, then one end. */
  predicate MayFollow(was: TaskState, now: TaskState) {
    match was
    case Queued(_) => now.Queued? || now.Running? || now.Failed? || now.Cancelled?
    case Running => now.Cancelling? || now.Terminal()
    case Cancelling => now.Terminal()
    case _ => false
  }

  /** What the events of one step say of one task, against what became of it. */
  ghost predicate ToldAt(now: Tasks, was: Tasks, events: seq<TaskEvent>, id: TaskId) {
    var states := StatesOf(events, id);
    && |states| <= 1
    && (states == [] && id in now ==> id in was && now[id].info.state == was[id].info.state)
    && (states != [] && id in now ==> now[id].info.state == states[0])
    && (states != [] && id in was ==> MayFollow(was[id].info.state, states[0]))
    && (states != [] && id !in was ==> id in now && states[0] == Queued(None))
    && (!Tells(events, id) ==> states == [] && (id in now ==> id in was && CoveredBy(now[id], was[id])))
    && (Tells(events, id) && id in was ==> !Ended(was[id]))
    && (Tells(events, id) && id !in was ==> states != [])
  }

  /** A change no event told of is in progress still to be flushed. */
  predicate CoveredBy(now: Entry, was: Entry) {
    (now.info == was.info || now.throttle.pending) && (was.throttle.pending ==> now.throttle.pending)
  }

  /** A launch, and nothing else, tells of a task running. */
  ghost predicate OnlyLaunchRuns(step: Step, events: seq<TaskEvent>) {
    forall id :: Running in StatesOf(events, id) <==> step == Launch(id)
  }

  ghost predicate Told(t: Sys, s: Sys, events: seq<TaskEvent>) {
    t.log == s.log + events && forall id :: ToldAt(t.reg.tasks, s.reg.tasks, events, id)
  }

  lemma ToldNothing(tasks: Tasks, id: TaskId)
    ensures ToldAt(tasks, tasks, [], id)
  {
  }

  // ----- each step that writes -----

  lemma StateSetTold(r: Registry, id: TaskId, state: TaskState, other: TaskId)
    requires id in r.tasks && MayFollow(r.tasks[id].info.state, state)
    ensures ToldAt(StateSet(r, id, state).0.tasks, r.tasks, StateSet(r, id, state).1, other)
  {
    StatesOne(StateChanged(id, state), other);
    hide StatesOf, Tells;
  }

  lemma QueuedTold(r: Registry, id: TaskId, waitingOn: Option<ResourceId>, other: TaskId)
    requires id in r.tasks && r.tasks[id].info.state.Queued?
    ensures ToldAt(SetQueued(r, id, waitingOn).0.tasks, r.tasks, SetQueued(r, id, waitingOn).1, other)
  {
    if r.tasks[id].info.state != Queued(waitingOn) {
      StateSetTold(r, id, Queued(waitingOn), other);
      hide StateSet, ToldAt;
    } else {
      ToldNothing(r.tasks, other);
      hide ToldAt;
    }
  }

  lemma ReportTold(r: Registry, id: TaskId, progress: Throttle.Progress, now: nat, interval: nat, other: TaskId)
    ensures var (after, events, _) := ProgressReported(r, id, progress, now, interval);
            ToldAt(after.tasks, r.tasks, events, other)
  {
    StatesOne(Progressed(id, progress), other);
    ToldNothing(r.tasks, other);
    hide StatesOf, Tells;
  }

  lemma FlushTold(r: Registry, id: TaskId, now: nat, other: TaskId)
    ensures ToldAt(ProgressFlushed(r, id, now).0.tasks, r.tasks, ProgressFlushed(r, id, now).1, other)
  {
    if id in r.tasks {
      StatesOne(Progressed(id, r.tasks[id].info.progress), other);
    }
    ToldNothing(r.tasks, other);
    hide StatesOf, Tells;
  }

  lemma StartTold(now: Tasks, was: Tasks, parent: Option<TaskId>, id: TaskId, info: TaskInfo, other: TaskId)
    requires Grown(now, was, parent, id) && info == now[id].info
    ensures ToldAt(now, was, [Submitted(info)], other)
  {
    StatesOne(Submitted(info), other);
    hide StatesOf, Tells;
  }

  lemma SettleTold(now: Tasks, was: Tasks, id: TaskId, outcome: TaskState, other: TaskId)
    requires Trimmed(now, was, id, outcome) && id in was && MayFollow(was[id].info.state, outcome)
    ensures ToldAt(now, was, [StateChanged(id, outcome)], other)
    ensures ToldAt(now, was, [Progressed(id, was[id].info.progress), StateChanged(id, outcome)], other)
  {
    StatesOne(StateChanged(id, outcome), other);
    StatesTwo(Progressed(id, was[id].info.progress), StateChanged(id, outcome), other);
    hide StatesOf, Tells;
  }

  /** A place lets its task be told only of what may follow. */
  lemma ShowsFollow(pc: Pc, state: TaskState)
    requires Shows(pc, state)
    ensures pc.AtQueue? ==> state.Queued?
    ensures pc.AtLaunch? ==> MayFollow(state, Running)
    ensures pc.AtCancelling? ==> MayFollow(state, Cancelling)
    ensures pc.AtSettle? ==> MayFollow(state, pc.outcome)
    ensures pc.AtQueue? || pc.AtLaunch? || pc.AtCancelling? || pc.AtSettle? ==> !HasSettled(pc)
  {
  }

  lemma MoverRetained(s: Sys, step: Step)
    requires Matched(s.drivers, s.reg.tasks) && Enabled(s, step)
    requires step.NoteQueued? || step.Launch? || step.NoteCancelling? || step.SettleTask?
    ensures step.id in s.drivers && step.id in s.reg.tasks
    ensures var pc, state := s.drivers[step.id].pc, s.reg.tasks[step.id].info.state;
            Places(step, pc) && Shows(pc, state)
  {
  }

  lemma WriteTold(s: Sys, step: Step) returns (events: seq<TaskEvent>)
    requires Whole(s) && Enabled(s, step) && (step.NoteQueued? || step.Launch? || step.NoteCancelling?)
    ensures Told(Next(s, step), s, events)
    ensures OnlyLaunchRuns(step, events)
  {
    hide Next, Enabled, Whole, MayFollow, ToldAt, Written, StatesOf;
    MoverMayFollow(s, step);
    events := Written(s, step).1;
    WritesThat(s, step);
    forall other
      ensures ToldAt(Next(s, step).reg.tasks, s.reg.tasks, events, other)
      ensures Running in StatesOf(events, other) <==> step == Launch(other)
    {
      WrittenTold(s, step, other);
      RunningWritten(s, step, other);
    }
  }

  lemma WrittenTold(s: Sys, step: Step, other: TaskId)
    requires step.NoteQueued? || step.Launch? || step.NoteCancelling?
    requires step.id in s.drivers && step.id in s.reg.tasks && (step.NoteQueued? ==> s.drivers[step.id].pc.AtQueue?)
    requires step.NoteQueued? ==> s.reg.tasks[step.id].info.state.Queued?
    requires step.Launch? ==> MayFollow(s.reg.tasks[step.id].info.state, Running)
    requires step.NoteCancelling? ==> MayFollow(s.reg.tasks[step.id].info.state, Cancelling)
    ensures ToldAt(Written(s, step).0.tasks, s.reg.tasks, Written(s, step).1, other)
  {
    hide MayFollow, ToldAt, SetQueued, StateSet;
    match step
    case NoteQueued(id) => QueuedTold(s.reg, id, s.drivers[id].pc.on, other);
    case Launch(id) => StateSetTold(s.reg, id, Running, other);
    case NoteCancelling(id) => StateSetTold(s.reg, id, Cancelling, other);
  }

  function Written(s: Sys, step: Step): (Registry, seq<TaskEvent>)
    requires step.NoteQueued? || step.Launch? || step.NoteCancelling?
    requires step.id in s.drivers && (step.NoteQueued? ==> s.drivers[step.id].pc.AtQueue?)
  {
    match step
    case NoteQueued(id) => SetQueued(s.reg, id, s.drivers[id].pc.on)
    case Launch(id) => StateSet(s.reg, id, Running)
    case _ => StateSet(s.reg, step.id, Cancelling)
  }

  lemma RunningWritten(s: Sys, step: Step, other: TaskId)
    requires step.NoteQueued? || step.Launch? || step.NoteCancelling?
    requires step.id in s.drivers && step.id in s.reg.tasks && (step.NoteQueued? ==> s.drivers[step.id].pc.AtQueue?)
    ensures Running in StatesOf(Written(s, step).1, other) <==> step == Launch(other)
  {
    var events := Written(s, step).1;
    WrittenEvents(s, step);
    if events == [] {
      assert StatesOf([], other) == [];
    } else {
      StatesOne(events[0], other);
    }
    hide Written, StatesOf;
  }

  lemma WrittenEvents(s: Sys, step: Step)
    requires step.NoteQueued? || step.Launch? || step.NoteCancelling?
    requires step.id in s.drivers && step.id in s.reg.tasks && (step.NoteQueued? ==> s.drivers[step.id].pc.AtQueue?)
    ensures var events := Written(s, step).1;
            || (events == [] && !step.Launch?)
            || (|events| == 1 && events == [events[0]] && events[0].StateChanged? && events[0].task == step.id
                && (events[0].state.Running? <==> step.Launch?))
  {
  }

  lemma NothingRuns(event: TaskEvent)
    requires StateIn(event) != Some(Running)
    ensures forall id :: Running !in StatesOf([event], id)
    ensures forall other: TaskEvent, id | StateIn(other) != Some(Running) :: Running !in StatesOf([other, event], id)
  {
    forall id
      ensures Running !in StatesOf([event], id)
    {
      StatesOne(event, id);
    }
    forall other: TaskEvent, id | StateIn(other) != Some(Running)
      ensures Running !in StatesOf([other, event], id)
    {
      StatesTwo(other, event, id);
    }
  }

  lemma WritesThat(s: Sys, step: Step)
    requires Enabled(s, step) && (step.NoteQueued? || step.Launch? || step.NoteCancelling?)
    ensures step.id in s.drivers && (step.NoteQueued? ==> s.drivers[step.id].pc.AtQueue?)
    ensures Next(s, step).log == s.log + Written(s, step).1 && Next(s, step).reg == Written(s, step).0
  {
    hide SetQueued, StateSet;
  }

  lemma MoverMayFollow(s: Sys, step: Step)
    requires Whole(s) && Enabled(s, step)
    requires step.NoteQueued? || step.Launch? || step.NoteCancelling? || step.SettleTask?
    ensures step.id in s.drivers && step.id in s.reg.tasks
    ensures var pc, state := s.drivers[step.id].pc, s.reg.tasks[step.id].info.state;
            && (step.NoteQueued? ==> pc.AtQueue? && state.Queued?)
            && (step.Launch? ==> MayFollow(state, Running))
            && (step.NoteCancelling? ==> MayFollow(state, Cancelling))
            && (step.SettleTask? ==> pc.AtSettle? && MayFollow(state, pc.outcome))
  {
    MoverRetained(s, step);
    ShowsFollow(s.drivers[step.id].pc, s.reg.tasks[step.id].info.state);
    hide Next, Enabled, Whole, MayFollow, Shows;
  }

  lemma ProgressTold(s: Sys, step: Step) returns (events: seq<TaskEvent>)
    requires Enabled(s, step) && (step.ReportProgress? || step.FlushProgress?)
    ensures Told(Next(s, step), s, events)
    ensures OnlyLaunchRuns(step, events)
  {
    match step
    case ReportProgress(id, progress, now) =>
      events := ProgressReported(s.reg, id, progress, now, s.cfg.progressInterval).1;
      NothingRuns(Progressed(id, progress));
      assert OnlyLaunchRuns(step, events);
      hide ProgressReported, ToldAt;
      forall other
        ensures ToldAt(Next(s, step).reg.tasks, s.reg.tasks, events, other)
      {
        ReportTold(s.reg, id, progress, now, s.cfg.progressInterval, other);
      }
      assert Told(Next(s, step), s, events);
    case FlushProgress(id, _, now) =>
      events := ProgressFlushed(s.reg, id, now).1;
      if id in s.reg.tasks {
        NothingRuns(Progressed(id, s.reg.tasks[id].info.progress));
      }
      assert OnlyLaunchRuns(step, events);
      hide ProgressFlushed, ToldAt;
      forall other
        ensures ToldAt(Next(s, step).reg.tasks, s.reg.tasks, events, other)
      {
        FlushTold(s.reg, id, now, other);
      }
      assert Told(Next(s, step), s, events);
  }

  lemma BeginTold(s: Sys, step: Step) returns (events: seq<TaskEvent>)
    requires Whole(s) && Enabled(s, step) && Starts(step)
    ensures Told(Next(s, step), s, events)
    ensures OnlyLaunchRuns(step, events)
  {
    var t := Next(s, step);
    events := StartLogs(s, step);
    StartFitting(s, step);
    NothingRuns(events[0]);
    hide Next, Enabled, Whole, ToldAt, Grown;
    forall other
      ensures ToldAt(t.reg.tasks, s.reg.tasks, events, other)
    {
      StartTold(t.reg.tasks, s.reg.tasks, ParentOf(step), step.id, t.reg.tasks[step.id].info, other);
    }
  }

  lemma StartLogs(s: Sys, step: Step) returns (events: seq<TaskEvent>)
    requires Enabled(s, step) && Starts(step)
    ensures var t := Next(s, step);
            && step.id in t.reg.tasks && events == [Submitted(t.reg.tasks[step.id].info)] && t.log == s.log + events
  {
    hide TicketFor, WithChild, Enqueued;
    events := [Submitted(Next(s, step).reg.tasks[step.id].info)];
  }

  lemma EndTold(s: Sys, step: Step) returns (events: seq<TaskEvent>)
    requires Whole(s) && Enabled(s, step) && step.SettleTask?
    ensures Told(Next(s, step), s, events)
    ensures OnlyLaunchRuns(step, events)
    ensures s.drivers[step.id].pc.AtSettle? && StatesOf(events, step.id) == [s.drivers[step.id].pc.outcome]
  {
    hide Next, Enabled, Whole, ToldAt, Trimmed, MayFollow, StatesOf;
    var t, id := Next(s, step), step.id;
    MoverMayFollow(s, step);
    var outcome := s.drivers[id].pc.outcome;
    SettlesTrimming(s, step);
    events := EndLogs(s, step);
    StatesOne(StateChanged(id, outcome), id);
    StatesTwo(Progressed(id, s.reg.tasks[id].info.progress), StateChanged(id, outcome), id);
    NothingRuns(StateChanged(id, outcome));
    assert OnlyLaunchRuns(step, events);
    forall other
      ensures ToldAt(t.reg.tasks, s.reg.tasks, events, other)
    {
      SettleTold(t.reg.tasks, s.reg.tasks, id, outcome, other);
    }
  }

  lemma SettlesTrimming(s: Sys, step: Step)
    requires Whole(s) && Enabled(s, step) && step.SettleTask?
    ensures step.id in s.drivers && s.drivers[step.id].pc.AtSettle?
    ensures s.drivers[step.id].pc.outcome.Terminal()
    ensures Trimmed(Next(s, step).reg.tasks, s.reg.tasks, step.id, s.drivers[step.id].pc.outcome)
  {
    AboutToSettle(s, step);
    var ended := SettledEnding(s, step);
    hide Next, Enabled, Trimmed, Ending, Sound, RootsExact, Matched, Below;
    SettlingTrims(Next(s, step), s, step.id, ended);
  }

  lemma EndLogs(s: Sys, step: Step) returns (events: seq<TaskEvent>)
    requires Enabled(s, step) && step.SettleTask? && step.id in s.reg.tasks
    ensures Next(s, step).log == s.log + events
    ensures var e, ended := s.reg.tasks[step.id], StateChanged(step.id, s.drivers[step.id].pc.outcome);
            events == if e.throttle.pending then [Progressed(step.id, e.info.progress), ended] else [ended]
  {
    var e := s.reg.tasks[step.id];
    events := (if e.throttle.pending then [Progressed(step.id, e.info.progress)] else [])
      + [StateChanged(step.id, s.drivers[step.id].pc.outcome)];
    hide Evicted, WithoutChild, EndedEntry;
  }

  /** Every step tells of all it changes, but for progress held back. */
  lemma NextTold(s: Sys, step: Step) returns (events: seq<TaskEvent>)
    requires Whole(s) && Enabled(s, step)
    ensures Told(Next(s, step), s, events)
    ensures OnlyLaunchRuns(step, events)
    ensures step.SettleTask? ==>
              s.drivers[step.id].pc.AtSettle? && StatesOf(events, step.id) == [s.drivers[step.id].pc.outcome]
  {
    if Starts(step) {
      events := BeginTold(s, step);
    } else if step.SettleTask? {
      events := EndTold(s, step);
    } else if step.ReportProgress? || step.FlushProgress? {
      events := ProgressTold(s, step);
    } else if WritesInfo(step) {
      events := WriteTold(s, step);
    } else {
      events := [];
      TasksKept(s, step);
      hide Next, Enabled, Whole, ToldAt, StatesOf;
      forall other
        ensures ToldAt(s.reg.tasks, s.reg.tasks, [], other)
      {
        ToldNothing(s.reg.tasks, other);
      }
      assert Told(Next(s, step), s, events);
      NothingToldRuns();
    }
  }

  lemma NothingToldRuns()
    ensures forall id :: Running !in StatesOf([], id)
  {
  }
}
