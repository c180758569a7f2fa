/** The registry's throttling is the throttled line's, in each lock section and along every run of the runtime. */
module TaskProgress {
  import opened Wrappers
  import opened Registry
  import opened Scheduler
  import opened Steps
  import opened Eviction
  import opened Family
  import opened Published
  import Throttle

  type Line = Throttle.Line

  // ----- one lock section -----

  /** A line with a task's throttle and progress. */
  ghost predicate Follows(e: Entry, l: Line) {
    l.throttle == e.throttle && l.progress == e.info.progress && l.ended == e.info.state.Terminal()
  }

  /** What a line has sent since, as the task's events. */
  function EventsSince(id: TaskId, was: Line, now: Line): seq<TaskEvent> {
    if |now.sent| == |was.sent| + 1 then [Progressed(id, now.sent[|was.sent|].value)] else []
  }

  lemma ReportFollows(r: Registry, id: TaskId, progress: Throttle.Progress, now: nat, interval: nat, l: Line)
    requires id in r.tasks && Follows(r.tasks[id], l) && Throttle.Enabled(l, Throttle.Reporting(progress, now))
    ensures var (after, events, timer) := ProgressReported(r, id, progress, now, interval);
            var line := Throttle.After(l, Throttle.Reporting(progress, now), interval);
            && Follows(after.tasks[id], line)
            && events == EventsSince(id, l, line)
            && line.timers == l.timers + if timer.Some? then [now + timer.value] else []
  {
    assert l.timers + [] == l.timers;
  }

  lemma FlushFollows(r: Registry, id: TaskId, timer: nat, now: nat, interval: nat, l: Line)
    requires id in r.tasks && Follows(r.tasks[id], l) && Throttle.Enabled(l, Throttle.Firing(timer, now))
    ensures var (after, events) := ProgressFlushed(r, id, now);
            var line := Throttle.After(l, Throttle.Firing(timer, now), interval);
            Follows(after.tasks[id], line) && events == EventsSince(id, l, line)
  {
  }

  // ----- what the log shows being sent -----

  function Stamp(event: TaskEvent, id: TaskId, at: nat, cause: Throttle.Cause): seq<Throttle.Sent> {
    if event.Progressed? && event.task == id then [Throttle.Sent(at, event.progress, cause)] else []
  }

  /** The progress some events carry of a task, with when and why they were sent. */
  function Stamped(events: seq<TaskEvent>, id: TaskId, at: nat, cause: Throttle.Cause): seq<Throttle.Sent> {
    if events == [] then [] else Stamped(events[..|events| - 1], id, at, cause) + Stamp(events[|events| - 1], id, at, cause)
  }

  function TimeOf(s: Sys, step: Step): nat {
    if step.ReportProgress? || step.FlushProgress? then step.now else s.clock
  }

  function CauseOf(step: Step): Throttle.Cause {
    if step.ReportProgress? then Throttle.Immediate else if step.FlushProgress? then Throttle.Timer else Throttle.Ending
  }

  /** What a step adds to the event log. */
  ghost function Appended(s: Sys, step: Step): seq<TaskEvent>
    requires Enabled(s, step)
  {
    var t := Next(s, step);
    if |s.log| <= |t.log| then t.log[|s.log|..] else []
  }

  ghost function SentBy(s: Sys, step: Step, id: TaskId): seq<Throttle.Sent>
    requires Enabled(s, step)
  {
    Stamped(Appended(s, step), id, TimeOf(s, step), CauseOf(step))
  }

  /** All the progress events of a task in a run. */
  ghost function Sends(s: Sys, steps: seq<Step>, id: TaskId): seq<Throttle.Sent>
    requires Possible(s, steps)
    decreases |steps|
  {
    if steps == [] then [] else SentBy(s, steps[0], id) + Sends(Next(s, steps[0]), steps[1..], id)
  }

  lemma StampedOne(event: TaskEvent, id: TaskId, at: nat, cause: Throttle.Cause)
    ensures Stamped([event], id, at, cause) == Stamp(event, id, at, cause)
  {
    assert [event][..0] == [] && [event][0] == event;
    assert Stamped([], id, at, cause) == [];
  }

  lemma StampedTwo(first: TaskEvent, second: TaskEvent, id: TaskId, at: nat, cause: Throttle.Cause)
    ensures Stamped([first, second], id, at, cause) == Stamp(first, id, at, cause) + Stamp(second, id, at, cause)
  {
    assert [first, second][..1] == [first] && [first, second][1] == second;
    StampedOne(first, id, at, cause);
  }

  lemma {:induction false} StampedNothing(events: seq<TaskEvent>, id: TaskId, at: nat, cause: Throttle.Cause)
    requires forall k :: 0 <= k < |events| ==> !(events[k].Progressed? && events[k].task == id)
    ensures Stamped(events, id, at, cause) == []
  {
    if events != [] {
      StampedNothing(events[..|events| - 1], id, at, cause);
    }
  }

  lemma AppendedIs(s: Sys, step: Step, events: seq<TaskEvent>)
    requires Enabled(s, step) && Next(s, step).log == s.log + events
    ensures Appended(s, step) == events
  {
    hide Next, Enabled;
  }

  // ----- a line along a run -----

  /** The timers set for a task are the line's. */
  ghost predicate SameAlarms(timers: multiset<Alarm>, id: TaskId, due: seq<nat>) {
    forall at :: timers[Alarm(id, at)] == multiset(due)[at]
  }

  /** A line that has gone along with a task: with its entry while it is retained, ended once it is not. */
  ghost predicate Along(s: Sys, id: TaskId, l: Line) {
    && Throttle.Inv(l, Throttle.NO_PROGRESS, s.cfg.progressInterval)
    && l.clock <= s.clock
    && SameAlarms(s.timers, id, l.timers)
    && (id in s.reg.tasks ==> Follows(s.reg.tasks[id], l))
    && (id in s.drivers && id !in s.reg.tasks ==> l.ended)
    && (id !in s.drivers ==> l == Throttle.Begin(Throttle.NO_PROGRESS, 0))
  }

  /** A task's progress, throttle and timers as they were, and no new driver for it. */
  ghost predicate KeepsProgress(t: Sys, s: Sys, id: TaskId) {
    && t.cfg == s.cfg && KeepsAlarms(t.timers, s.timers, id) && t.clock >= s.clock
    && (id in t.drivers <==> id in s.drivers)
    && (id in t.reg.tasks ==>
          && id in s.reg.tasks && t.reg.tasks[id].throttle == s.reg.tasks[id].throttle
          && t.reg.tasks[id].info.progress == s.reg.tasks[id].info.progress
          && Ended(t.reg.tasks[id]) == Ended(s.reg.tasks[id]))
    && (id in s.reg.tasks && id !in t.reg.tasks ==> Ended(s.reg.tasks[id]))
  }

  ghost predicate KeepsAlarms(timers: multiset<Alarm>, was: multiset<Alarm>, id: TaskId) {
    forall at :: timers[Alarm(id, at)] == was[Alarm(id, at)]
  }

  lemma KeptAlong(t: Sys, s: Sys, id: TaskId, l: Line)
    requires Along(s, id, l) && KeepsProgress(t, s, id)
    ensures Along(t, id, l)
  {
    hide Throttle.Inv;
  }

  /** The move of the line that a step is, if it is one. */
  predicate Leads(l: Line, move: Option<Throttle.Step>, interval: nat, after: Line) {
    match move
    case None => after == l
    case Some(m) => Throttle.Enabled(l, m) && after == Throttle.After(l, m, interval)
  }

  /** A timer of a task fires with something pending before an interval has passed since the last event. */
  predicate FlushesEarly(s: Sys, step: Step, id: TaskId) {
    && step.FlushProgress? && step.id == id && id in s.reg.tasks && !Ended(s.reg.tasks[id])
    && s.reg.tasks[id].throttle.pending && !Throttle.Due(s.reg.tasks[id].throttle, step.now, s.cfg.progressInterval)
  }

  /** A task reports while a timer of it is overdue. */
  ghost predicate ReportsOverdue(s: Sys, step: Step, id: TaskId) {
    step.ReportProgress? && step.id == id && exists due: nat :: Alarm(id, due) in s.timers && due <= step.now
  }

  ghost predicate Agrees(s: Sys, step: Step, id: TaskId, l: Line, move: Option<Throttle.Step>) {
    && (FlushesEarly(s, step, id) <==> move.Some? && Throttle.FiresEarly(l, move.value, s.cfg.progressInterval))
    && (ReportsOverdue(s, step, id) <==> move.Some? && Throttle.ReportsLate(l, move.value))
  }

  /** A step taken along with a line. */
  ghost predicate Kept(s: Sys, step: Step, id: TaskId, l: Line, move: Option<Throttle.Step>, after: Line)
    requires Enabled(s, step)
  {
    && Along(Next(s, step), id, after) && Leads(l, move, s.cfg.progressInterval, after)
    && after.sent == l.sent + SentBy(s, step, id) && Agrees(s, step, id, l, move)
  }

  /** Steps that may send progress. */
  predicate Reports(step: Step) {
    step.ReportProgress? || step.FlushProgress? || step.SettleTask?
  }

  /** What any other step does to a task already started. */
  lemma QuietKeeps(s: Sys, step: Step, id: TaskId)
    requires Whole(s) && Enabled(s, step) && !Reports(step) && !(Starts(step) && step.id == id)
    ensures KeepsProgress(Next(s, step), s, id) && SentBy(s, step, id) == []
  {
    hide Next, Enabled, Whole, SentBy, Framed, OneMoves, KeepsProgress;
    Frames(s, step);
    OthersStay(s, step);
    if Starts(step) {
      StartQuiet(s, step, id);
    } else if step.NoteQueued? || step.Launch? || step.NoteCancelling? {
      WriteQuiet(s, step, id);
    } else {
      NotReporting(step);
      AsideKeeps(s, step, id);
    }
  }

  lemma AsideKeeps(s: Sys, step: Step, id: TaskId)
    requires Enabled(s, step) && !WritesTasks(step)
    requires Framed(Next(s, step), s, step) && OneMoves(s, Next(s, step), step)
    ensures KeepsProgress(Next(s, step), s, id) && SentBy(s, step, id) == []
  {
    hide Next, Enabled, Stamped, Framed, Mover;
    FramedClock(Next(s, step), s, step);
    TasksKept(s, step);
    assert Next(s, step).log == s.log + [];
    AppendedIs(s, step, []);
    StampedNothing([], id, TimeOf(s, step), CauseOf(step));
  }

  lemma NotReporting(step: Step)
    ensures WritesTasks(step) ==> Starts(step) || step.NoteQueued? || step.Launch? || step.NoteCancelling? || Reports(step)
    ensures Reports(step) ==> !OnlyMoves(step) && !Notifies(step) && !Decides(step) && !Starts(step)
  {
  }

  /** The entry and the events of a step that writes a state. */
  lemma WrittenQuiet(s: Sys, step: Step, id: TaskId)
    requires step.NoteQueued? || step.Launch? || step.NoteCancelling?
    requires step.id in s.drivers && step.id in s.reg.tasks && (step.NoteQueued? ==> s.drivers[step.id].pc.AtQueue?)
    requires !Ended(s.reg.tasks[step.id])
    ensures var (r, events) := Written(s, step);
            && (forall k :: 0 <= k < |events| ==> !events[k].Progressed?)
            && r.tasks.Keys == s.reg.tasks.Keys
            && (id in s.reg.tasks ==>
                  && r.tasks[id].throttle == s.reg.tasks[id].throttle
                  && r.tasks[id].info.progress == s.reg.tasks[id].info.progress
                  && Ended(r.tasks[id]) == Ended(s.reg.tasks[id]))
  {
  }

  lemma WriteQuiet(s: Sys, step: Step, id: TaskId)
    requires Whole(s) && Enabled(s, step) && (step.NoteQueued? || step.Launch? || step.NoteCancelling?)
    requires Framed(Next(s, step), s, step) && OneMoves(s, Next(s, step), step)
    ensures KeepsProgress(Next(s, step), s, id) && SentBy(s, step, id) == []
  {
    MoverMayFollow(s, step);
    NoneAfterEnd(s, step);
    WritesThat(s, step);
    WrittenQuiet(s, step, id);
    AppendedIs(s, step, Written(s, step).1);
    StampedNothing(Written(s, step).1, id, TimeOf(s, step), CauseOf(step));
    hide Next, Enabled, Whole, MayFollow, Stamped, KeepsProgress;
    WriteKept(Next(s, step), s, step, id);
  }

  lemma WriteKept(t: Sys, s: Sys, step: Step, id: TaskId)
    requires Framed(t, s, step) && OneMoves(s, t, step) && (step.NoteQueued? || step.Launch? || step.NoteCancelling?)
    requires step.id in s.drivers && step.id in s.reg.tasks && (step.NoteQueued? ==> s.drivers[step.id].pc.AtQueue?)
    requires var r := Written(s, step).0;
             && t.reg == r && r.tasks.Keys == s.reg.tasks.Keys
             && (id in s.reg.tasks ==>
                   && r.tasks[id].throttle == s.reg.tasks[id].throttle
                   && r.tasks[id].info.progress == s.reg.tasks[id].info.progress
                   && Ended(r.tasks[id]) == Ended(s.reg.tasks[id]))
    ensures KeepsProgress(t, s, id)
  {
    FramedClock(t, s, step);
    hide Written, Mover, Framed, Ended;
  }

  lemma NoneAfterEnd(s: Sys, step: Step)
    requires step.NoteQueued? || step.Launch? || step.NoteCancelling?
    requires step.id in s.reg.tasks
    requires var state := s.reg.tasks[step.id].info.state;
             (step.NoteQueued? ==> state.Queued?) && (step.Launch? ==> MayFollow(state, Running))
             && (step.NoteCancelling? ==> MayFollow(state, Cancelling))
    ensures !Ended(s.reg.tasks[step.id])
  {
  }

  lemma StartQuiet(s: Sys, step: Step, id: TaskId)
    requires Whole(s) && Enabled(s, step) && Starts(step) && id != step.id
    requires Framed(Next(s, step), s, step) && OneMoves(s, Next(s, step), step)
    ensures KeepsProgress(Next(s, step), s, id) && SentBy(s, step, id) == []
  {
    hide *;
    StartSends(s, step, id);
    StarterNew(s, step);
    StartKeeps(Next(s, step), s, step, id);
  }

  lemma StarterNew(s: Sys, step: Step)
    requires Whole(s) && Enabled(s, step) && Starts(step)
    ensures var t := Next(s, step);
            && Grown(t.reg.tasks, s.reg.tasks, ParentOf(step), step.id) && KeepsThrottles(t.reg.tasks, s.reg.tasks)
            && t.reg.tasks[step.id].throttle == Throttle.FRESH && t.reg.tasks[step.id].info.progress == Throttle.NO_PROGRESS
  {
    StartFitting(s, step);
    hide Whole, Next, Enabled;
    StartKeepsThrottles(s, step);
  }

  /** A start sends no progress. */
  lemma StartSends(s: Sys, step: Step, id: TaskId)
    requires Enabled(s, step) && Starts(step)
    ensures SentBy(s, step, id) == []
  {
    var events := StartLogs(s, step);
    hide Next, Enabled, Stamped;
    AppendedIs(s, step, events);
    StampedNothing(events, id, TimeOf(s, step), CauseOf(step));
  }

  lemma StartKeeps(t: Sys, s: Sys, step: Step, id: TaskId)
    requires Starts(step) && id != step.id && Framed(t, s, step) && OneMoves(s, t, step)
    requires Grown(t.reg.tasks, s.reg.tasks, ParentOf(step), step.id) && KeepsThrottles(t.reg.tasks, s.reg.tasks)
    ensures KeepsProgress(t, s, id)
  {
    FramedClock(t, s, step);
    hide ParentOf, Mover, Framed;
  }

  ghost predicate KeepsThrottles(tasks: Tasks, was: Tasks) {
    forall id :: id in was ==> id in tasks && tasks[id].throttle == was[id].throttle && tasks[id].info == was[id].info
  }

  lemma StartKeepsThrottles(s: Sys, step: Step)
    requires Enabled(s, step) && Starts(step) && Grown(Next(s, step).reg.tasks, s.reg.tasks, ParentOf(step), step.id)
    ensures KeepsThrottles(Next(s, step).reg.tasks, s.reg.tasks)
    ensures var e := Next(s, step).reg.tasks[step.id];
            e.throttle == Throttle.FRESH && e.info.progress == Throttle.NO_PROGRESS
  {
    StarterStarts(s, step);
    hide Next, Enabled, TicketFor, Enqueued;
  }

  /** A task that starts has a line at its beginning. */
  lemma StartAlong(s: Sys, step: Step, l: Line)
    requires Whole(s) && Enabled(s, step) && Starts(step) && Along(s, step.id, l)
    ensures Along(Next(s, step), step.id, l) && SentBy(s, step, step.id) == []
  {
    hide Whole, Enabled, Next, Along, SentBy, Framed, StarterEnters, KeepsThrottles;
    Frames(s, step);
    StartEnters(s, step);
    StartSends(s, step, step.id);
    StarterNew(s, step);
    StartedAlong(Next(s, step), s, step, l);
  }

  lemma StartedAlong(t: Sys, s: Sys, step: Step, l: Line)
    requires Starts(step) && Along(s, step.id, l) && Framed(t, s, step) && StarterEnters(t, s, step)
    requires Grown(t.reg.tasks, s.reg.tasks, ParentOf(step), step.id)
    requires t.reg.tasks[step.id].throttle == Throttle.FRESH && t.reg.tasks[step.id].info.progress == Throttle.NO_PROGRESS
    ensures Along(t, step.id, l)
  {
    hide SameAlarms, Throttle.Inv, ParentOf, Mover;
  }

  lemma ReportAlong(s: Sys, step: Step, l: Line) returns (after: Line)
    requires Whole(s) && Enabled(s, step) && step.ReportProgress? && Along(s, step.id, l)
    ensures Kept(s, step, step.id, l, Some(Throttle.Reporting(step.progress, step.now)), after)
  {
    var id, progress, now := step.id, step.progress, step.now;
    assert step == ReportProgress(id, progress, now);
    hide *;
    BodyReports(s, id, progress, now);
    ReportNext(s, id, progress, now);
    ReportSent(s, id, progress, now);
    after := ReportedAlong(Next(s, step), s, id, progress, now, l);
    ReportAgrees(s, id, progress, now, l);
    KeptIs(s, step, id, l, Some(Throttle.Reporting(progress, now)), after);
  }

  lemma KeptIs(s: Sys, step: Step, id: TaskId, l: Line, move: Option<Throttle.Step>, after: Line)
    requires Enabled(s, step) && Along(Next(s, step), id, after) && Leads(l, move, s.cfg.progressInterval, after)
    requires after.sent == l.sent + SentBy(s, step, id) && Agrees(s, step, id, l, move)
    ensures Kept(s, step, id, l, move, after)
  {
    hide Enabled, Next, Along, Leads, SentBy, Agrees;
  }

  lemma ReportAgrees(s: Sys, id: TaskId, progress: Throttle.Progress, now: nat, l: Line)
    requires Along(s, id, l) && id in s.reg.tasks && !Ended(s.reg.tasks[id])
    ensures Agrees(s, ReportProgress(id, progress, now), id, l, Some(Throttle.Reporting(progress, now)))
  {
    hide Throttle.Inv;
    assert forall due :: Alarm(id, due) in s.timers <==> due in multiset(l.timers);
    if k :| 0 <= k < |l.timers| && l.timers[k] <= now {
      assert l.timers[k] in multiset(l.timers);
    }
  }

  /** What a report sends. */
  lemma ReportSent(s: Sys, id: TaskId, progress: Throttle.Progress, now: nat)
    requires Enabled(s, ReportProgress(id, progress, now)) && Reported(Next(s, ReportProgress(id, progress, now)), s, id, progress, now)
    ensures id in s.drivers && now >= s.clock
    ensures forall other :: SentBy(s, ReportProgress(id, progress, now), other)
              == Stamped(ProgressReported(s.reg, id, progress, now, s.cfg.progressInterval).1, other, now, Throttle.Immediate)
  {
    hide Next, ProgressReported, Stamped;
    AppendedIs(s, ReportProgress(id, progress, now), ProgressReported(s.reg, id, progress, now, s.cfg.progressInterval).1);
  }

  /** What a report leaves. */
  ghost predicate Reported(t: Sys, s: Sys, id: TaskId, progress: Throttle.Progress, now: nat) {
    var (r, events, timer) := ProgressReported(s.reg, id, progress, now, s.cfg.progressInterval);
    && t.reg == r && t.log == s.log + events && t.clock == now && t.cfg == s.cfg && t.drivers == s.drivers
    && t.timers == s.timers + if timer.Some? then multiset{Alarm(id, now + timer.value)} else multiset{}
  }

  lemma ReportedAlong(t: Sys, s: Sys, id: TaskId, progress: Throttle.Progress, now: nat, l: Line) returns (after: Line)
    requires Along(s, id, l) && id in s.reg.tasks && !Ended(s.reg.tasks[id]) && id in s.drivers && now >= s.clock
    requires Reported(t, s, id, progress, now)
    ensures Along(t, id, after) && Leads(l, Some(Throttle.Reporting(progress, now)), s.cfg.progressInterval, after)
    ensures after.sent == l.sent
              + Stamped(ProgressReported(s.reg, id, progress, now, s.cfg.progressInterval).1, id, now, Throttle.Immediate)
  {
    hide Throttle.After, Throttle.Inv, Throttle.Enabled, ProgressReported, SameAlarms, Stamped, Follows, Ended, Leads;
    var interval := s.cfg.progressInterval;
    AlongEnabled(s, id, l);
    after := ReportedLine(s.reg, id, progress, now, interval, l);
    var timer := ProgressReported(s.reg, id, progress, now, interval).2;
    if timer.Some? {
      AlarmSet(s.timers, id, l.timers, now + timer.value);
    } else {
      assert t.timers == s.timers;
    }
  }

  lemma AlongEnabled(s: Sys, id: TaskId, l: Line)
    requires Along(s, id, l) && id in s.reg.tasks && id in s.drivers
    ensures Follows(s.reg.tasks[id], l)
  {
  }

  /** A report on a line. */
  lemma ReportedLine(r: Registry, id: TaskId, progress: Throttle.Progress, now: nat, interval: nat, l: Line) returns (after: Line)
    requires id in r.tasks && !Ended(r.tasks[id]) && Follows(r.tasks[id], l) && l.clock <= now
    requires Throttle.Inv(l, Throttle.NO_PROGRESS, interval)
    ensures Leads(l, Some(Throttle.Reporting(progress, now)), interval, after)
    ensures Throttle.Inv(after, Throttle.NO_PROGRESS, interval) && after.clock == now
    ensures var (reported, events, timer) := ProgressReported(r, id, progress, now, interval);
            && id in reported.tasks && Follows(reported.tasks[id], after)
            && after.timers == (if timer.Some? then l.timers + [now + timer.value] else l.timers)
            && after.sent == l.sent + Stamped(events, id, now, Throttle.Immediate)
  {
    var step := Throttle.Reporting(progress, now);
    hide Throttle.Inv, Throttle.After, Stamped, ProgressReported;
    assert Throttle.Enabled(l, step);
    after := Throttle.After(l, step, interval);
    Throttle.AfterKeeps(l, Throttle.NO_PROGRESS, interval, step);
    ReportFollows(r, id, progress, now, interval, l);
    ReportShape(r, id, progress, now, interval);
    AfterClock(l, step, interval);
    ReportSends(l, progress, now, interval, id, ProgressReported(r, id, progress, now, interval).1, after);
    assert l.timers + [] == l.timers;
  }

  lemma AfterClock(l: Line, step: Throttle.Step, interval: nat)
    requires Throttle.Enabled(l, step)
    ensures Throttle.After(l, step, interval).clock == step.at
  {
  }

  lemma BodyReports(s: Sys, id: TaskId, progress: Throttle.Progress, now: nat)
    requires Whole(s) && Enabled(s, ReportProgress(id, progress, now))
    ensures id in s.reg.tasks && !Ended(s.reg.tasks[id]) && id in s.drivers && now >= s.clock
  {
    hide *;
    ReporterRuns(s, id, progress, now);
    BodyRetained(s, id);
  }

  lemma ReporterRuns(s: Sys, id: TaskId, progress: Throttle.Progress, now: nat)
    requires Enabled(s, ReportProgress(id, progress, now))
    ensures id in s.drivers && BodyRuns(s.drivers[id].pc) && now >= s.clock
  {
  }

  lemma BodyRetained(s: Sys, id: TaskId)
    requires Whole(s) && id in s.drivers && BodyRuns(s.drivers[id].pc)
    ensures id in s.reg.tasks && !Ended(s.reg.tasks[id])
  {
    hide Sound, RootsExact, Fits;
    EndedHasSettled(s.drivers[id].pc, s.reg.tasks[id]);
  }

  lemma ReportNext(s: Sys, id: TaskId, progress: Throttle.Progress, now: nat)
    requires Enabled(s, ReportProgress(id, progress, now))
    ensures Reported(Next(s, ReportProgress(id, progress, now)), s, id, progress, now)
  {
    hide ProgressReported;
  }

  lemma ReportSends(l: Line, progress: Throttle.Progress, now: nat, interval: nat, id: TaskId, events: seq<TaskEvent>, after: Line)
    requires Throttle.Enabled(l, Throttle.Reporting(progress, now)) && !l.ended
    requires after == Throttle.After(l, Throttle.Reporting(progress, now), interval) && events == EventsSince(id, l, after)
    ensures after.sent == l.sent + Stamped(events, id, now, Throttle.Immediate)
  {
    if events == [] {
      assert Stamped([], id, now, Throttle.Immediate) == [];
    } else {
      StampedOne(events[0], id, now, Throttle.Immediate);
    }
    hide Stamped;
  }

  lemma AlarmSet(timers: multiset<Alarm>, id: TaskId, due: seq<nat>, at: nat)
    requires SameAlarms(timers, id, due)
    ensures SameAlarms(timers + multiset{Alarm(id, at)}, id, due + [at])
  {
  }

  lemma AlarmGone(timers: multiset<Alarm>, id: TaskId, due: seq<nat>, at: nat)
    requires SameAlarms(timers, id, due) && Alarm(id, at) in timers && |due| <= 1
    ensures due == [at] && SameAlarms(timers - multiset{Alarm(id, at)}, id, [])
  {
    assert at in multiset(due);
    assert due == [at];
    forall other
      ensures (timers - multiset{Alarm(id, at)})[Alarm(id, other)] == 0
    {
      assert multiset([at])[other] == if other == at then 1 else 0;
    }
  }

  lemma FlushAlong(s: Sys, step: Step, l: Line) returns (after: Line)
    requires Enabled(s, step) && step.FlushProgress? && Along(s, step.id, l)
    ensures Kept(s, step, step.id, l, Some(Throttle.Firing(0, step.now)), after)
  {
    var id, due, now := step.id, step.due, step.now;
    assert step == FlushProgress(id, due, now);
    hide *;
    FlushNext(s, id, due, now);
    FlushSent(s, id, due, now);
    after := FlushedAlong(Next(s, step), s, id, due, now, l);
    FlushAgrees(s, id, due, now, l);
    KeptIs(s, step, id, l, Some(Throttle.Firing(0, now)), after);
  }

  lemma FlushAgrees(s: Sys, id: TaskId, due: nat, now: nat, l: Line)
    requires Along(s, id, l) && Alarm(id, due) in s.timers
    ensures Agrees(s, FlushProgress(id, due, now), id, l, Some(Throttle.Firing(0, now)))
  {
    hide Throttle.Inv;
    assert due in multiset(l.timers);
  }

  /** What a timer sends. */
  lemma FlushSent(s: Sys, id: TaskId, due: nat, now: nat)
    requires Enabled(s, FlushProgress(id, due, now)) && AfterFlush(Next(s, FlushProgress(id, due, now)), s, id, due, now)
    ensures Alarm(id, due) in s.timers && now >= due && now >= s.clock
    ensures forall other :: SentBy(s, FlushProgress(id, due, now), other)
              == Stamped(ProgressFlushed(s.reg, id, now).1, other, now, Throttle.Timer)
  {
    hide Next, ProgressFlushed, Stamped;
    AppendedIs(s, FlushProgress(id, due, now), ProgressFlushed(s.reg, id, now).1);
  }

  /** What a timer leaves. */
  ghost predicate AfterFlush(t: Sys, s: Sys, id: TaskId, due: nat, now: nat) {
    var (r, events) := ProgressFlushed(s.reg, id, now);
    && t.reg == r && t.log == s.log + events && t.clock == now && t.cfg == s.cfg && t.drivers == s.drivers
    && t.timers == s.timers - multiset{Alarm(id, due)}
  }

  lemma FlushedAlong(t: Sys, s: Sys, id: TaskId, due: nat, now: nat, l: Line) returns (after: Line)
    requires Along(s, id, l) && Alarm(id, due) in s.timers && now >= due && now >= s.clock && AfterFlush(t, s, id, due, now)
    ensures Along(t, id, after) && Leads(l, Some(Throttle.Firing(0, now)), s.cfg.progressInterval, after)
    ensures after.sent == l.sent + Stamped(ProgressFlushed(s.reg, id, now).1, id, now, Throttle.Timer)
  {
    var interval := s.cfg.progressInterval;
    AtMostOneTimer(l, interval);
    AlarmGone(s.timers, id, l.timers, due);
    after := Throttle.After(l, Throttle.Firing(0, now), interval);
    Throttle.AfterKeeps(l, Throttle.NO_PROGRESS, interval, Throttle.Firing(0, now));
    FlushShape(s.reg, id, now);
    FiringSends(l, now, interval, id, after);
    if id in s.reg.tasks {
      FlushFollows(s.reg, id, 0, now, interval, l);
    } else {
      FlushNothing(s.reg, id, now);
      assert id in s.drivers && l.ended;
    }
    hide Throttle.After, Throttle.Inv, Stamped, SameAlarms, ProgressFlushed;
  }

  lemma FlushNothing(r: Registry, id: TaskId, now: nat)
    requires id !in r.tasks
    ensures ProgressFlushed(r, id, now) == (r, [])
  {
  }

  lemma AtMostOneTimer(l: Line, interval: nat)
    requires Throttle.Inv(l, Throttle.NO_PROGRESS, interval)
    ensures |l.timers| <= 1
  {
    hide Throttle.Spaced;
  }

  lemma FlushNext(s: Sys, id: TaskId, due: nat, now: nat)
    requires Enabled(s, FlushProgress(id, due, now))
    ensures AfterFlush(Next(s, FlushProgress(id, due, now)), s, id, due, now)
  {
    hide ProgressFlushed;
  }

  lemma FiringSends(l: Line, now: nat, interval: nat, id: TaskId, after: Line)
    requires l.timers != [] && Throttle.Enabled(l, Throttle.Firing(0, now)) && |l.timers| == 1
    requires after == Throttle.After(l, Throttle.Firing(0, now), interval)
    ensures after.timers == [] && after.clock == now && after.ended == l.ended
    ensures after.sent == l.sent + Stamped(EventsSince(id, l, after), id, now, Throttle.Timer)
    ensures l.ended ==> EventsSince(id, l, after) == []
  {
    assert l.timers[..0] + l.timers[1..] == [];
    var events := EventsSince(id, l, after);
    if events == [] {
      assert Stamped([], id, now, Throttle.Timer) == [];
    } else {
      StampedOne(events[0], id, now, Throttle.Timer);
    }
    hide Stamped;
  }

  // ----- reports and timers of other tasks -----

  lemma OtherKeeps(t: Sys, s: Sys, id: TaskId, other: TaskId)
    requires OnlyProgress(t.reg, s.reg, id) && other != id
    requires t.drivers == s.drivers && t.cfg == s.cfg && t.clock >= s.clock && KeepsAlarms(t.timers, s.timers, other)
    ensures KeepsProgress(t, s, other)
  {
    hide SameShape, KeepsAlarms;
  }

  lemma ReportedKeeps(t: Sys, s: Sys, id: TaskId, progress: Throttle.Progress, now: nat, other: TaskId)
    requires Reported(t, s, id, progress, now) && other != id && now >= s.clock
    ensures KeepsProgress(t, s, other)
    ensures Stamped(ProgressReported(s.reg, id, progress, now, s.cfg.progressInterval).1, other, now, Throttle.Immediate) == []
  {
    var interval := s.cfg.progressInterval;
    ReportShape(s.reg, id, progress, now, interval);
    ReportedOf(s.reg, id, progress, now, interval);
    StampedNothing(ProgressReported(s.reg, id, progress, now, interval).1, other, now, Throttle.Immediate);
    hide ProgressReported, Stamped, OnlyProgress, KeepsProgress;
    OtherKeeps(t, s, id, other);
  }

  lemma ReportedOf(r: Registry, id: TaskId, progress: Throttle.Progress, now: nat, interval: nat)
    ensures forall event :: event in ProgressReported(r, id, progress, now, interval).1 ==> event.TaskOf() == id
    ensures forall event :: event in ProgressFlushed(r, id, now).1 ==> event.TaskOf() == id
  {
    hide Throttle.Report, Throttle.Flush;
  }

  lemma FlushedKeeps(t: Sys, s: Sys, id: TaskId, due: nat, now: nat, other: TaskId)
    requires AfterFlush(t, s, id, due, now) && other != id && now >= s.clock
    ensures KeepsProgress(t, s, other)
    ensures Stamped(ProgressFlushed(s.reg, id, now).1, other, now, Throttle.Timer) == []
  {
    FlushShape(s.reg, id, now);
    ReportedOf(s.reg, id, Throttle.NO_PROGRESS, now, 0);
    StampedNothing(ProgressFlushed(s.reg, id, now).1, other, now, Throttle.Timer);
    hide ProgressFlushed, Stamped, OnlyProgress, KeepsProgress;
    OtherKeeps(t, s, id, other);
  }

  // ----- settling -----

  lemma SettleEvents(s: Sys, step: Step, id: TaskId)
    requires Enabled(s, step) && step.SettleTask? && step.id in s.reg.tasks
    ensures var e := s.reg.tasks[step.id];
            SentBy(s, step, id) == if id == step.id && e.throttle.pending
                                   then [Throttle.Sent(s.clock, e.info.progress, Throttle.Ending)] else []
  {
    var events := EndLogs(s, step);
    AppendedIs(s, step, events);
    var ended := StateChanged(step.id, s.drivers[step.id].pc.outcome);
    StampedOne(ended, id, s.clock, Throttle.Ending);
    StampedTwo(Progressed(step.id, s.reg.tasks[step.id].info.progress), ended, id, s.clock, Throttle.Ending);
    hide Next, Enabled, Stamped;
  }

  lemma SettledKeeps(t: Sys, s: Sys, step: Step, id: TaskId, outcome: TaskState)
    requires step.SettleTask? && Framed(t, s, step) && OneMoves(s, t, step) && id != step.id
    requires Trimmed(t.reg.tasks, s.reg.tasks, step.id, outcome)
    ensures KeepsProgress(t, s, id)
  {
    hide Mover;
  }

  /** Settling on a line. */
  lemma SettledLine(e: Entry, interval: nat, clock: nat, l: Line) returns (after: Line)
    requires Follows(e, l) && !Ended(e) && l.clock <= clock && Throttle.Inv(l, Throttle.NO_PROGRESS, interval)
    ensures Leads(l, Some(Throttle.Settling(clock)), interval, after)
    ensures Throttle.Inv(after, Throttle.NO_PROGRESS, interval) && after.ended && after.clock == clock
    ensures after.timers == l.timers && after.progress == l.progress && after.throttle == l.throttle.(pending := false)
    ensures after.sent == l.sent + if e.throttle.pending then [Throttle.Sent(clock, e.info.progress, Throttle.Ending)] else []
  {
    after := Throttle.After(l, Throttle.Settling(clock), interval);
    Throttle.AfterKeeps(l, Throttle.NO_PROGRESS, interval, Throttle.Settling(clock));
    hide Throttle.Inv;
  }

  lemma SettledAlong(t: Sys, s: Sys, step: Step, outcome: TaskState, l: Line) returns (after: Line)
    requires step.SettleTask? && SameClock(t, s) && step.id in s.reg.tasks && !Ended(s.reg.tasks[step.id])
    requires Trimmed(t.reg.tasks, s.reg.tasks, step.id, outcome) && Along(s, step.id, l)
    requires step.id in s.drivers && t.cfg == s.cfg && t.drivers.Keys == s.drivers.Keys
    ensures Along(t, step.id, after) && Leads(l, Some(Throttle.Settling(s.clock)), s.cfg.progressInterval, after)
    ensures var e := s.reg.tasks[step.id];
            after.sent == l.sent + if e.throttle.pending then [Throttle.Sent(s.clock, e.info.progress, Throttle.Ending)] else []
  {
    hide Throttle.Inv, Throttle.After, Throttle.Enabled, SameAlarms, Trimmed, Leads;
    after := SettledLine(s.reg.tasks[step.id], s.cfg.progressInterval, s.clock, l);
    if step.id in t.reg.tasks {
      TrimmedOwn(t.reg.tasks, s.reg.tasks, step.id, outcome);
    }
  }

  ghost predicate SameClock(t: Sys, s: Sys) {
    t.timers == s.timers && t.clock == s.clock
  }

  lemma FramedClock(t: Sys, s: Sys, step: Step)
    requires Framed(t, s, step) && !step.ReportProgress? && !step.FlushProgress?
    ensures SameClock(t, s)
  {
  }

  lemma TrimmedOwn(tasks: Tasks, was: Tasks, id: TaskId, outcome: TaskState)
    requires Trimmed(tasks, was, id, outcome) && id in tasks && id in was
    ensures Flushed(tasks[id], was[id]) && Ended(tasks[id])
  {
  }

  lemma SettleAlong(s: Sys, step: Step, l: Line) returns (after: Line)
    requires Whole(s) && Enabled(s, step) && step.SettleTask? && Along(s, step.id, l)
    ensures Kept(s, step, step.id, l, Some(Throttle.Settling(s.clock)), after)
  {
    hide Whole, Enabled, Next, Along, SentBy, Framed, OneMoves, Kept, Leads, Agrees, Trimmed, SameClock;
    SettlesOne(s, step);
    SettlesTrimming(s, step);
    Frames(s, step);
    FramedClock(Next(s, step), s, step);
    SettleEvents(s, step, step.id);
    after := SettledAlong(Next(s, step), s, step, s.drivers[step.id].pc.outcome, l);
    SettleAgrees(s, step, l);
    KeptIs(s, step, step.id, l, Some(Throttle.Settling(s.clock)), after);
  }

  lemma SettlesOne(s: Sys, step: Step)
    requires Whole(s) && Enabled(s, step) && step.SettleTask?
    ensures step.id in s.drivers && step.id in s.reg.tasks && !Ended(s.reg.tasks[step.id])
    ensures Next(s, step).cfg == s.cfg && Next(s, step).drivers.Keys == s.drivers.Keys
  {
    AboutToSettle(s, step);
    OthersStay(s, step);
    hide Next, Sound, RootsExact, Fits;
  }

  lemma SettleAgrees(s: Sys, step: Step, l: Line)
    requires step.SettleTask?
    ensures Agrees(s, step, step.id, l, Some(Throttle.Settling(s.clock)))
  {
  }

  // ----- any step -----

  /** A step that is no move of a task's line. */
  lemma OtherAlong(s: Sys, step: Step, id: TaskId, l: Line)
    requires Whole(s) && Enabled(s, step) && Along(s, id, l) && (Reports(step) || Starts(step) ==> step.id != id)
    ensures Kept(s, step, id, l, None, l)
  {
    hide Whole, Enabled, Next, Along, SentBy, KeepsProgress, Kept;
    if Reports(step) {
      OtherReports(s, step, id);
    } else {
      QuietKeeps(s, step, id);
    }
    KeptAlong(Next(s, step), s, id, l);
    assert l.sent + [] == l.sent;
    NoMove(s, step, id, l);
    KeptIs(s, step, id, l, None, l);
  }

  lemma NoMove(s: Sys, step: Step, id: TaskId, l: Line)
    requires Reports(step) ==> step.id != id
    ensures Agrees(s, step, id, l, None)
  {
  }

  lemma OtherReports(s: Sys, step: Step, id: TaskId)
    requires Whole(s) && Enabled(s, step) && Reports(step) && step.id != id
    ensures KeepsProgress(Next(s, step), s, id) && SentBy(s, step, id) == []
  {
    if step.ReportProgress? {
      var own, progress, now := step.id, step.progress, step.now;
      assert step == ReportProgress(own, progress, now);
      hide *;
      ReportNext(s, own, progress, now);
      ReportSent(s, own, progress, now);
      ReportedKeeps(Next(s, step), s, own, progress, now, id);
    } else if step.FlushProgress? {
      var own, due, now := step.id, step.due, step.now;
      assert step == FlushProgress(own, due, now);
      hide *;
      FlushNext(s, own, due, now);
      FlushSent(s, own, due, now);
      FlushedKeeps(Next(s, step), s, own, due, now, id);
    } else {
      hide Whole, Enabled, Next, SentBy, Framed, OneMoves, KeepsProgress, Trimmed;
      SettlesOne(s, step);
      SettlesTrimming(s, step);
      Frames(s, step);
      OthersStay(s, step);
      SettleEvents(s, step, id);
      SettledKeeps(Next(s, step), s, step, id, s.drivers[step.id].pc.outcome);
    }
  }

  /** Every step of the runtime is at most one move of a task's line. */
  lemma NextAlong(s: Sys, step: Step, id: TaskId, l: Line) returns (move: Option<Throttle.Step>, after: Line)
    requires Whole(s) && Enabled(s, step) && Along(s, id, l)
    ensures Kept(s, step, id, l, move, after)
  {
    hide Whole, Enabled, Next, Along, SentBy, Kept;
    move, after := None, l;
    if Reports(step) && step.id == id {
      if step.ReportProgress? {
        move := Some(Throttle.Reporting(step.progress, step.now));
        after := ReportAlong(s, step, l);
      } else if step.FlushProgress? {
        move := Some(Throttle.Firing(0, step.now));
        after := FlushAlong(s, step, l);
      } else {
        move := Some(Throttle.Settling(s.clock));
        after := SettleAlong(s, step, l);
      }
    } else if Starts(step) && step.id == id {
      StartAlong(s, step, l);
      assert l.sent + [] == l.sent;
      NoMove(s, step, id, l);
      KeptIs(s, step, id, l, None, l);
    } else {
      OtherAlong(s, step, id, l);
    }
  }

  ghost predicate SomeFlushesEarly(s: Sys, steps: seq<Step>, id: TaskId)
    requires Possible(s, steps)
    decreases |steps|
  {
    steps != [] && (FlushesEarly(s, steps[0], id) || SomeFlushesEarly(Next(s, steps[0]), steps[1..], id))
  }

  ghost predicate SomeReportsOverdue(s: Sys, steps: seq<Step>, id: TaskId)
    requires Possible(s, steps)
    decreases |steps|
  {
    steps != [] && (ReportsOverdue(s, steps[0], id) || SomeReportsOverdue(Next(s, steps[0]), steps[1..], id))
  }

  /** A run of the line that a run of the runtime is for one task: the same sends, as early, as late. */
  ghost predicate Matches(s: Sys, steps: seq<Step>, id: TaskId, l: Line, moves: seq<Throttle.Step>)
    requires Possible(s, steps)
  {
    var interval := s.cfg.progressInterval;
    && Throttle.Possible(l, moves, interval)
    && var end := Throttle.Run(l, moves, interval);
    && Along(Run(s, steps), id, end)
    && end.sent == l.sent + Sends(s, steps, id)
    && (SomeFlushesEarly(s, steps, id) <==> Throttle.SomeFiresEarly(l, moves, interval))
    && (SomeReportsOverdue(s, steps, id) <==> Throttle.SomeReportsLate(l, moves, interval))
  }

  lemma {:induction false} RunAlong(s: Sys, steps: seq<Step>, id: TaskId, l: Line) returns (moves: seq<Throttle.Step>)
    requires Whole(s) && Possible(s, steps) && Along(s, id, l)
    ensures Matches(s, steps, id, l, moves)
    decreases |steps|
  {
    hide Whole, Enabled, Next, Along, SentBy, Kept, Matches;
    if steps == [] {
      moves := [];
      MatchesNone(s, id, l);
    } else {
      var move, after := NextAlong(s, steps[0], id, l);
      NextWhole(s, steps[0]);
      KeptLeads(s, steps[0], id, l, move, after);
      var rest := RunAlong(Next(s, steps[0]), steps[1..], id, after);
      SameConfig(s, steps[0]);
      moves := MatchesMore(s, steps, id, l, move, after, rest);
    }
  }

  lemma KeptLeads(s: Sys, step: Step, id: TaskId, l: Line, move: Option<Throttle.Step>, after: Line)
    requires Enabled(s, step) && Kept(s, step, id, l, move, after)
    ensures Along(Next(s, step), id, after)
  {
    hide Enabled, Next, Along;
  }

  lemma MatchesNone(s: Sys, id: TaskId, l: Line)
    requires Along(s, id, l)
    ensures Possible(s, []) && Matches(s, [], id, l, [])
  {
    hide Along;
    assert l.sent + [] == l.sent;
  }

  lemma MatchesMore(s: Sys, steps: seq<Step>, id: TaskId, l: Line, move: Option<Throttle.Step>, after: Line, rest: seq<Throttle.Step>)
    returns (moves: seq<Throttle.Step>)
    requires steps != [] && Possible(s, steps) && Kept(s, steps[0], id, l, move, after)
    requires Next(s, steps[0]).cfg == s.cfg && Matches(Next(s, steps[0]), steps[1..], id, after, rest)
    ensures Matches(s, steps, id, l, moves)
  {
    hide Enabled, Next, Along, SentBy, FlushesEarly, ReportsOverdue, Leads, Throttle.Possible, Throttle.Run,
         Throttle.SomeFiresEarly, Throttle.SomeReportsLate, Throttle.FiresEarly, Throttle.ReportsLate;
    moves := LineMore(l, move, after, rest, s.cfg.progressInterval);
    assert (l.sent + SentBy(s, steps[0], id)) + Sends(Next(s, steps[0]), steps[1..], id) == l.sent + Sends(s, steps, id);
  }

  lemma LineMore(l: Line, move: Option<Throttle.Step>, after: Line, rest: seq<Throttle.Step>, interval: nat)
    returns (moves: seq<Throttle.Step>)
    requires Leads(l, move, interval, after) && Throttle.Possible(after, rest, interval)
    ensures Throttle.Possible(l, moves, interval) && Throttle.Run(l, moves, interval) == Throttle.Run(after, rest, interval)
    ensures Throttle.SomeFiresEarly(l, moves, interval)
       <==> (move.Some? && Throttle.FiresEarly(l, move.value, interval)) || Throttle.SomeFiresEarly(after, rest, interval)
    ensures Throttle.SomeReportsLate(l, moves, interval)
       <==> (move.Some? && Throttle.ReportsLate(l, move.value)) || Throttle.SomeReportsLate(after, rest, interval)
  {
    hide Throttle.Enabled, Throttle.After, Throttle.FiresEarly, Throttle.ReportsLate;
    moves := if move.Some? then [move.value] + rest else rest;
    assert move.Some? ==> moves[1..] == rest;
  }

  // ----- what a run sends of a task -----

  /** Some timer of a task is still to fire. */
  ghost predicate TimerToCome(s: Sys, id: TaskId) {
    exists due: nat :: Alarm(id, due) in s.timers
  }

  /** A line for each task of each run. */
  lemma LineOf(cfg: Config, steps: seq<Step>, id: TaskId) returns (moves: seq<Throttle.Step>)
    requires Possible(Initial(cfg), steps)
    ensures Matches(Initial(cfg), steps, id, Throttle.Begin(Throttle.NO_PROGRESS, 0), moves)
  {
    assert Whole(Initial(cfg)) && Along(Initial(cfg), id, Throttle.Begin(Throttle.NO_PROGRESS, 0));
    hide *;
    moves := RunAlong(Initial(cfg), steps, id, Throttle.Begin(Throttle.NO_PROGRESS, 0));
  }

  lemma AlwaysAlong(cfg: Config, steps: seq<Step>, id: TaskId) returns (l: Line)
    requires Possible(Initial(cfg), steps)
    ensures Along(Run(Initial(cfg), steps), id, l)
  {
    var moves := LineOf(cfg, steps, id);
    l := Throttle.Run(Throttle.Begin(Throttle.NO_PROGRESS, 0), moves, Initial(cfg).cfg.progressInterval);
    hide Along, Run, Possible, Throttle.Run, Throttle.Possible;
  }

  /**
    What any run sends of a task's progress: no window of one interval holds three events besides the one the end sends,
    and the last event carries what the registry shows, unless some is held back, and then a timer is to come.
  */
  lemma TaskThrottled(cfg: Config, steps: seq<Step>, id: TaskId)
    requires Possible(Initial(cfg), steps)
    ensures var t, sends := Run(Initial(cfg), steps), Sends(Initial(cfg), steps, id);
            && Throttle.NoThreeWithin(Throttle.Throttled(sends), cfg.progressInterval)
            && (id in t.reg.tasks ==>
                  if t.reg.tasks[id].throttle.pending then !Ended(t.reg.tasks[id]) && TimerToCome(t, id)
                  else t.reg.tasks[id].info.progress
                       == if sends == [] then Throttle.NO_PROGRESS else sends[|sends| - 1].value)
  {
    var start := Throttle.Begin(Throttle.NO_PROGRESS, 0);
    var moves := LineOf(cfg, steps, id);
    var sends := Sends(Initial(cfg), steps, id);
    SameConfigs(Initial(cfg), steps);
    assert start.sent + sends == sends;
    Throttle.ThrottledRun(Throttle.NO_PROGRESS, 0, moves, cfg.progressInterval);
    hide Possible, Run, Sends, Along, Throttle.Possible, Throttle.Run, Throttle.NoThreeWithin, Throttle.Throttled;
    if id in Run(Initial(cfg), steps).reg.tasks {
      AlongShows(Run(Initial(cfg), steps), id, Throttle.Run(start, moves, cfg.progressInterval));
    }
  }

  lemma AlongShows(t: Sys, id: TaskId, l: Line)
    requires Along(t, id, l) && id in t.reg.tasks
    ensures var e := t.reg.tasks[id];
            if e.throttle.pending then !Ended(e) && TimerToCome(t, id)
            else e.info.progress == if l.sent == [] then Throttle.NO_PROGRESS else l.sent[|l.sent| - 1].value
  {
    if l.throttle.pending {
      assert |l.timers| == 1;
      assert l.timers[0] in multiset(l.timers);
      assert Alarm(id, l.timers[0]) in t.timers;
    }
    hide Throttle.Spaced, Throttle.Throttled;
  }

  lemma {:induction false} SameConfigs(s: Sys, steps: seq<Step>)
    requires Possible(s, steps)
    ensures Run(s, steps).cfg == s.cfg
    decreases |steps|
  {
    hide Next, Enabled;
    if steps != [] {
      SameConfig(s, steps[0]);
      SameConfigs(Next(s, steps[0]), steps[1..]);
    }
  }

  /**
    One event an interval of a task, the end's aside, is what a run sends exactly when no timer of the task fires with
    something pending before an interval has passed since the last event; and so whenever the task never reports while a
    timer of it is overdue.
  */
  lemma TaskApartExactly(cfg: Config, steps: seq<Step>, id: TaskId)
    requires Possible(Initial(cfg), steps)
    ensures Throttle.Apart(Throttle.Throttled(Sends(Initial(cfg), steps, id)), cfg.progressInterval)
       <==> !SomeFlushesEarly(Initial(cfg), steps, id)
    ensures !SomeReportsOverdue(Initial(cfg), steps, id) ==> !SomeFlushesEarly(Initial(cfg), steps, id)
  {
    var start := Throttle.Begin(Throttle.NO_PROGRESS, 0);
    var moves := LineOf(cfg, steps, id);
    var sends := Sends(Initial(cfg), steps, id);
    assert start.sent + sends == sends;
    hide Possible, Run, Sends, Along, SomeFlushesEarly, SomeReportsOverdue;
    Throttle.OnePerIntervalExactly(Throttle.NO_PROGRESS, 0, moves, cfg.progressInterval);
    if !SomeReportsOverdue(Initial(cfg), steps, id) {
      Throttle.OnePerIntervalOnTime(Throttle.NO_PROGRESS, 0, moves, cfg.progressInterval);
    }
  }

  // ----- the sends are the log's -----

  function ProgressShown(event: TaskEvent, id: TaskId): seq<Throttle.Progress> {
    if event.Progressed? && event.task == id then [event.progress] else []
  }

  /** The progress a log shows a task making. */
  function ProgressOf(log: seq<TaskEvent>, id: TaskId): seq<Throttle.Progress> {
    if log == [] then [] else ProgressOf(log[..|log| - 1], id) + ProgressShown(log[|log| - 1], id)
  }

  function Values(sends: seq<Throttle.Sent>): (values: seq<Throttle.Progress>)
    ensures |values| == |sends| && forall k :: 0 <= k < |sends| ==> values[k] == sends[k].value
  {
    seq(|sends|, k requires 0 <= k < |sends| => sends[k].value)
  }

  lemma {:induction false} ProgressConcat(a: seq<TaskEvent>, b: seq<TaskEvent>, id: TaskId)
    ensures ProgressOf(a + b, id) == ProgressOf(a, id) + ProgressOf(b, id)
    decreases |b|
  {
    if b == [] {
      assert a + b == a;
    } else {
      var rest := b[..|b| - 1];
      assert (a + b)[..|a + b| - 1] == a + rest;
      ProgressConcat(a, rest, id);
    }
  }

  lemma {:induction false} StampedValues(events: seq<TaskEvent>, id: TaskId, at: nat, cause: Throttle.Cause)
    ensures Values(Stamped(events, id, at, cause)) == ProgressOf(events, id)
  {
    if events != [] {
      StampedValues(events[..|events| - 1], id, at, cause);
    }
  }

  lemma ValuesConcat(a: seq<Throttle.Sent>, b: seq<Throttle.Sent>)
    ensures Values(a + b) == Values(a) + Values(b)
  {
  }

  lemma NextLogged(s: Sys, step: Step, id: TaskId)
    requires Whole(s) && Enabled(s, step)
    ensures ProgressOf(Next(s, step).log, id) == ProgressOf(s.log, id) + Values(SentBy(s, step, id))
  {
    var events := NextTold(s, step);
    hide Next, Enabled, Whole, OnlyLaunchRuns, ToldAt, Values, Stamped, ProgressOf;
    AppendedIs(s, step, events);
    StampedValues(events, id, TimeOf(s, step), CauseOf(step));
    ProgressConcat(s.log, events, id);
  }

  /** What a run sends of a task's progress is what its log shows of it, in that order. */
  lemma {:induction false} SendsAreLogged(s: Sys, steps: seq<Step>, id: TaskId)
    requires Whole(s) && Possible(s, steps)
    ensures ProgressOf(Run(s, steps).log, id) == ProgressOf(s.log, id) + Values(Sends(s, steps, id))
    decreases |steps|
  {
    hide Whole, Next, Enabled, ProgressOf, SentBy;
    if steps != [] {
      var t := Next(s, steps[0]);
      NextLogged(s, steps[0], id);
      NextWhole(s, steps[0]);
      SendsAreLogged(t, steps[1..], id);
      ValuesConcat(SentBy(s, steps[0], id), Sends(t, steps[1..], id));
    }
  }
}
