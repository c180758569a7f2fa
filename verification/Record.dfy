/** What the runtime holds of each task and resource, against the steps that said it. */
module Record {
  import opened Wrappers
  import Throttle
  import opened Registry
  import opened Scheduler
  import opened Steps
  import opened Eviction
  import opened Family
  import opened Published
  import Lifecycle
  import TaskProgress

  /** How a task was started, and by which of the steps. */
  datatype Start = Start(when: nat, parent: Option<TaskId>, cls: AdmissionClass, requires_: seq<ResourceId>, at: int)

  function StartIn(past: seq<Step>, id: TaskId): (start: Option<Start>)
    ensures start.Some? ==> start.value.when < |past|
  {
    if past == [] then None
    else
      var n := |past| - 1;
      match past[n]
      case Submit(started, cls, requires_, at) =>
        if started == id then Some(Start(n, None, cls, requires_, at)) else StartIn(past[..n], id)
      case Spawn(parent, started, cls, requires_, at) =>
        if started == id then Some(Start(n, Some(parent), cls, requires_, at)) else StartIn(past[..n], id)
      case _ => StartIn(past[..n], id)
  }

  /** When a task settled. */
  function SettledIn(past: seq<Step>, id: TaskId): Option<int> {
    if past == [] then None
    else
      var last := past[|past| - 1];
      if last.SettleTask? && last.id == id then Some(last.at) else SettledIn(past[..|past| - 1], id)
  }

  /** The progress a task last reported. */
  function ReportedIn(past: seq<Step>, id: TaskId): Throttle.Progress {
    if past == [] then Throttle.NO_PROGRESS
    else
      var last := past[|past| - 1];
      if last.ReportProgress? && last.id == id then last.progress else ReportedIn(past[..|past| - 1], id)
  }

  /** A resource's state: the one it was last put in, since it was added. */
  function ResourceIn(past: seq<Step>, resource: ResourceId): Option<ResourceState> {
    if past == [] then None
    else
      var last, before := past[|past| - 1], ResourceIn(past[..|past| - 1], resource);
      if last.AddResource? && last.resource == resource then Some(last.to)
      else if last.SetResource? && last.resource == resource && before.Some? then Some(last.to)
      else before
  }

  function FirstOf(requires_: seq<ResourceId>): Option<ResourceId> {
    if requires_ == [] then None else Some(requires_[0])
  }

  lemma Later(past: seq<Step>, step: Step)
    ensures (past + [step])[..|past|] == past && (past + [step])[|past|] == step && |past + [step]| == |past| + 1
  {
  }

  // ----- what a driver stands for -----

  /** What a driver was given: a root of a capped class, and nothing else, is to queue, with those it shares both class and first requirement with. */
  predicate DriverFrom(d: Driver, start: Start, cfg: Config) {
    && d.requires_ == start.requires_
    && d.ticket.scope == Scope(start.cls, FirstOf(start.requires_))
    && (d.ticket.queued <==> start.parent.None? && cfg.Cap(start.cls).Some?)
  }

  type Drivers = map<TaskId, Driver>

  /** Every driver is some start's, numbered in the order of the starts. */
  ghost predicate Driven(drivers: Drivers, cfg: Config, next: nat, past: seq<Step>) {
    && (forall id :: id in drivers <==> StartIn(past, id).Some?)
    && (forall id :: id in drivers ==> DriverFrom(drivers[id], StartIn(past, id).value, cfg))
    && (forall id :: id in drivers ==> StartIn(past, id).value.when < |past| && drivers[id].ticket.seq_ < next)
    && (forall id, other :: id in drivers && other in drivers ==>
          (drivers[id].ticket.seq_ < drivers[other].ticket.seq_
           <==> StartIn(past, id).value.when < StartIn(past, other).value.when))
  }

  ghost predicate DriversFrom(s: Sys, past: seq<Step>) {
    Driven(s.drivers, s.cfg, s.reg.nextSeq, past)
  }

  lemma StartLater(past: seq<Step>, step: Step, id: TaskId)
    ensures StartIn(past + [step], id)
         == if Starts(step) && step.id == id
            then Some(Start(|past|, if step.Spawn? then Some(step.parent) else None, step.cls, step.requires_, step.at))
            else StartIn(past, id)
  {
    Later(past, step);
  }

  lemma StarterFrom(s: Sys, step: Step, when: nat)
    requires Enabled(s, step) && Starts(step)
    ensures var d := Next(s, step).drivers[step.id];
            && DriverFrom(d, Start(when, if step.Spawn? then Some(step.parent) else None, step.cls, step.requires_, step.at), s.cfg)
            && d.ticket.seq_ == s.reg.nextSeq && Next(s, step).reg.nextSeq == s.reg.nextSeq + 1
            && step.id !in s.drivers
  {
    StarterStarts(s, step);
    hide Next, Enabled, Enqueued, WithChild;
  }

  lemma NextDriversFrom(s: Sys, past: seq<Step>, step: Step)
    requires Enabled(s, step) && DriversFrom(s, past)
    ensures DriversFrom(Next(s, step), past + [step])
  {
    hide Next, Enabled, DriversFrom, DriverFrom, StartIn, Mover, Untouched;
    OthersStay(s, step);
    forall id
      ensures StartIn(past + [step], id)
           == if Starts(step) && step.id == id
              then Some(Start(|past|, if step.Spawn? then Some(step.parent) else None, step.cls, step.requires_, step.at))
              else StartIn(past, id)
    {
      StartLater(past, step, id);
    }
    if Starts(step) {
      StarterFrom(s, step, |past|);
      DriversStart(s, Next(s, step), past, step);
    } else {
      NextSeqKept(s, step);
      DriversStay(s, Next(s, step), past, step);
    }
  }

  lemma DriversStart(s: Sys, t: Sys, past: seq<Step>, step: Step)
    requires DriversFrom(s, past) && Starts(step) && OneMoves(s, t, step) && step.id !in s.drivers
    requires var start := Start(|past|, if step.Spawn? then Some(step.parent) else None, step.cls, step.requires_, step.at);
             && DriverFrom(t.drivers[step.id], start, s.cfg)
             && forall id :: StartIn(past + [step], id) == if step.id == id then Some(start) else StartIn(past, id)
    requires t.drivers[step.id].ticket.seq_ == s.reg.nextSeq && t.reg.nextSeq == s.reg.nextSeq + 1
    ensures DriversFrom(t, past + [step])
  {
    hide StartIn, Mover, Untouched, DriverFrom, Driven;
    var start := Start(|past|, if step.Spawn? then Some(step.parent) else None, step.cls, step.requires_, step.at);
    assert StartIn(past + [step], step.id) == Some(start);
    OneMoreDriven(s.drivers, t.drivers, s.cfg, s.reg.nextSeq, past, past + [step], step.id);
  }

  predicate SameGiven(d: Driver, was: Driver) {
    d.ticket == was.ticket && d.requires_ == was.requires_
  }

  lemma GivenFrom(d: Driver, was: Driver, start: Start, cfg: Config)
    requires SameGiven(d, was) && DriverFrom(was, start, cfg)
    ensures DriverFrom(d, start, cfg)
  {
  }

  lemma OneMoreDriven(was: Drivers, drivers: Drivers, cfg: Config, next: nat, past: seq<Step>, now: seq<Step>, id: TaskId)
    requires Driven(was, cfg, next, past) && |now| == |past| + 1 && id !in was && drivers.Keys == was.Keys + {id}
    requires forall other :: other in was ==> SameGiven(drivers[other], was[other])
    requires forall other :: other != id ==> StartIn(now, other) == StartIn(past, other)
    requires StartIn(now, id).Some? && StartIn(now, id).value.when == |past| && drivers[id].ticket.seq_ == next
    requires DriverFrom(drivers[id], StartIn(now, id).value, cfg)
    ensures Driven(drivers, cfg, next + 1, now)
  {
    hide StartIn, DriverFrom, SameGiven;
    assert forall other :: other in drivers <==> StartIn(now, other).Some?;
    forall other | other in drivers
      ensures DriverFrom(drivers[other], StartIn(now, other).value, cfg)
      ensures StartIn(now, other).value.when < |now| && drivers[other].ticket.seq_ < next + 1
    {
      OneOfMore(was, drivers, cfg, next, past, now, id, other);
    }
    forall one, other | one in drivers && other in drivers
      ensures drivers[one].ticket.seq_ < drivers[other].ticket.seq_
         <==> StartIn(now, one).value.when < StartIn(now, other).value.when
    {
      OneMoreInOrder(was, drivers, cfg, next, past, now, id, one, other);
    }
  }

  lemma OneOfMore(was: Drivers, drivers: Drivers, cfg: Config, next: nat, past: seq<Step>, now: seq<Step>, id: TaskId, other: TaskId)
    requires Driven(was, cfg, next, past) && |now| == |past| + 1 && drivers.Keys == was.Keys + {id} && other in drivers
    requires forall d :: d in was ==> SameGiven(drivers[d], was[d])
    requires forall d :: d != id ==> StartIn(now, d) == StartIn(past, d)
    requires StartIn(now, id).Some? && StartIn(now, id).value.when == |past| && drivers[id].ticket.seq_ == next
    requires DriverFrom(drivers[id], StartIn(now, id).value, cfg)
    ensures StartIn(now, other).Some? && DriverFrom(drivers[other], StartIn(now, other).value, cfg)
    ensures StartIn(now, other).value.when < |now| && drivers[other].ticket.seq_ < next + 1
  {
    hide StartIn, DriverFrom, SameGiven;
    if other != id {
      GivenFrom(drivers[other], was[other], StartIn(past, other).value, cfg);
      SameNumber(drivers[other], was[other]);
    }
  }

  lemma SameNumber(d: Driver, was: Driver)
    requires SameGiven(d, was)
    ensures d.ticket.seq_ == was.ticket.seq_
  {
  }

  lemma OneMoreInOrder(was: Drivers, drivers: Drivers, cfg: Config, next: nat, past: seq<Step>, now: seq<Step>, id: TaskId,
                       one: TaskId, other: TaskId)
    requires Driven(was, cfg, next, past) && drivers.Keys == was.Keys + {id} && id !in was && one in drivers && other in drivers
    requires forall d :: d in was ==> SameGiven(drivers[d], was[d])
    requires forall d :: d != id ==> StartIn(now, d) == StartIn(past, d)
    requires StartIn(now, id).Some? && StartIn(now, id).value.when == |past| && drivers[id].ticket.seq_ == next
    ensures drivers[one].ticket.seq_ < drivers[other].ticket.seq_
       <==> StartIn(now, one).value.when < StartIn(now, other).value.when
  {
    hide StartIn, DriverFrom, SameGiven;
    if one != id {
      NumberOfMore(was, drivers, cfg, next, past, now, id, one);
    }
    if other != id {
      NumberOfMore(was, drivers, cfg, next, past, now, id, other);
    }
  }

  lemma NumberOfMore(was: Drivers, drivers: Drivers, cfg: Config, next: nat, past: seq<Step>, now: seq<Step>, id: TaskId, one: TaskId)
    requires Driven(was, cfg, next, past) && drivers.Keys == was.Keys + {id} && one in drivers && one != id
    requires forall d :: d in was ==> SameGiven(drivers[d], was[d])
    requires forall d :: d != id ==> StartIn(now, d) == StartIn(past, d)
    ensures StartIn(past, one).Some? && StartIn(now, one) == StartIn(past, one) && StartIn(past, one).value.when < |past|
    ensures drivers[one].ticket.seq_ == was[one].ticket.seq_ < next
  {
    hide StartIn, DriverFrom, SameGiven;
    SameNumber(drivers[one], was[one]);
  }

  lemma DriversStay(s: Sys, t: Sys, past: seq<Step>, step: Step)
    requires DriversFrom(s, past) && !Starts(step) && OneMoves(s, t, step) && t.reg.nextSeq == s.reg.nextSeq
    requires forall id :: StartIn(past + [step], id) == StartIn(past, id)
    ensures DriversFrom(t, past + [step])
  {
    hide StartIn, Mover, Untouched, Driven;
    SameDriven(s.drivers, t.drivers, s.cfg, s.reg.nextSeq, past, past + [step]);
  }

  lemma SameDriven(was: Drivers, drivers: Drivers, cfg: Config, next: nat, past: seq<Step>, now: seq<Step>)
    requires Driven(was, cfg, next, past) && |now| == |past| + 1 && drivers.Keys == was.Keys
    requires forall other :: other in was ==> SameGiven(drivers[other], was[other])
    requires forall other :: StartIn(now, other) == StartIn(past, other)
    ensures Driven(drivers, cfg, next, now)
  {
    hide StartIn, DriverFrom;
    forall other | other in drivers
      ensures DriverFrom(drivers[other], StartIn(now, other).value, cfg)
    {
      GivenFrom(drivers[other], was[other], StartIn(past, other).value, cfg);
    }
  }

  // ----- what a task's entry shows -----

  /** An entry shows how its task was started, when it settled, if it has, and what it last reported. */
  ghost predicate InfoFrom(info: TaskInfo, id: TaskId, past: seq<Step>) {
    && StartIn(past, id).Some?
    && info.id == id && info.parent == StartIn(past, id).value.parent
    && info.cls == StartIn(past, id).value.cls && info.submitted == StartIn(past, id).value.at
    && info.settled == SettledIn(past, id) && (info.settled.Some? <==> info.state.Terminal())
    && info.progress == ReportedIn(past, id)
  }

  ghost predicate InfosFrom(s: Sys, past: seq<Step>) {
    && (forall id :: id in s.reg.tasks ==> InfoFrom(s.reg.tasks[id].info, id, past))
    && (forall id :: id !in s.drivers ==> SettledIn(past, id).None? && ReportedIn(past, id) == Throttle.NO_PROGRESS)
  }

  lemma InfoLater(past: seq<Step>, step: Step, id: TaskId)
    ensures SettledIn(past + [step], id) == if step.SettleTask? && step.id == id then Some(step.at) else SettledIn(past, id)
    ensures ReportedIn(past + [step], id) == if step.ReportProgress? && step.id == id then step.progress else ReportedIn(past, id)
  {
    Later(past, step);
  }

  /** What a step does to one task's info. */
  ghost predicate InfoMoves(step: Step, now: TaskInfo, was: TaskInfo) {
    if step.SettleTask? && step.id == was.id then
      now == was.(state := now.state, settled := Some(step.at)) && now.state.Terminal()
    else if step.ReportProgress? && step.id == was.id then now == was.(progress := step.progress)
    else now == was.(state := now.state) && (now.state.Terminal() <==> was.state.Terminal())
  }

  lemma NextInfo(s: Sys, step: Step, id: TaskId)
    requires Whole(s) && Enabled(s, step) && id in s.reg.tasks && id in Next(s, step).reg.tasks
    ensures InfoMoves(step, Next(s, step).reg.tasks[id].info, s.reg.tasks[id].info)
  {
    hide Whole, Next, Enabled, InfoMoves;
    WholeIds(s, id);
    if Starts(step) {
      StartInfo(s, step, id);
    } else if step.SettleTask? {
      SettleInfo(s, step, id);
    } else if step.ReportProgress? {
      ReportInfo(s, step, id);
    } else if step.FlushProgress? {
      FlushInfo(s, step, id);
    } else if step.NoteQueued? || step.Launch? || step.NoteCancelling? {
      WriteInfo(s, step, id);
    } else {
      TasksKept(s, step);
      SameInfo(step, s.reg.tasks[id].info);
    }
  }

  lemma SameInfo(step: Step, info: TaskInfo)
    requires !step.SettleTask? && !step.ReportProgress?
    ensures InfoMoves(step, info, info)
  {
  }

  lemma WholeIds(s: Sys, id: TaskId)
    requires Whole(s) && id in s.reg.tasks
    ensures s.reg.tasks[id].info.id == id
  {
    hide Fits;
  }

  lemma StartInfo(s: Sys, step: Step, id: TaskId)
    requires Whole(s) && Enabled(s, step) && Starts(step) && id in s.reg.tasks && id in Next(s, step).reg.tasks
    ensures InfoMoves(step, Next(s, step).reg.tasks[id].info, s.reg.tasks[id].info)
  {
    StartFitting(s, step);
    hide Whole, Next, Enabled, ParentOf;
  }

  lemma SettleInfo(s: Sys, step: Step, id: TaskId)
    requires Whole(s) && Enabled(s, step) && step.SettleTask? && id in s.reg.tasks && id in Next(s, step).reg.tasks
    requires s.reg.tasks[id].info.id == id
    ensures InfoMoves(step, Next(s, step).reg.tasks[id].info, s.reg.tasks[id].info)
  {
    hide Next, Enabled, Whole, Trimmed;
    SettlesTrimming(s, step);
    SettleTime(s, step);
    TrimmedInfo(Next(s, step).reg.tasks, s.reg.tasks, step, s.drivers[step.id].pc.outcome, id);
  }

  lemma SettleTime(s: Sys, step: Step)
    requires Whole(s) && Enabled(s, step) && step.SettleTask?
    ensures step.id in Next(s, step).reg.tasks ==> Next(s, step).reg.tasks[step.id].info.settled == Some(step.at)
  {
    hide Next, Enabled, Trimmed, Ending, Sound, RootsExact, Matched, Below;
    AboutToSettle(s, step);
    var ended := SettledEnding(s, step);
    SettlingTrims(Next(s, step), s, step.id, ended);
  }

  lemma TrimmedInfo(tasks: Tasks, was: Tasks, step: Step, outcome: TaskState, id: TaskId)
    requires step.SettleTask? && Trimmed(tasks, was, step.id, outcome) && id in tasks && id in was && was[id].info.id == id
    requires step.id in tasks ==> tasks[step.id].info.settled == Some(step.at)
    ensures InfoMoves(step, tasks[id].info, was[id].info)
  {
  }

  lemma ReportInfo(s: Sys, step: Step, id: TaskId)
    requires Whole(s) && Enabled(s, step) && step.ReportProgress? && id in s.reg.tasks && s.reg.tasks[id].info.id == id
    ensures id in Next(s, step).reg.tasks && InfoMoves(step, Next(s, step).reg.tasks[id].info, s.reg.tasks[id].info)
  {
    var own, progress, now := step.id, step.progress, step.now;
    assert step == ReportProgress(own, progress, now);
    hide *;
    TaskProgress.BodyReports(s, own, progress, now);
    TaskProgress.ReportNext(s, own, progress, now);
    ReportedInfo(Next(s, step), s, own, progress, now, id);
  }

  lemma ReportedInfo(t: Sys, s: Sys, own: TaskId, progress: Throttle.Progress, now: nat, id: TaskId)
    requires TaskProgress.Reported(t, s, own, progress, now) && own in s.reg.tasks && !Ended(s.reg.tasks[own])
    requires id in s.reg.tasks && s.reg.tasks[id].info.id == id
    ensures id in t.reg.tasks && InfoMoves(ReportProgress(own, progress, now), t.reg.tasks[id].info, s.reg.tasks[id].info)
  {
    hide Throttle.Report;
  }

  lemma FlushInfo(s: Sys, step: Step, id: TaskId)
    requires Enabled(s, step) && step.FlushProgress? && id in s.reg.tasks
    ensures id in Next(s, step).reg.tasks && InfoMoves(step, Next(s, step).reg.tasks[id].info, s.reg.tasks[id].info)
  {
    var own, due, now := step.id, step.due, step.now;
    assert step == FlushProgress(own, due, now);
    hide *;
    TaskProgress.FlushNext(s, own, due, now);
    FlushedInfo(Next(s, step), s, own, due, now, id);
  }

  lemma FlushedInfo(t: Sys, s: Sys, own: TaskId, due: nat, now: nat, id: TaskId)
    requires TaskProgress.AfterFlush(t, s, own, due, now) && id in s.reg.tasks
    ensures id in t.reg.tasks && InfoMoves(FlushProgress(own, due, now), t.reg.tasks[id].info, s.reg.tasks[id].info)
  {
    hide Throttle.Flush;
  }

  lemma WriteInfo(s: Sys, step: Step, id: TaskId)
    requires Whole(s) && Enabled(s, step) && (step.NoteQueued? || step.Launch? || step.NoteCancelling?) && id in s.reg.tasks
    ensures id in Next(s, step).reg.tasks && InfoMoves(step, Next(s, step).reg.tasks[id].info, s.reg.tasks[id].info)
  {
    hide Whole, Next, Enabled, Written, MayFollow, InfoMoves;
    MoverMayFollow(s, step);
    TaskProgress.NoneAfterEnd(s, step);
    WritesThat(s, step);
    WrittenInfo(s, step, id);
  }

  lemma WrittenInfo(s: Sys, step: Step, id: TaskId)
    requires step.NoteQueued? || step.Launch? || step.NoteCancelling?
    requires step.id in s.drivers && step.id in s.reg.tasks && (step.NoteQueued? ==> s.drivers[step.id].pc.AtQueue?)
    requires !Ended(s.reg.tasks[step.id]) && id in s.reg.tasks
    ensures var tasks := Written(s, step).0.tasks;
            id in tasks && InfoMoves(step, tasks[id].info, s.reg.tasks[id].info)
  {
  }

  lemma StarterInfo(s: Sys, step: Step)
    requires Enabled(s, step) && Starts(step)
    ensures step.id in Next(s, step).reg.tasks
    ensures var info := Next(s, step).reg.tasks[step.id].info;
            && info.id == step.id && info.parent == (if step.Spawn? then Some(step.parent) else None)
            && info.cls == step.cls && info.submitted == step.at
            && info.settled.None? && info.state == Queued(None) && info.progress == Throttle.NO_PROGRESS
  {
    StarterStarts(s, step);
    hide Next, Enabled, TicketFor, Enqueued, WithChild;
  }

  lemma NextInfosFrom(s: Sys, past: seq<Step>, step: Step)
    requires Whole(s) && Enabled(s, step) && InfosFrom(s, past) && Whole(Next(s, step))
    ensures InfosFrom(Next(s, step), past + [step])
  {
    var t := Next(s, step);
    hide Whole, Next, Enabled, InfoFrom, StartIn, SettledIn, ReportedIn, InfoMoves;
    forall id | id in t.reg.tasks
      ensures InfoFrom(t.reg.tasks[id].info, id, past + [step])
    {
      NextInfoFrom(s, past, step, id);
    }
    forall id | id !in t.drivers
      ensures SettledIn(past + [step], id).None? && ReportedIn(past + [step], id) == Throttle.NO_PROGRESS
    {
      InfoLater(past, step, id);
      Undriven(s, step, id);
    }
  }

  lemma Undriven(s: Sys, step: Step, id: TaskId)
    requires Enabled(s, step) && id !in Next(s, step).drivers
    ensures id !in s.drivers && ((step.SettleTask? || step.ReportProgress?) ==> step.id != id)
  {
    hide Next, Mover, IsCancelled, EndsWith;
    OthersStay(s, step);
  }

  lemma NextInfoFrom(s: Sys, past: seq<Step>, step: Step, id: TaskId)
    requires Whole(s) && Enabled(s, step) && InfosFrom(s, past) && Whole(Next(s, step)) && id in Next(s, step).reg.tasks
    ensures InfoFrom(Next(s, step).reg.tasks[id].info, id, past + [step])
  {
    hide Whole, Next, Enabled, StartIn, SettledIn, ReportedIn, InfoMoves, InfoFrom;
    InfoLater(past, step, id);
    StartLater(past, step, id);
    if Starts(step) && step.id == id {
      StarterInfo(s, step);
      NotYetStarted(s, step);
      NewInfoFrom(Next(s, step).reg.tasks[id].info, past, step, id);
    } else {
      StillRetained(s, step, id);
      NextInfo(s, step, id);
      WholeIds(s, id);
      if Starts(step) { NotYetStarted(s, step); }
      MovedInfoFrom(Next(s, step).reg.tasks[id].info, s.reg.tasks[id].info, past, step, id);
    }
  }

  lemma NotYetStarted(s: Sys, step: Step)
    requires Enabled(s, step) && Starts(step)
    ensures step.id !in s.drivers
  {
  }

  /** Only a start retains a task anew. */
  lemma StillRetained(s: Sys, step: Step, id: TaskId)
    requires Whole(s) && Enabled(s, step) && id in Next(s, step).reg.tasks && !(Starts(step) && step.id == id)
    ensures id in s.reg.tasks
  {
    hide Next, Enabled, StateAfter, ParentOf, Fits, Sound, RootsExact, Below;
    if Starts(step) {
      StartFitting(s, step);
    } else if step.SettleTask? {
      SettlesTrimming(s, step);
    } else if WritesInfo(step) {
      InfoWritten(s, step);
    } else {
      TasksKept(s, step);
    }
  }

  lemma NewInfoFrom(info: TaskInfo, past: seq<Step>, step: Step, id: TaskId)
    requires Starts(step) && step.id == id
    requires && info.id == step.id && info.parent == (if step.Spawn? then Some(step.parent) else None)
             && info.cls == step.cls && info.submitted == step.at
             && info.settled.None? && info.state == Queued(None) && info.progress == Throttle.NO_PROGRESS
    requires StartIn(past + [step], id)
          == Some(Start(|past|, if step.Spawn? then Some(step.parent) else None, step.cls, step.requires_, step.at))
    requires SettledIn(past + [step], id).None? && ReportedIn(past + [step], id) == Throttle.NO_PROGRESS
    ensures InfoFrom(info, id, past + [step])
  {
    hide StartIn, SettledIn, ReportedIn;
  }

  lemma MovedInfoFrom(now: TaskInfo, was: TaskInfo, past: seq<Step>, step: Step, id: TaskId)
    requires InfoFrom(was, id, past) && InfoMoves(step, now, was) && was.id == id
    requires StartIn(past + [step], id) == StartIn(past, id)
    requires SettledIn(past + [step], id) == if step.SettleTask? && step.id == id then Some(step.at) else SettledIn(past, id)
    requires ReportedIn(past + [step], id) == if step.ReportProgress? && step.id == id then step.progress else ReportedIn(past, id)
    ensures InfoFrom(now, id, past + [step])
  {
    hide StartIn, SettledIn, ReportedIn;
  }

  // ----- what state a resource is in -----

  function ResourceOf(r: Registry, resource: ResourceId): Option<ResourceState> {
    if resource in r.resources then Some(r.resources[resource]) else None
  }

  ghost predicate ResourcesFrom(s: Sys, past: seq<Step>) {
    forall resource :: ResourceOf(s.reg, resource) == ResourceIn(past, resource)
  }

  lemma NextResource(s: Sys, step: Step, resource: ResourceId)
    requires Enabled(s, step)
    ensures ResourceOf(Next(s, step).reg, resource)
         == if step.AddResource? && step.resource == resource then Some(step.to)
            else if step.SetResource? && step.resource == resource && ResourceOf(s.reg, resource).Some? then Some(step.to)
            else ResourceOf(s.reg, resource)
  {
    if step.AddResource? || step.SetResource? {
      hide IsCancelled, EndsWith;
    } else {
      ResourcesStay(s, step);
      hide Next, Enabled;
    }
  }

  lemma ResourcesStay(s: Sys, step: Step)
    requires Enabled(s, step) && !step.AddResource? && !step.SetResource?
    ensures Next(s, step).reg.resources == s.reg.resources
  {
    hide Next, Enabled, Framed;
    Frames(s, step);
    if Decides(step) || MovesAndWrites(step) {
      ResourcesMoved(s, step);
    } else if Starts(step) || step.ReportProgress? || step.FlushProgress? {
      ResourcesWritten(s, step);
    } else {
      ResourcesFramed(Next(s, step), s, step);
    }
  }

  lemma ResourcesFramed(t: Sys, s: Sys, step: Step)
    requires Framed(t, s, step) && !Decides(step) && !MovesAndWrites(step) && !Starts(step) && !step.ReportProgress? && !step.FlushProgress?
    requires !step.AddResource? && !step.SetResource?
    ensures t.reg.resources == s.reg.resources
  {
  }

  lemma ResourcesMoved(s: Sys, step: Step)
    requires Enabled(s, step) && (Decides(step) || MovesAndWrites(step))
    ensures Next(s, step).reg.resources == s.reg.resources
  {
    if Decides(step) {
      hide AdmissionOf, LiveChildren;
    } else {
      ResourcesSettled(s, step);
      hide Next, Enabled;
    }
  }

  lemma ResourcesSettled(s: Sys, step: Step)
    requires Enabled(s, step) && MovesAndWrites(step)
    ensures Next(s, step).reg.resources == s.reg.resources
  {
    hide Evicted, WithoutChild, EndedEntry;
  }

  lemma ResourcesWritten(s: Sys, step: Step)
    requires Enabled(s, step) && (Starts(step) || step.ReportProgress? || step.FlushProgress?)
    ensures Next(s, step).reg.resources == s.reg.resources
  {
    if Starts(step) {
      hide TicketFor, WithChild;
    } else {
      ResourcesReported(s, step);
      hide Next, Enabled;
    }
  }

  lemma NextResourcesFrom(s: Sys, past: seq<Step>, step: Step)
    requires Enabled(s, step) && ResourcesFrom(s, past)
    ensures ResourcesFrom(Next(s, step), past + [step])
  {
    hide Next, Enabled, ResourceOf;
    Later(past, step);
    forall resource
      ensures ResourceOf(Next(s, step).reg, resource) == ResourceIn(past + [step], resource)
    {
      NextResource(s, step, resource);
    }
  }

  // ----- what each event says -----

  /** What an event says is what the step that sent it did. */
  ghost predicate Caused(s: Sys, step: Step, event: TaskEvent) {
    match event
    case Submitted(info) =>
      && Starts(step) && step.id == info.id && info.parent == (if step.Spawn? then Some(step.parent) else None)
      && info.cls == step.cls && info.submitted == step.at
      && info.settled.None? && info.state == Queued(None) && info.progress == Throttle.NO_PROGRESS
    case StateChanged(id, state) => id in s.drivers && Reaches(step, id, s.drivers[id].pc, state)
    case Progressed(id, progress) =>
      if step.ReportProgress? then step.id == id && step.progress == progress
      else (step.FlushProgress? || step.SettleTask?) && step.id == id && id in s.reg.tasks && progress == s.reg.tasks[id].info.progress
  }

  predicate Reaches(step: Step, id: TaskId, pc: Pc, state: TaskState) {
    match state
    case Queued(on) => step == NoteQueued(id) && pc == AtQueue(on)
    case Running => step == Launch(id) && pc == AtLaunch
    case Cancelling => step == NoteCancelling(id) && pc == AtCancelling
    case _ => step.SettleTask? && step.id == id && pc == AtSettle(state)
  }

  /** The end of a task is the last a step says of it. */
  ghost predicate EndsLast(events: seq<TaskEvent>, id: TaskId) {
    forall i, j :: 0 <= i < j < |events| && EndOf(events[i], id) ==> events[j].TaskOf() != id
  }

  predicate EndOf(event: TaskEvent, id: TaskId) {
    event.StateChanged? && event.task == id && event.state.Terminal()
  }

  lemma NextCaused(s: Sys, step: Step) returns (events: seq<TaskEvent>)
    requires Whole(s) && Enabled(s, step)
    ensures Next(s, step).log == s.log + events
    ensures forall event :: event in events ==> Caused(s, step, event)
    ensures forall id :: EndsLast(events, id)
  {
    hide Whole, Next, Enabled, Caused, Written, MayFollow, EndOf;
    if Starts(step) {
      events := StartLogs(s, step);
      StarterInfo(s, step);
      StartCaused(s, step, Next(s, step).reg.tasks[step.id].info);
    } else if step.SettleTask? {
      SettlesRetained(s, step);
      events := EndLogs(s, step);
      SettleCaused(s, step);
    } else if step.NoteQueued? || step.Launch? || step.NoteCancelling? {
      MoverMayFollow(s, step);
      EnabledPlace(s, step);
      WriterMoves(step);
      WritesThat(s, step);
      events := Written(s, step).1;
      WrittenCaused(s, step);
    } else if step.ReportProgress? || step.FlushProgress? {
      events := ProgressCaused(s, step);
    } else {
      TasksKept(s, step);
      events := [];
    }
  }

  lemma StartCaused(s: Sys, step: Step, info: TaskInfo)
    requires Starts(step)
    requires && info.id == step.id && info.parent == (if step.Spawn? then Some(step.parent) else None)
             && info.cls == step.cls && info.submitted == step.at
             && info.settled.None? && info.state == Queued(None) && info.progress == Throttle.NO_PROGRESS
    ensures Caused(s, step, Submitted(info))
  {
  }

  lemma SettlesRetained(s: Sys, step: Step)
    requires Whole(s) && Enabled(s, step) && step.SettleTask?
    ensures step.id in s.reg.tasks && step.id in s.drivers && s.drivers[step.id].pc.AtSettle?
    ensures s.drivers[step.id].pc.outcome.Terminal()
  {
    AboutToSettle(s, step);
    hide Fits, Sound, RootsExact, Next;
  }

  lemma SettleCaused(s: Sys, step: Step)
    requires step.SettleTask? && step.id in s.reg.tasks && step.id in s.drivers && s.drivers[step.id].pc.AtSettle?
    requires s.drivers[step.id].pc.outcome.Terminal()
    ensures var progressed, ended := Progressed(step.id, s.reg.tasks[step.id].info.progress), StateChanged(step.id, s.drivers[step.id].pc.outcome);
            && Caused(s, step, ended) && Caused(s, step, progressed) && forall id :: !EndOf(progressed, id)
  {
  }

  lemma WriterMoves(step: Step)
    requires step.NoteQueued? || step.Launch? || step.NoteCancelling?
    ensures Mover(step) == Some(step.id) && !Starts(step)
  {
  }

  lemma WrittenCaused(s: Sys, step: Step)
    requires step.NoteQueued? || step.Launch? || step.NoteCancelling?
    requires step.id in s.drivers && step.id in s.reg.tasks && Places(step, s.drivers[step.id].pc)
    ensures |Written(s, step).1| <= 1 && forall event :: event in Written(s, step).1 ==> Caused(s, step, event)
  {
  }

  lemma ProgressCaused(s: Sys, step: Step) returns (events: seq<TaskEvent>)
    requires Enabled(s, step) && (step.ReportProgress? || step.FlushProgress?)
    ensures Next(s, step).log == s.log + events && |events| <= 1
    ensures forall event :: event in events ==> Caused(s, step, event)
  {
    hide Throttle.Report, Throttle.Flush;
    match step
    case ReportProgress(id, progress, now) =>
      events := ProgressReported(s.reg, id, progress, now, s.cfg.progressInterval).1;
    case FlushProgress(id, _, now) =>
      events := ProgressFlushed(s.reg, id, now).1;
  }

  ghost predicate HasEnd(log: seq<TaskEvent>, id: TaskId) {
    exists k :: 0 <= k < |log| && EndOf(log[k], id)
  }

  /** Nothing is said of a task after its end, and only one that has settled has an end. */
  ghost predicate EndsOnce(s: Sys, id: TaskId) {
    EndsLast(s.log, id) && (HasEnd(s.log, id) ==> id in s.drivers && HasSettled(s.drivers[id].pc))
  }

  lemma EndsConcat(log: seq<TaskEvent>, events: seq<TaskEvent>, id: TaskId)
    requires EndsLast(log, id) && EndsLast(events, id) && (HasEnd(log, id) ==> !Tells(events, id))
    ensures EndsLast(log + events, id)
    ensures HasEnd(log + events, id) ==> HasEnd(log, id) || HasEnd(events, id)
  {
    hide EndOf;
    var all := log + events;
    assert forall k :: |log| <= k < |all| ==> all[k] == events[k - |log|];
  }

  lemma EndSettles(s: Sys, step: Step, events: seq<TaskEvent>, id: TaskId)
    requires HasEnd(events, id) && forall event :: event in events ==> Caused(s, step, event)
    ensures step.SettleTask? && step.id == id && id in s.drivers
  {
    var k :| 0 <= k < |events| && EndOf(events[k], id);
    assert Caused(s, step, events[k]);
  }

  lemma SettledAfter(s: Sys, step: Step)
    requires Enabled(s, step) && step.SettleTask?
    ensures step.id in Next(s, step).drivers && HasSettled(Next(s, step).drivers[step.id].pc)
  {
    hide Settled;
  }

  lemma NextEndsOnce(s: Sys, step: Step, id: TaskId)
    requires Whole(s) && Enabled(s, step) && EndsOnce(s, id)
    ensures EndsOnce(Next(s, step), id)
  {
    hide Whole, Next, Enabled, EndsLast, HasEnd, Caused, Tells;
    var events := NextCaused(s, step);
    if HasEnd(s.log, id) {
      var told := Lifecycle.NextUntold(s, step, id);
      assert (s.log + told)[|s.log|..] == told && (s.log + events)[|s.log|..] == events;
    }
    EndsConcat(s.log, events, id);
    if HasEnd(events, id) {
      EndSettles(s, step, events, id);
      SettledAfter(s, step);
    }
    if id in s.drivers && HasSettled(s.drivers[id].pc) {
      Lifecycle.SettledForever(s, step, id);
    }
  }

  lemma {:induction false} RunEndsOnce(s: Sys, steps: seq<Step>, id: TaskId)
    requires Whole(s) && Possible(s, steps) && EndsOnce(s, id)
    ensures EndsOnce(Run(s, steps), id)
    decreases |steps|
  {
    hide Whole, Next, Enabled, EndsOnce;
    if steps != [] {
      NextEndsOnce(s, steps[0], id);
      NextWhole(s, steps[0]);
      RunEndsOnce(Next(s, steps[0]), steps[1..], id);
    }
  }

  /** In every run's log a task's end comes once, and last of all that is said of the task. */
  lemma EndIsLast(cfg: Config, steps: seq<Step>, id: TaskId)
    requires Possible(Initial(cfg), steps)
    ensures EndsLast(Run(Initial(cfg), steps).log, id)
  {
    assert Whole(Initial(cfg)) && EndsOnce(Initial(cfg), id);
    hide Whole, Possible, Run, EndsLast, HasEnd;
    RunEndsOnce(Initial(cfg), steps, id);
  }

  /** Every submission the log tells of is of a task as it was started. */
  ghost predicate LogFrom(s: Sys, past: seq<Step>) {
    forall k :: 0 <= k < |s.log| && s.log[k].Submitted? ==> SubmittedFrom(s.log[k].info, past)
  }

  predicate SubmittedFrom(info: TaskInfo, past: seq<Step>) {
    var start := StartIn(past, info.id);
    && start.Some? && info.parent == start.value.parent && info.cls == start.value.cls && info.submitted == start.value.at
    && info.settled.None? && info.state == Queued(None) && info.progress == Throttle.NO_PROGRESS
  }

  lemma NextLogFrom(s: Sys, past: seq<Step>, step: Step)
    requires Whole(s) && Enabled(s, step) && LogFrom(s, past) && DriversFrom(s, past)
    ensures LogFrom(Next(s, step), past + [step])
  {
    hide Whole, Next, Enabled, StartIn, DriverFrom, EndsLast;
    var t := Next(s, step);
    var events := NextCaused(s, step);
    forall k | 0 <= k < |t.log| && t.log[k].Submitted?
      ensures SubmittedFrom(t.log[k].info, past + [step])
    {
      StartLater(past, step, t.log[k].info.id);
      if k < |s.log| {
        assert t.log[k] == s.log[k] && SubmittedFrom(s.log[k].info, past);
        if Starts(step) {
          NotYetStarted(s, step);
        }
      } else {
        assert t.log[k] in events && Caused(s, step, t.log[k]);
      }
    }
  }

  // ----- what can be started -----

  /** Anyone can start a root of any class and requirements, and a body a child: it is then retained, queued, and its parent's last child. */
  lemma CanStart(s: Sys, parent: Option<TaskId>, id: TaskId, cls: AdmissionClass, requires_: seq<ResourceId>, at: int)
    requires Whole(s) && id !in s.drivers && (parent.Some? ==> parent.value in s.drivers && BodyRuns(s.drivers[parent.value].pc))
    ensures var step := if parent.Some? then Spawn(parent.value, id, cls, requires_, at) else Submit(id, cls, requires_, at);
            && Enabled(s, step)
            && var tasks := Next(s, step).reg.tasks;
               && id in tasks && tasks[id].children == []
               && tasks[id].info == TaskInfo(id, parent, cls, at, None, Queued(None), Throttle.NO_PROGRESS)
               && (parent.Some? ==>
                     && parent.value in s.reg.tasks && parent.value in tasks
                     && tasks[parent.value].children == s.reg.tasks[parent.value].children + [id])
  {
    var step := if parent.Some? then Spawn(parent.value, id, cls, requires_, at) else Submit(id, cls, requires_, at);
    assert Enabled(s, step) && Starts(step) && ParentOf(step) == parent;
    StartFitting(s, step);
    StarterInfo(s, step);
    hide Whole, Next, Enabled;
  }

  /** A body can report at any time from the last on, and end; one that is cancelled can be told so. */
  lemma BodyCan(s: Sys, id: TaskId, progress: Throttle.Progress, now: nat)
    requires id in s.drivers && (s.drivers[id].pc.InBody? || s.drivers[id].pc.InCancelledBody?) && now >= s.clock
    ensures Enabled(s, ReportProgress(id, progress, now)) && Enabled(s, BodyEnds(id))
    ensures s.drivers[id].pc.InBody? && IsCancelled(s, id) ==> Enabled(s, SeeCancel(id))
  {
  }

  /** Whoever holds the runtime can cancel, add and set resources, and wait for it to be idle, at any time. */
  lemma CallersCan(s: Sys, id: TaskId, resource: ResourceId, to: ResourceState, waiter: nat)
    ensures Enabled(s, Cancel(id)) && Enabled(s, CancelAll)
    ensures Enabled(s, AddResource(resource, to)) && Enabled(s, SetResource(resource, to))
    ensures waiter !in s.idlers ==> Enabled(s, IdleStart(waiter))
  {
    hide IsCancelled, EndsWith, BodyRuns;
  }

  // ----- whole runs -----

  ghost predicate Recorded(s: Sys, past: seq<Step>) {
    DriversFrom(s, past) && InfosFrom(s, past) && ResourcesFrom(s, past) && LogFrom(s, past)
  }

  lemma NextRecorded(s: Sys, past: seq<Step>, step: Step)
    requires Whole(s) && Recorded(s, past) && Enabled(s, step)
    ensures Whole(Next(s, step)) && Recorded(Next(s, step), past + [step])
  {
    hide Whole, Next, Enabled, DriversFrom, InfosFrom, ResourcesFrom, LogFrom;
    NextLogFrom(s, past, step);
    NextWhole(s, step);
    NextDriversFrom(s, past, step);
    NextInfosFrom(s, past, step);
    NextResourcesFrom(s, past, step);
  }

  lemma {:induction false} RunRecorded(s: Sys, past: seq<Step>, steps: seq<Step>)
    requires Whole(s) && Recorded(s, past) && Possible(s, steps)
    ensures Whole(Run(s, steps)) && Recorded(Run(s, steps), past + steps)
    decreases |steps|
  {
    hide Whole, Next, Enabled, Recorded;
    if steps == [] {
      assert past + [] == past;
    } else {
      NextRecorded(s, past, steps[0]);
      RunRecorded(Next(s, steps[0]), past + [steps[0]], steps[1..]);
      assert past + [steps[0]] + steps[1..] == past + steps;
    }
  }

  /**
    In every reachable state each retained task shows how it was started, when it settled and what it last reported, each
    driver requires and queues for what its start said, each resource is in the state it was last put in, and each
    submission told of is of a task as it was started.
  */
  lemma AlwaysAsSaid(cfg: Config, steps: seq<Step>)
    requires Possible(Initial(cfg), steps)
    ensures Whole(Run(Initial(cfg), steps)) && Recorded(Run(Initial(cfg), steps), steps)
    ensures Run(Initial(cfg), steps).cfg == cfg
  {
    assert Whole(Initial(cfg)) && Recorded(Initial(cfg), []);
    assert [] + steps == steps;
    hide *;
    RunRecorded(Initial(cfg), [], steps);
    TaskProgress.SameConfigs(Initial(cfg), steps);
    InitialConfig(cfg);
  }

  lemma InitialConfig(cfg: Config)
    ensures Initial(cfg).cfg == cfg
  {
  }
}
