/** What one step may touch: the frame every invariant of the runtime is proved against. */
module Steps {
  import opened Wrappers
  import Throttle
  import opened Registry
  import opened Scheduler

  /** The driver whose place a step changes. */
  function Mover(step: Step): Option<TaskId> {
    match step
    case Submit(id, _, _, _) => Some(id)
    case Spawn(_, id, _, _, _) => Some(id)
    case Enable(id) => Some(id)
    case TryAdmit(id) => Some(id)
    case NoteQueued(id) => Some(id)
    case Wake(id) => Some(id)
    case WakeCancelled(id) => Some(id)
    case NotifyAdmitted(id) => Some(id)
    case LeaveQueue(id) => Some(id)
    case NotifyLeft(id) => Some(id)
    case Launch(id) => Some(id)
    case BodyEnds(id) => Some(id)
    case SeeCancel(id) => Some(id)
    case NoteCancelling(id) => Some(id)
    case GiveBack(id) => Some(id)
    case NotifyGivenBack(id) => Some(id)
    case FinishEnable(id) => Some(id)
    case FinishCheck(id) => Some(id)
    case Conclude(id, _) => Some(id)
    case FinishWake(id) => Some(id)
    case SettleTask(id, _) => Some(id)
    case NotifySettled(id) => Some(id)
    case _ => None
  }

  /** The steps that name the driver they move. */
  lemma MoverNamed(step: Step)
    ensures Starts(step) || step.Wake? || step.TryAdmit? || step.Launch? || step.FinishCheck? || step.Conclude? || step.SettleTask? ==>
              Mover(step) == Some(step.id)
    ensures step.Wake? || step.TryAdmit? || step.Launch? || step.FinishCheck? || step.Conclude? || step.SettleTask? ==> !Starts(step)
  {
  }

  /** A driver as it was, or with its wake-up come. */
  predicate Untouched(was: Driver, now: Driver) {
    was.pc == now.pc && was.ticket == now.ticket && was.requires_ == now.requires_ && (now.armed ==> was.armed)
  }

  lemma UntouchedStays(was: Driver, now: Driver)
    requires Untouched(was, now)
    ensures now.pc == was.pc && now.ticket == was.ticket && now.requires_ == was.requires_ && (now.armed ==> was.armed)
  {
  }

  predicate Starts(step: Step) {
    step.Submit? || step.Spawn?
  }

  /** Only the mover moves, and only a start adds a driver. */
  ghost predicate OneMoves(s: Sys, t: Sys, step: Step) {
    && t.cfg == s.cfg
    && t.drivers.Keys == s.drivers.Keys + (if Starts(step) then {step.id} else {})
    && (forall id :: id in s.drivers && Mover(step) != Some(id) ==> Untouched(s.drivers[id], t.drivers[id]))
    && (forall id :: id in s.drivers ==> t.drivers[id].ticket == s.drivers[id].ticket && t.drivers[id].requires_ == s.drivers[id].requires_)
  }

  predicate Notifies(step: Step) {
    step.NotifyAdmitted? || step.NotifyLeft? || step.NotifyGivenBack? || step.NotifySettled? || step.NotifyResource?
  }

  /** Steps that only move a driver. */
  predicate OnlyMoves(step: Step) {
    step.Enable? || step.Wake? || step.WakeCancelled? || step.BodyEnds? || step.SeeCancel? || step.FinishEnable? || step.Conclude?
    || step.FinishWake?
  }

  /** Steps that look at the registry to move a driver, or change its queues and counts. */
  predicate Decides(step: Step) {
    step.TryAdmit? || step.FinishCheck? || step.LeaveQueue? || step.GiveBack?
  }

  /** Steps that move a driver and write its task. */
  predicate MovesAndWrites(step: Step) {
    step.NoteQueued? || step.Launch? || step.NoteCancelling? || step.SettleTask?
  }

  predicate SameTasks(r: Registry, was: Registry) {
    r.tasks == was.tasks && r.settledRoots == was.settledRoots
  }

  /** Which parts of the whole a step may change. */
  ghost predicate Framed(t: Sys, s: Sys, step: Step) {
    if OnlyMoves(step) then t == s.(drivers := t.drivers)
    else if Notifies(step) then t == s.(drivers := t.drivers, idlers := t.idlers, debts := t.debts)
    else if Decides(step) then
      && t == s.(drivers := t.drivers, reg := t.reg, admissions := t.admissions, requested := t.requested)
      && SameTasks(t.reg, s.reg) && s.requested <= t.requested
    else if MovesAndWrites(step) then t == s.(drivers := t.drivers, reg := t.reg, log := t.log)
    else if Starts(step) then t == s.(drivers := t.drivers, reg := t.reg, log := t.log, lineage := t.lineage)
    else if step.ReportProgress? || step.FlushProgress? then
      t == s.(reg := t.reg, log := t.log, timers := t.timers, clock := t.clock)
    else if step.AddResource? || step.SetResource? then
      t == s.(reg := t.reg, debts := s.debts + 1) && SameTasks(t.reg, s.reg)
    else t == s.(idlers := t.idlers, requested := t.requested) && s.requested <= t.requested
  }

  lemma Frames(s: Sys, step: Step)
    requires Enabled(s, step)
    ensures Framed(Next(s, step), s, step)
  {
    if OnlyMoves(step) {
      FramesMove(s, step);
    } else if Notifies(step) {
      FramesNotify(s, step);
    } else if Decides(step) {
      FramesDecide(s, step);
    } else if MovesAndWrites(step) || Starts(step) || step.ReportProgress? || step.FlushProgress? {
      FramesWrite(s, step);
    } else {
      FramesAside(s, step);
    }
    hide Next, Enabled, Framed;
  }

  lemma FramesMove(s: Sys, step: Step)
    requires Enabled(s, step) && OnlyMoves(step)
    ensures Framed(Next(s, step), s, step)
  {
    hide IsCancelled, EndsWith;
  }

  lemma FramesNotify(s: Sys, step: Step)
    requires Enabled(s, step) && Notifies(step)
    ensures Framed(Next(s, step), s, step)
  {
  }

  lemma FramesDecide(s: Sys, step: Step)
    requires Enabled(s, step) && Decides(step)
    ensures Framed(Next(s, step), s, step)
  {
    hide AdmissionOf, LiveChildren;
  }

  lemma FramesWrite(s: Sys, step: Step)
    requires Enabled(s, step) && (MovesAndWrites(step) || Starts(step) || step.ReportProgress? || step.FlushProgress?)
    ensures Framed(Next(s, step), s, step)
  {
    hide SetQueued, StateSet, Settled, ProgressReported, ProgressFlushed, Started, TicketFor;
  }

  lemma FramesAside(s: Sys, step: Step)
    requires Enabled(s, step) && Mover(step).None? && !Notifies(step) && !step.ReportProgress? && !step.FlushProgress?
    ensures Framed(Next(s, step), s, step)
  {
    hide Busy, UnsettledIds, Unsettled;
  }

  lemma OthersStay(s: Sys, step: Step)
    requires Enabled(s, step)
    ensures OneMoves(s, Next(s, step), step)
  {
    Kinds(step);
    if Starts(step) {
      OthersStayStart(s, step);
    } else if Notifies(step) {
      OthersStayNotify(s, step);
    } else if OnlyMoves(step) || Decides(step) || MovesAndWrites(step) {
      OthersStayMove(s, step);
    } else {
      OthersStayAside(s, step);
    }
    hide *;
  }

  lemma Kinds(step: Step)
    ensures Mover(step).Some? ==> Starts(step) || Notifies(step) || OnlyMoves(step) || Decides(step) || MovesAndWrites(step)
  {
  }

  lemma OthersStayAside(s: Sys, step: Step)
    requires Enabled(s, step) && Mover(step).None? && !Notifies(step)
    ensures OneMoves(s, Next(s, step), step)
  {
    hide Next, Enabled;
    Frames(s, step);
  }

  lemma OthersStayStart(s: Sys, step: Step)
    requires Enabled(s, step) && Starts(step)
    ensures OneMoves(s, Next(s, step), step)
  {
    hide Started, TicketFor;
  }

  lemma OthersStayNotify(s: Sys, step: Step)
    requires Enabled(s, step) && Notifies(step)
    ensures OneMoves(s, Next(s, step), step)
  {
    hide Next, Enabled, Mover, Notified;
    if step.NotifyResource? {
      DebtNotified(s);
      NotifiedMoves(s, s.(debts := s.debts - 1), step);
    } else {
      var pc := NotifierNotified(s, step);
      NotifiedMoves(s, At(s, step.id, pc), step);
    }
  }

  lemma DebtNotified(s: Sys)
    requires Enabled(s, NotifyResource)
    ensures s.debts > 0 && Next(s, NotifyResource) == Notified(s.(debts := s.debts - 1))
  {
    hide Notified;
  }

  /** A driver moved, then everyone woken. */
  lemma NotifierNotified(s: Sys, step: Step) returns (pc: Pc)
    requires Enabled(s, step) && Notifies(step) && !step.NotifyResource?
    ensures step.id in s.drivers && Mover(step) == Some(step.id) && Next(s, step) == Notified(At(s, step.id, pc))
  {
    hide Notified;
    if step.NotifyAdmitted? {
      pc := AtLaunch;
    } else if step.NotifyLeft? {
      pc := AtSettle(s.drivers[step.id].pc.outcome);
    } else if step.NotifyGivenBack? {
      pc := AtFinishEnter;
    } else {
      pc := Finished;
    }
  }

  lemma NotifiedMoves(s: Sys, mid: Sys, step: Step)
    requires mid.cfg == s.cfg && mid.drivers.Keys == s.drivers.Keys && !Starts(step)
    requires forall id :: id in s.drivers && Mover(step) != Some(id) ==> mid.drivers[id] == s.drivers[id]
    requires forall id :: id in s.drivers ==>
               mid.drivers[id].ticket == s.drivers[id].ticket && mid.drivers[id].requires_ == s.drivers[id].requires_
    ensures OneMoves(s, Notified(mid), step)
  {
    hide Mover;
  }

  lemma OthersStayMove(s: Sys, step: Step)
    requires Enabled(s, step) && (OnlyMoves(step) || Decides(step) || MovesAndWrites(step))
    ensures OneMoves(s, Next(s, step), step)
  {
    if OnlyMoves(step) {
      OthersStayOnlyMove(s, step);
    } else {
      OthersStayDecide(s, step);
    }
    hide Next, Enabled, OneMoves;
  }

  lemma OthersStayOnlyMove(s: Sys, step: Step)
    requires Enabled(s, step) && OnlyMoves(step)
    ensures OneMoves(s, Next(s, step), step)
  {
    hide IsCancelled, EndsWith;
  }

  lemma OthersStayDecide(s: Sys, step: Step)
    requires Enabled(s, step) && (Decides(step) || MovesAndWrites(step))
    ensures OneMoves(s, Next(s, step), step)
  {
    hide Next, Enabled, OneMoves;
    if step.TryAdmit? || step.FinishCheck? {
      OthersStayCheck(s, step);
    } else if Decides(step) {
      OthersStayLeave(s, step);
    } else {
      OthersStayWrite(s, step);
    }
  }

  lemma OthersStayCheck(s: Sys, step: Step)
    requires Enabled(s, step) && (step.TryAdmit? || step.FinishCheck?)
    ensures OneMoves(s, Next(s, step), step)
  {
    hide AdmissionOf, AdmittedInto, LiveChildren;
  }

  lemma OthersStayLeave(s: Sys, step: Step)
    requires Enabled(s, step) && (step.LeaveQueue? || step.GiveBack?)
    ensures OneMoves(s, Next(s, step), step)
  {
    hide Dequeued, SlotGivenBack;
  }

  lemma OthersStayWrite(s: Sys, step: Step)
    requires Enabled(s, step) && MovesAndWrites(step)
    ensures OneMoves(s, Next(s, step), step)
  {
    hide SetQueued, StateSet, Settled;
  }

  /** A failed requirement: out of the queue first, if there is one. */
  predicate RefusedAt(d: Driver, pc: Pc) {
    if d.ticket.queued then pc.AtLeave? && pc.outcome.Failed? else pc.AtSettle? && pc.outcome.Failed?
  }

  predicate CheckGoes(was: Driver, now: Driver) {
    || now == was.(pc := if was.ticket.queued then AtAdmitNotify else AtLaunch, armed := false)
    || (now == was.(pc := now.pc, armed := false) && RefusedAt(was, now.pc))
    || (now == was.(pc := now.pc) && now.pc.AtQueue?)
  }

  /** Where the driver a step moves goes. */
  predicate Goes(step: Step, was: Driver, now: Driver) {
    match step
    case Enable(_) => now == was.(pc := AtCheck, armed := true)
    case TryAdmit(_) => CheckGoes(was, now)
    case NoteQueued(_) => now == was.(pc := Asleep)
    case Wake(_) => now == was.(pc := AtEnter)
    case WakeCancelled(_) => now == was.(pc := Refused(was, Cancelled), armed := false)
    case NotifyAdmitted(_) => now == was.(pc := AtLaunch, armed := false)
    case LeaveQueue(_) => was.pc.AtLeave? && now == was.(pc := AtLeaveNotify(was.pc.outcome))
    case NotifyLeft(_) => was.pc.AtLeaveNotify? && now == was.(pc := AtSettle(was.pc.outcome), armed := false)
    case Launch(_) => now == was.(pc := InBody)
    case BodyEnds(_) => now == was.(pc := AtGiveBack)
    case SeeCancel(_) => now == was.(pc := AtCancelling)
    case NoteCancelling(_) => now == was.(pc := InCancelledBody)
    case GiveBack(_) => now == was.(pc := if was.ticket.queued then AtGiveBackNotify else AtFinishEnter)
    case NotifyGivenBack(_) => now == was.(pc := AtFinishEnter, armed := false)
    case FinishEnable(_) => now == was.(pc := AtFinishCheck, armed := true)
    case FinishCheck(_) => now == was.(pc := AtOutcome, armed := false) || now == was.(pc := FinishAsleep)
    case Conclude(_, outcome) => now == was.(pc := AtSettle(outcome))
    case FinishWake(_) => now == was.(pc := AtFinishEnter)
    case SettleTask(_, _) => now == was.(pc := AtSettleNotify)
    case NotifySettled(_) => now == was.(pc := Finished, armed := false)
    case _ => true
  }

  ghost predicate MoverAtGoes(s: Sys, t: Sys, step: Step) {
    Mover(step).Some? && !Starts(step) ==>
      var id := Mover(step).value;
      id in s.drivers && id in t.drivers && Goes(step, s.drivers[id], t.drivers[id])
  }

  lemma MoverGoes(s: Sys, step: Step)
    requires Enabled(s, step)
    ensures MoverAtGoes(s, Next(s, step), step)
  {
    if Notifies(step) {
      NotifierGoes(s, step);
    } else if OnlyMoves(step) {
      MerelyGoes(s, step);
    } else if Decides(step) || MovesAndWrites(step) {
      DeciderGoes(s, step);
    }
    hide Next, Enabled, Goes;
  }

  lemma NotifierGoes(s: Sys, step: Step)
    requires Enabled(s, step) && Notifies(step)
    ensures MoverAtGoes(s, Next(s, step), step)
  {
  }

  lemma MerelyGoes(s: Sys, step: Step)
    requires Enabled(s, step) && OnlyMoves(step)
    ensures MoverAtGoes(s, Next(s, step), step)
  {
    hide IsCancelled, EndsWith;
  }

  lemma DeciderGoes(s: Sys, step: Step)
    requires Enabled(s, step) && (Decides(step) || MovesAndWrites(step))
    ensures MoverAtGoes(s, Next(s, step), step)
  {
    hide SetQueued, StateSet, Settled, LiveChildren, AdmissionOf, AdmittedInto, Dequeued, SlotGivenBack;
  }

  /** Where a driver must be for the step that moves it. */
  predicate Places(step: Step, pc: Pc) {
    match step
    case Enable(_) => pc.AtEnter?
    case TryAdmit(_) => pc.AtCheck?
    case NoteQueued(_) => pc.AtQueue?
    case Wake(_) => pc.Asleep?
    case WakeCancelled(_) => pc.Asleep?
    case NotifyAdmitted(_) => pc.AtAdmitNotify?
    case LeaveQueue(_) => pc.AtLeave?
    case NotifyLeft(_) => pc.AtLeaveNotify?
    case Launch(_) => pc.AtLaunch?
    case BodyEnds(_) => pc.InBody? || pc.InCancelledBody?
    case SeeCancel(_) => pc.InBody?
    case NoteCancelling(_) => pc.AtCancelling?
    case GiveBack(_) => pc.AtGiveBack?
    case NotifyGivenBack(_) => pc.AtGiveBackNotify?
    case FinishEnable(_) => pc.AtFinishEnter?
    case FinishCheck(_) => pc.AtFinishCheck?
    case Conclude(_, _) => pc.AtOutcome?
    case FinishWake(_) => pc.FinishAsleep?
    case SettleTask(_, _) => pc.AtSettle?
    case NotifySettled(_) => pc.AtSettleNotify?
    case _ => true
  }

  lemma EnabledPlace(s: Sys, step: Step)
    requires Enabled(s, step)
    ensures Mover(step).Some? && !Starts(step) ==>
              Mover(step).value in s.drivers && Places(step, s.drivers[Mover(step).value].pc)
  {
    hide IsCancelled, EndsWith;
  }

  /** Where a new driver starts. */
  lemma StarterStarts(s: Sys, step: Step)
    requires Enabled(s, step) && Starts(step)
    ensures var t := Next(s, step);
            var parent := if step.Spawn? then Some(step.parent) else None;
            var ticket := TicketFor(s.reg, s.cfg, parent, step.cls, step.requires_);
            && step.id !in s.drivers
            && step.id in t.drivers && t.drivers[step.id] == Driver(AtEnter, ticket, step.requires_, false)
            && t.reg == Started(s.reg, step.id, parent, step.cls, ticket, step.at)
            && t.admissions == s.admissions
            && (step.Spawn? ==> step.parent in s.drivers && BodyRuns(s.drivers[step.parent].pc))
  {
    hide Started, TicketFor;
  }

  /** What a step does to one driver. */
  ghost predicate DriverAfter(t: Sys, s: Sys, step: Step, id: TaskId) {
    && (id in s.drivers ==>
          && id in t.drivers
          && if Mover(step) == Some(id) then !Starts(step) && Places(step, s.drivers[id].pc) && Goes(step, s.drivers[id], t.drivers[id])
             else Untouched(s.drivers[id], t.drivers[id]))
    && (id !in s.drivers && id in t.drivers ==> Starts(step) && step.id == id && t.drivers[id].pc == AtEnter)
  }

  ghost predicate StarterEnters(t: Sys, s: Sys, step: Step) {
    Starts(step) ==>
      Mover(step) == Some(step.id) && step.id !in s.drivers && step.id in t.drivers && t.drivers[step.id].pc == AtEnter
  }

  lemma StartEnters(s: Sys, step: Step)
    requires Enabled(s, step)
    ensures StarterEnters(Next(s, step), s, step)
  {
    MoverNamed(step);
    if Starts(step) {
      StarterStarts(s, step);
    }
    hide Next, Enabled, Mover, TicketFor, Started;
  }

  lemma DriverStep(s: Sys, step: Step, id: TaskId)
    requires Enabled(s, step)
    ensures DriverAfter(Next(s, step), s, step, id)
  {
    OthersStay(s, step);
    MoverGoes(s, step);
    EnabledPlace(s, step);
    StartEnters(s, step);
    hide *;
    DriverMoves(Next(s, step), s, step, id);
  }

  lemma DriverMoves(t: Sys, s: Sys, step: Step, id: TaskId)
    requires OneMoves(s, t, step) && MoverAtGoes(s, t, step) && StarterEnters(t, s, step)
    requires Mover(step).Some? && !Starts(step) ==>
               Mover(step).value in s.drivers && Places(step, s.drivers[Mover(step).value].pc)
    ensures DriverAfter(t, s, step, id)
  {
    hide Places, Goes, Mover;
  }

  /** Steps that change no queue, no count of places and no sequence number. */
  predicate KeepsPlaces(s: Sys, step: Step)
    requires Enabled(s, step)
  {
    !Starts(step) && !step.TryAdmit? && !step.LeaveQueue? && !step.GiveBack?
  }

  lemma PlacesKept(s: Sys, step: Step)
    requires Enabled(s, step) && KeepsPlaces(s, step)
    ensures var t := Next(s, step);
            && t.reg.queues == s.reg.queues && t.reg.admitted == s.reg.admitted
            && t.reg.nextSeq == s.reg.nextSeq && t.admissions == s.admissions
  {
    hide Next, Enabled;
    if WritesTasks(step) {
      PlacesKeptWriting(s, step);
    } else if step.FinishCheck? || step.AddResource? || step.SetResource? {
      PlacesKeptLooking(s, step);
    } else {
      Frames(s, step);
    }
  }

  lemma PlacesKeptLooking(s: Sys, step: Step)
    requires Enabled(s, step) && (step.FinishCheck? || step.AddResource? || step.SetResource?)
    ensures var t := Next(s, step); SamePlaces(t.reg, s.reg) && t.admissions == s.admissions
  {
    hide LiveChildren;
  }

  lemma PlacesKeptWriting(s: Sys, step: Step)
    requires Enabled(s, step) && KeepsPlaces(s, step) && WritesTasks(step)
    ensures SamePlaces(Next(s, step).reg, s.reg) && Next(s, step).admissions == s.admissions
  {
    Frames(s, step);
    hide Next, Enabled, SamePlaces;
    if step.SettleTask? {
      PlacesKeptSettling(s, step);
    } else if step.ReportProgress? || step.FlushProgress? {
      PlacesKeptReporting(s, step);
    } else {
      PlacesKeptNoting(s, step);
    }
  }

  lemma PlacesKeptSettling(s: Sys, step: Step)
    requires Enabled(s, step) && step.SettleTask?
    ensures SamePlaces(Next(s, step).reg, s.reg)
  {
    SettledKeepsPlaces(s.reg, step.id, s.drivers[step.id].pc.outcome, step.at, s.cfg.retainedRoots);
    hide Settled;
  }

  lemma PlacesKeptReporting(s: Sys, step: Step)
    requires Enabled(s, step) && (step.ReportProgress? || step.FlushProgress?)
    ensures SamePlaces(Next(s, step).reg, s.reg)
  {
    hide ProgressReported, ProgressFlushed;
    match step
    case ReportProgress(id, progress, now) => ProgressKeepsPlaces(s.reg, id, progress, now, s.cfg.progressInterval);
    case FlushProgress(id, _, now) => ProgressKeepsPlaces(s.reg, id, Throttle.NO_PROGRESS, now, s.cfg.progressInterval);
  }

  lemma PlacesKeptNoting(s: Sys, step: Step)
    requires Enabled(s, step) && (step.NoteQueued? || step.Launch? || step.NoteCancelling?)
    ensures SamePlaces(Next(s, step).reg, s.reg)
  {
  }

  lemma NextSeqKept(s: Sys, step: Step)
    requires Enabled(s, step) && !Starts(step)
    ensures Next(s, step).reg.nextSeq == s.reg.nextSeq
  {
    if KeepsPlaces(s, step) {
      PlacesKept(s, step);
    } else {
      hide AdmissionOf;
    }
  }

  predicate SamePlaces(r: Registry, was: Registry) {
    r.queues == was.queues && r.admitted == was.admitted && r.nextSeq == was.nextSeq
  }

  lemma SettledKeepsPlaces(r: Registry, id: TaskId, state: TaskState, now: int, retained: nat)
    ensures SamePlaces(Settled(r, id, state, now, retained).0, r)
  {
    hide Evicted, EndedEntry, WithoutChild;
  }

  lemma ProgressKeepsPlaces(r: Registry, id: TaskId, progress: Throttle.Progress, now: nat, interval: nat)
    ensures SamePlaces(ProgressReported(r, id, progress, now, interval).0, r)
    ensures SamePlaces(ProgressFlushed(r, id, now).0, r)
  {
    hide Throttle.Report, Throttle.Flush;
  }

  /** Steps that write some task's entry. */
  predicate WritesTasks(step: Step) {
    Starts(step) || step.NoteQueued? || step.Launch? || step.NoteCancelling? || step.SettleTask? || step.ReportProgress?
    || step.FlushProgress?
  }

  lemma TasksKept(s: Sys, step: Step)
    requires Enabled(s, step) && !WritesTasks(step)
    ensures var t := Next(s, step);
            t.reg.tasks == s.reg.tasks && t.reg.settledRoots == s.reg.settledRoots && t.log == s.log
  {
    Frames(s, step);
    hide Next, Enabled;
  }

  lemma ResourcesReported(s: Sys, step: Step)
    requires Enabled(s, step) && (step.ReportProgress? || step.FlushProgress?)
    ensures Next(s, step).reg.resources == s.reg.resources
  {
    match step
    case ReportProgress(id, progress, now) =>
      ReportedResources(s.reg, id, progress, now, s.cfg.progressInterval);
      hide ProgressReported;
    case FlushProgress(id, _, now) =>
      ReportedResources(s.reg, id, Throttle.NO_PROGRESS, now, 0);
      hide ProgressFlushed;
  }

  lemma ReportedResources(r: Registry, id: TaskId, progress: Throttle.Progress, now: nat, interval: nat)
    ensures ProgressReported(r, id, progress, now, interval).0.resources == r.resources
    ensures ProgressFlushed(r, id, now).0.resources == r.resources
  {
    hide Throttle.Report, Throttle.Flush;
  }
}
