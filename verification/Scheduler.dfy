/**
  The runtime as a whole: every task's driver, the registry they share, whoever
  waits for the runtime to be idle, and the one notification that wakes them all.
  A step is one lock section, one notification, or one wake-up.
*/
module Scheduler {
  import opened Wrappers
  import opened Throttle
  import opened Registry

  /** Where a driver is. */
  datatype Pc =
    | AtEnter                               // about to register for wake-ups, before the admission check
    | AtCheck
    | AtQueue(on: Option<ResourceId>)       // found it has to wait, about to say so
    | Asleep
    | AtAdmitNotify                         // took a place, about to notify
    | AtLeave(outcome: TaskState)           // will never be admitted, about to leave its queue
    | AtLeaveNotify(outcome: TaskState)
    | AtLaunch
    | InBody
    | AtCancelling
    | InCancelledBody
    | AtGiveBack                            // the body is over, the place still held
    | AtGiveBackNotify
    | AtFinishEnter
    | AtFinishCheck
    | FinishAsleep
    | AtOutcome                             // every child has settled, about to see how the body ended
    | AtSettle(outcome: TaskState)
    | AtSettleNotify
    | Finished

  /** `armed` while a registered wake-up has not come. */
  datatype Driver = Driver(pc: Pc, ticket: Ticket, requires_: seq<ResourceId>, armed: bool)

  datatype IdlePc = IdleEnter | IdleCheck | IdleAsleep | IdleDone

  datatype Idler = Idler(pc: IdlePc, armed: bool)

  /** A progress timer: whose, and when it is due. */
  datatype Alarm = Alarm(task: TaskId, due: nat)

  datatype Sys = Sys(
    cfg: Config,
    reg: Registry,
    drivers: map<TaskId, Driver>,
    idlers: map<nat, Idler>,
    debts: nat,                             // notifications owed by whoever changed a resource
    lineage: map<TaskId, set<TaskId>>,      // the tokens above each task's, its own with them
    requested: set<TaskId>,                 // the tokens cancelled directly
    timers: multiset<Alarm>,                // progress timers still to fire
    clock: nat,                             // the time progress was last reported or flushed at
    log: seq<TaskEvent>,
    admissions: seq<Ticket>)                // history: who took places, in order

  datatype Step =
    | Submit(id: TaskId, cls: AdmissionClass, requires_: seq<ResourceId>, at: int)
    | Spawn(parent: TaskId, id: TaskId, cls: AdmissionClass, requires_: seq<ResourceId>, at: int)
    | Enable(id: TaskId)
    | TryAdmit(id: TaskId)
    | NoteQueued(id: TaskId)
    | Wake(id: TaskId)
    | WakeCancelled(id: TaskId)
    | NotifyAdmitted(id: TaskId)
    | LeaveQueue(id: TaskId)
    | NotifyLeft(id: TaskId)
    | Launch(id: TaskId)
    | BodyEnds(id: TaskId)
    | SeeCancel(id: TaskId)
    | NoteCancelling(id: TaskId)
    | GiveBack(id: TaskId)
    | NotifyGivenBack(id: TaskId)
    | FinishEnable(id: TaskId)
    | FinishCheck(id: TaskId)
    | Conclude(id: TaskId, outcome: TaskState)
    | FinishWake(id: TaskId)
    | SettleTask(id: TaskId, at: int)
    | NotifySettled(id: TaskId)
    | Cancel(id: TaskId)
    | CancelAll
    | AddResource(resource: ResourceId, to: ResourceState)
    | SetResource(resource: ResourceId, to: ResourceState)
    | NotifyResource
    | ReportProgress(id: TaskId, progress: Progress, now: nat)
    | FlushProgress(id: TaskId, due: nat, now: nat)
    | IdleStart(waiter: nat)
    | IdleEnable(waiter: nat)
    | IdleLook(waiter: nat)
    | IdleWake(waiter: nat)

  // ----- what a driver's place means -----

  /** Its number is in its scope's queue. */
  predicate InQueue(d: Driver) {
    d.ticket.queued && (d.pc.AtEnter? || d.pc.AtCheck? || d.pc.AtQueue? || d.pc.Asleep? || d.pc.AtLeave?)
  }

  /** It holds a `Slot`. */
  predicate Holding(d: Driver) {
    d.ticket.queued && (d.pc.AtAdmitNotify? || d.pc.AtLaunch? || BodyRuns(d.pc) || d.pc.AtGiveBack?)
  }

  predicate BodyRuns(pc: Pc) {
    pc.InBody? || pc.AtCancelling? || pc.InCancelledBody?
  }

  /** It still has a `notify_waiters` to make. */
  predicate Owing(pc: Pc) {
    pc.AtAdmitNotify? || pc.AtLeaveNotify? || pc.AtGiveBackNotify? || pc.AtSettleNotify?
  }

  predicate HasSettled(pc: Pc) {
    pc.AtSettleNotify? || pc.Finished?
  }

  /** Its body has not started. */
  predicate BeforeBody(pc: Pc) {
    pc.AtEnter? || pc.AtCheck? || pc.AtQueue? || pc.Asleep? || pc.AtAdmitNotify? || pc.AtLeave? || pc.AtLeaveNotify?
    || pc.AtLaunch?
  }

  /** A task is cancelled once its token or one above it is. */
  predicate IsCancelled(s: Sys, id: TaskId) {
    id in s.lineage && s.lineage[id] * s.requested != {}
  }

  function CapFor(s: Sys, ticket: Ticket): Option<nat> {
    if ticket.queued then s.cfg.Cap(ticket.scope.cls) else None
  }

  ghost function Decision(s: Sys, id: TaskId): Admission
    requires id in s.drivers
  {
    AdmissionOf(s.reg, s.drivers[id].requires_, s.drivers[id].ticket, CapFor(s, s.drivers[id].ticket))
  }

  predicate Unsettled(r: Registry, id: TaskId) {
    id in r.tasks && !r.tasks[id].info.state.Terminal()
  }

  predicate Busy(r: Registry) {
    exists id :: id in r.tasks && Unsettled(r, id)
  }

  // ----- the steps -----

  function At(s: Sys, id: TaskId, pc: Pc): Sys
    requires id in s.drivers
  {
    s.(drivers := s.drivers[id := s.drivers[id].(pc := pc)])
  }

  function Armed(s: Sys, id: TaskId, pc: Pc): Sys
    requires id in s.drivers
  {
    s.(drivers := s.drivers[id := s.drivers[id].(pc := pc, armed := true)])
  }

  /** Leaves the waiting loop, dropping its registration. */
  function Disarmed(s: Sys, id: TaskId, pc: Pc): Sys
    requires id in s.drivers
  {
    s.(drivers := s.drivers[id := s.drivers[id].(pc := pc, armed := false)])
  }

  /** `notify_waiters`: everyone registered is woken. */
  function Notified(s: Sys): Sys {
    s.(drivers := map id | id in s.drivers :: s.drivers[id].(armed := false),
       idlers := map w | w in s.idlers :: s.idlers[w].(armed := false))
  }

  function Logged(s: Sys, r: Registry, events: seq<TaskEvent>): Sys {
    s.(reg := r, log := s.log + events)
  }

  /** A new task: registered, its token below its parent's, its driver about to start. */
  function Starting(s: Sys, id: TaskId, parent: Option<TaskId>, cls: AdmissionClass, requires_: seq<ResourceId>, at: int): Sys {
    var ticket := TicketFor(s.reg, s.cfg, parent, cls, requires_);
    var above := if parent.Some? && parent.value in s.lineage then s.lineage[parent.value] else {};
    Logged(s, Started(s.reg, id, parent, cls, ticket, at), [Submitted(NewInfo(id, parent, cls, at))])
      .(drivers := s.drivers[id := Driver(AtEnter, ticket, requires_, false)],
        lineage := s.lineage[id := above + {id}])
  }

  /** Where a task that will not be admitted goes. */
  function Refused(d: Driver, outcome: TaskState): Pc {
    if d.ticket.queued then AtLeave(outcome) else AtSettle(outcome)
  }

  ghost function Checked(s: Sys, id: TaskId): Sys
    requires id in s.drivers
  {
    var d := s.drivers[id];
    match Decision(s, id)
    case Admit =>
      if d.ticket.queued then
        Disarmed(s.(reg := AdmittedInto(s.reg, d.ticket), admissions := s.admissions + [d.ticket]), id, AtAdmitNotify)
      else Disarmed(s, id, AtLaunch)
    case Refuse(error) => Disarmed(s, id, Refused(d, Failed(error)))
    case Wait(on) => At(s, id, AtQueue(on))
  }

  /** The children a finishing task still has to cancel. */
  function LiveChildren(r: Registry, id: TaskId): set<TaskId>
    requires id in r.tasks
  {
    set child | child in r.tasks[id].children && Unsettled(r, child)
  }

  function FinishChecked(s: Sys, id: TaskId): Sys
    requires id in s.drivers
  {
    if id !in s.reg.tasks || s.reg.tasks[id].liveChildren == 0 then Disarmed(s, id, AtOutcome)
    else At(s.(requested := s.requested + LiveChildren(s.reg, id)), id, FinishAsleep)
  }

  function UnsettledIds(r: Registry): set<TaskId> {
    set id | id in r.tasks && Unsettled(r, id)
  }

  /** How a finished body may end the task: as cancelled only when it is. */
  predicate EndsWith(s: Sys, id: TaskId, outcome: TaskState) {
    outcome.Succeeded? || outcome.Failed? || (outcome.Cancelled? && IsCancelled(s, id))
  }

  predicate Enabled(s: Sys, step: Step) {
    match step
    case Submit(id, _, _, _) => id !in s.drivers
    case Spawn(parent, id, _, _, _) => id !in s.drivers && parent in s.drivers && BodyRuns(s.drivers[parent].pc)
    case Enable(id) => id in s.drivers && s.drivers[id].pc.AtEnter?
    case TryAdmit(id) => id in s.drivers && s.drivers[id].pc.AtCheck?
    case NoteQueued(id) => id in s.drivers && s.drivers[id].pc.AtQueue?
    case Wake(id) => id in s.drivers && s.drivers[id].pc.Asleep? && !s.drivers[id].armed
    case WakeCancelled(id) => id in s.drivers && s.drivers[id].pc.Asleep? && IsCancelled(s, id)
    case NotifyAdmitted(id) => id in s.drivers && s.drivers[id].pc.AtAdmitNotify?
    case LeaveQueue(id) => id in s.drivers && s.drivers[id].pc.AtLeave?
    case NotifyLeft(id) => id in s.drivers && s.drivers[id].pc.AtLeaveNotify?
    case Launch(id) => id in s.drivers && s.drivers[id].pc.AtLaunch?
    case BodyEnds(id) => id in s.drivers && (s.drivers[id].pc.InBody? || s.drivers[id].pc.InCancelledBody?)
    case SeeCancel(id) => id in s.drivers && s.drivers[id].pc.InBody? && IsCancelled(s, id)
    case NoteCancelling(id) => id in s.drivers && s.drivers[id].pc.AtCancelling?
    case GiveBack(id) => id in s.drivers && s.drivers[id].pc.AtGiveBack?
    case NotifyGivenBack(id) => id in s.drivers && s.drivers[id].pc.AtGiveBackNotify?
    case FinishEnable(id) => id in s.drivers && s.drivers[id].pc.AtFinishEnter?
    case FinishCheck(id) => id in s.drivers && s.drivers[id].pc.AtFinishCheck?
    case Conclude(id, outcome) => id in s.drivers && s.drivers[id].pc.AtOutcome? && EndsWith(s, id, outcome)
    case FinishWake(id) => id in s.drivers && s.drivers[id].pc.FinishAsleep? && !s.drivers[id].armed
    case SettleTask(id, _) => id in s.drivers && s.drivers[id].pc.AtSettle?
    case NotifySettled(id) => id in s.drivers && s.drivers[id].pc.AtSettleNotify?
    case NotifyResource => s.debts > 0
    case ReportProgress(id, _, now) => id in s.drivers && BodyRuns(s.drivers[id].pc) && now >= s.clock
    case FlushProgress(id, due, now) => Alarm(id, due) in s.timers && now >= due && now >= s.clock
    case IdleStart(w) => w !in s.idlers
    case IdleEnable(w) => w in s.idlers && s.idlers[w].pc.IdleEnter?
    case IdleLook(w) => w in s.idlers && s.idlers[w].pc.IdleCheck?
    case IdleWake(w) => w in s.idlers && s.idlers[w].pc.IdleAsleep? && !s.idlers[w].armed
    case _ => true
  }

  function IdlerAt(s: Sys, w: nat, pc: IdlePc, armed: bool): Sys {
    s.(idlers := s.idlers[w := Idler(pc, armed)])
  }

  ghost function Next(s: Sys, step: Step): Sys
    requires Enabled(s, step)
  {
    match step
    case Submit(id, cls, requires_, at) => Starting(s, id, None, cls, requires_, at)
    case Spawn(parent, id, cls, requires_, at) => Starting(s, id, Some(parent), cls, requires_, at)
    case Enable(id) => Armed(s, id, AtCheck)
    case TryAdmit(id) => Checked(s, id)
    case NoteQueued(id) =>
      var (r, events) := SetQueued(s.reg, id, s.drivers[id].pc.on);
      At(Logged(s, r, events), id, Asleep)
    case Wake(id) => At(s, id, AtEnter)
    case WakeCancelled(id) => Disarmed(s, id, Refused(s.drivers[id], Cancelled))
    case NotifyAdmitted(id) => Notified(At(s, id, AtLaunch))
    case LeaveQueue(id) =>
      At(s.(reg := Dequeued(s.reg, s.drivers[id].ticket)), id, AtLeaveNotify(s.drivers[id].pc.outcome))
    case NotifyLeft(id) => Notified(At(s, id, AtSettle(s.drivers[id].pc.outcome)))
    case Launch(id) =>
      var (r, events) := StateSet(s.reg, id, Running);
      At(Logged(s, r, events), id, InBody)
    case BodyEnds(id) => At(s, id, AtGiveBack)
    case SeeCancel(id) => At(s, id, AtCancelling)
    case NoteCancelling(id) =>
      var (r, events) := StateSet(s.reg, id, Cancelling);
      At(Logged(s, r, events), id, InCancelledBody)
    case GiveBack(id) =>
      var d := s.drivers[id];
      if d.ticket.queued then At(s.(reg := SlotGivenBack(s.reg, d.ticket.scope)), id, AtGiveBackNotify)
      else At(s, id, AtFinishEnter)
    case NotifyGivenBack(id) => Notified(At(s, id, AtFinishEnter))
    case FinishEnable(id) => Armed(s, id, AtFinishCheck)
    case FinishCheck(id) => FinishChecked(s, id)
    case Conclude(id, outcome) => At(s, id, AtSettle(outcome))
    case FinishWake(id) => At(s, id, AtFinishEnter)
    case SettleTask(id, at) =>
      var (r, events) := Settled(s.reg, id, s.drivers[id].pc.outcome, at, s.cfg.retainedRoots);
      At(Logged(s, r, events), id, AtSettleNotify)
    case NotifySettled(id) => Notified(At(s, id, Finished))
    case Cancel(id) => if Unsettled(s.reg, id) then s.(requested := s.requested + {id}) else s
    case CancelAll => s.(requested := s.requested + UnsettledIds(s.reg))
    case AddResource(resource, to) => s.(reg := ResourceAdded(s.reg, resource, to), debts := s.debts + 1)
    case SetResource(resource, to) => s.(reg := ResourceSet(s.reg, resource, to), debts := s.debts + 1)
    case NotifyResource => Notified(s.(debts := s.debts - 1))
    case ReportProgress(id, progress, now) =>
      var (r, events, timer) := ProgressReported(s.reg, id, progress, now, s.cfg.progressInterval);
      var reported := Logged(s, r, events).(clock := now);
      if timer.Some? then reported.(timers := s.timers + multiset{Alarm(id, now + timer.value)}) else reported
    case FlushProgress(id, due, now) =>
      var (r, events) := ProgressFlushed(s.reg, id, now);
      Logged(s, r, events).(timers := s.timers - multiset{Alarm(id, due)}, clock := now)
    case IdleStart(w) => IdlerAt(s, w, IdleEnter, false)
    case IdleEnable(w) => IdlerAt(s, w, IdleCheck, true)
    case IdleLook(w) => if Busy(s.reg) then IdlerAt(s, w, IdleAsleep, s.idlers[w].armed) else IdlerAt(s, w, IdleDone, false)
    case IdleWake(w) => IdlerAt(s, w, IdleEnter, false)
  }

  function Initial(cfg: Config): Sys {
    Sys(cfg, Registry(0, map[], [], map[], map[], map[]), map[], map[], 0, map[], {}, multiset{}, 0, [], [])
  }

  ghost predicate Possible(s: Sys, steps: seq<Step>)
    decreases |steps|
  {
    steps == [] || (Enabled(s, steps[0]) && Possible(Next(s, steps[0]), steps[1..]))
  }

  ghost function Run(s: Sys, steps: seq<Step>): Sys
    requires Possible(s, steps)
    decreases |steps|
  {
    if steps == [] then s else Run(Next(s, steps[0]), steps[1..])
  }
}
