/**
  No wake-up is lost: whoever sleeps with its condition already met has been
  notified, or someone still owes the notification. And so nothing is ever stuck.
*/
module Wake {
  import opened Wrappers
  import Throttle
  import opened Registry
  import opened Scheduler
  import opened Steps
  import opened Eviction
  import opened Family
  import opened FairAdmission

  /** Someone has still to call `notify_waiters`. */
  ghost predicate SomeoneOwes(s: Sys) {
    s.debts > 0 || exists id :: id in s.drivers && Owing(s.drivers[id].pc)
  }

  /** What a finishing task waits for has come: it is gone, or no child of it is live. */
  predicate ChildrenDone(r: Registry, id: TaskId) {
    id !in r.tasks || r.tasks[id].liveChildren == 0
  }

  /** A driver not yet notified, waiting for what has already come. */
  ghost predicate Overdue(s: Sys, id: TaskId) {
    && id in s.drivers && s.drivers[id].armed
    && (((s.drivers[id].pc.AtQueue? || s.drivers[id].pc.Asleep?) && !Decision(s, id).Wait?)
        || (s.drivers[id].pc.FinishAsleep? && ChildrenDone(s.reg, id)))
  }

  /** Someone waiting for the runtime to be idle, not yet notified, when it already is. */
  ghost predicate OverdueIdler(s: Sys, w: nat) {
    w in s.idlers && s.idlers[w].pc.IdleAsleep? && s.idlers[w].armed && !Busy(s.reg)
  }

  ghost predicate NoneLost(s: Sys) {
    && (forall id :: Overdue(s, id) ==> SomeoneOwes(s))
    && (forall w :: OverdueIdler(s, w) ==> SomeoneOwes(s))
  }

  // ----- steps that notify, and steps that leave someone owing -----

  lemma NotifyWakes(s: Sys, step: Step)
    requires Enabled(s, step) && Notifies(step)
    ensures NoneLost(Next(s, step))
  {
    hide Next, Enabled;
    NotifyDisarms(s, step);
    DisarmedNoneLost(Next(s, step));
  }

  lemma NotifyDisarms(s: Sys, step: Step)
    requires Enabled(s, step) && Notifies(step)
    ensures var t := Next(s, step);
            && (forall id :: id in t.drivers ==> !t.drivers[id].armed)
            && (forall w :: w in t.idlers ==> !t.idlers[w].armed)
  {
  }

  lemma DisarmedNoneLost(t: Sys)
    requires (forall id :: id in t.drivers ==> !t.drivers[id].armed) && forall w :: w in t.idlers ==> !t.idlers[w].armed
    ensures NoneLost(t)
  {
    hide Decision;
  }

  /** Only notifying pays what is owed. */
  lemma OwingDriverStays(step: Step, was: Driver, now: Driver)
    requires Owing(was.pc) && Mover(step).Some? && !Starts(step) && !Notifies(step)
    ensures !Places(step, was.pc)
  {
  }

  lemma DebtsStay(s: Sys, step: Step)
    requires Enabled(s, step) && !Notifies(step)
    ensures Next(s, step).debts >= s.debts
  {
    Frames(s, step);
    hide Next, Enabled;
  }

  lemma OwingStays(s: Sys, step: Step)
    requires Enabled(s, step) && !Notifies(step) && SomeoneOwes(s)
    ensures SomeoneOwes(Next(s, step))
  {
    var t := Next(s, step);
    DebtsStay(s, step);
    if s.debts == 0 {
      var id :| id in s.drivers && Owing(s.drivers[id].pc);
      DriverStep(s, step, id);
      hide Next, Enabled, Places, Goes, Mover, Notifies, Starts;
      if Mover(step) == Some(id) {
        OwingDriverStays(step, s.drivers[id], t.drivers[id]);
      }
      assert Owing(t.drivers[id].pc);
    }
  }

  /** Steps after which whoever took them owes a notification. */
  ghost predicate LeavesOwing(s: Sys, step: Step)
    requires Enabled(s, step)
  {
    || step.LeaveQueue? || step.SettleTask? || step.AddResource? || step.SetResource?
    || (step.GiveBack? && s.drivers[step.id].ticket.queued)
    || (step.TryAdmit? && s.drivers[step.id].ticket.queued && Decision(s, step.id) == Admit)
  }

  lemma OwesAfter(s: Sys, step: Step)
    requires Enabled(s, step) && LeavesOwing(s, step)
    ensures SomeoneOwes(Next(s, step))
  {
    hide AdmissionOf, AdmittedInto, Settled, Dequeued, SlotGivenBack;
    if !step.AddResource? && !step.SetResource? {
      var id := step.id;
      assert Owing(Next(s, step).drivers[id].pc);
    }
  }

  // ----- steps that leave no one owing -----

  /** What admission looks at is as it was. */
  predicate SameGrounds(r: Registry, was: Registry) {
    r.queues == was.queues && r.admitted == was.admitted && r.resources == was.resources
  }

  predicate Quiet(step: Step) {
    !Notifies(step) && !Starts(step) && !step.LeaveQueue? && !step.SettleTask? && !step.AddResource? && !step.SetResource?
  }

  lemma GroundsKept(s: Sys, step: Step)
    requires Enabled(s, step) && Quiet(step) && !LeavesOwing(s, step)
    ensures SameGrounds(Next(s, step).reg, s.reg)
  {
    if WritesTasks(step) {
      PlacesKept(s, step);
      ResourcesKept(s, step);
      hide Next, Enabled;
    } else if Decides(step) {
      GroundsDecided(s, step);
      hide Next, Enabled;
    } else {
      Frames(s, step);
      hide Next, Enabled;
    }
  }

  lemma GroundsDecided(s: Sys, step: Step)
    requires Enabled(s, step) && Decides(step) && !LeavesOwing(s, step)
    ensures SameGrounds(Next(s, step).reg, s.reg)
  {
    hide AdmissionOf, LiveChildren;
  }

  lemma ResourcesKept(s: Sys, step: Step)
    requires Enabled(s, step) && WritesTasks(step) && !Starts(step) && !step.SettleTask?
    ensures Next(s, step).reg.resources == s.reg.resources
  {
    if step.ReportProgress? || step.FlushProgress? {
      ResourcesReported(s, step);
    }
    hide ProgressReported, ProgressFlushed;
  }

  lemma SameDecision(s: Sys, t: Sys, id: TaskId)
    requires SameGrounds(t.reg, s.reg) && t.cfg == s.cfg && id in s.drivers && id in t.drivers
    requires t.drivers[id].ticket == s.drivers[id].ticket && t.drivers[id].requires_ == s.drivers[id].requires_
    ensures Decision(t, id) == Decision(s, id)
  {
    SameRequirements(t.reg, s.reg, s.drivers[id].requires_);
    hide Requirements, First;
  }

  lemma {:induction false} SameRequirements(r: Registry, was: Registry, requires_: seq<ResourceId>)
    requires r.resources == was.resources
    ensures Requirements(r, requires_) == Requirements(was, requires_)
    decreases |requires_|
  {
    if requires_ != [] {
      SameRequirements(r, was, requires_[1..]);
    }
  }

  /** A quiet step changes no child count, and settles no one. */
  lemma TreeKept(s: Sys, step: Step)
    requires Enabled(s, step) && Quiet(step)
    ensures var t := Next(s, step);
            && t.reg.tasks.Keys == s.reg.tasks.Keys
            && (forall id :: id in s.reg.tasks ==> t.reg.tasks[id].liveChildren == s.reg.tasks[id].liveChildren)
            && (forall id :: id in s.reg.tasks && !Ended(s.reg.tasks[id]) ==> !Ended(t.reg.tasks[id]))
  {
    hide Next, Enabled;
    if WritesTasks(step) {
      InfoWritten(s, step);
    } else {
      TasksKept(s, step);
    }
  }

  /** A check that sends a driver to wait found it had to. */
  lemma ChecksWait(s: Sys, step: Step, id: TaskId)
    requires Enabled(s, step) && id in Next(s, step).drivers
    ensures step == TryAdmit(id) && Next(s, step).drivers[id].pc.AtQueue? ==> id in s.drivers && Decision(s, id).Wait?
    ensures step.FinishCheck? && step.id == id && Next(s, step).drivers[id].pc.FinishAsleep? ==> !ChildrenDone(s.reg, id)
  {
    hide AdmissionOf, LiveChildren, IsCancelled;
  }

  lemma SleepsAsBefore(step: Step, was: Driver, now: Driver)
    requires Mover(step).Some? && !Starts(step) && Places(step, was.pc) && Goes(step, was, now)
    ensures now.pc.Asleep? ==> was.pc.AtQueue? && now.armed == was.armed
    ensures now.pc.AtQueue? ==> step.TryAdmit?
    ensures now.pc.FinishAsleep? ==> step.FinishCheck?
  {
  }

  lemma QuietDriver(s: Sys, step: Step, id: TaskId)
    requires Enabled(s, step) && Quiet(step) && !LeavesOwing(s, step) && Overdue(Next(s, step), id)
    ensures Overdue(s, id)
  {
    var t := Next(s, step);
    DriverStep(s, step, id);
    OthersStay(s, step);
    GroundsKept(s, step);
    TreeKept(s, step);
    ChecksWait(s, step, id);
    MoverNamed(step);
    hide Next, Enabled, LeavesOwing, Quiet, Decision, Places, Goes, Mover, Untouched, SameGrounds;
    if id in s.drivers {
      SameDecision(s, t, id);
      if Mover(step) == Some(id) {
        SleepsAsBefore(step, s.drivers[id], t.drivers[id]);
      } else {
        UntouchedStays(s.drivers[id], t.drivers[id]);
      }
    }
  }

  lemma BusyStays(r: Registry, was: Registry)
    requires r.tasks.Keys == was.tasks.Keys && Busy(was)
    requires forall id :: id in was.tasks && !Ended(was.tasks[id]) ==> !Ended(r.tasks[id])
    ensures Busy(r)
  {
    var id :| id in was.tasks && Unsettled(was, id);
    assert Unsettled(r, id);
  }

  /** Someone falls asleep waiting for idleness only when the runtime is busy. */
  lemma IdlerSleeps(s: Sys, step: Step, w: nat)
    requires Enabled(s, step) && !Notifies(step) && w in Next(s, step).idlers
    requires Next(s, step).idlers[w].pc.IdleAsleep? && Next(s, step).idlers[w].armed
    ensures Busy(s.reg) || (w in s.idlers && s.idlers[w].pc.IdleAsleep? && s.idlers[w].armed)
  {
    Frames(s, step);
    if step.IdleStart? || step.IdleEnable? || step.IdleLook? || step.IdleWake? {
      hide Busy, Framed;
    } else if step.Cancel? || step.CancelAll? {
      hide Framed, Busy;
      assert Next(s, step).idlers == s.idlers;
    } else {
      hide Next, Enabled, Busy;
    }
  }

  lemma QuietIdler(s: Sys, step: Step, w: nat)
    requires Enabled(s, step) && Quiet(step) && OverdueIdler(Next(s, step), w)
    ensures OverdueIdler(s, w)
  {
    IdlerSleeps(s, step, w);
    TreeKept(s, step);
    hide Next, Enabled, Quiet, Busy;
    if Busy(s.reg) {
      BusyStays(Next(s, step).reg, s.reg);
    }
  }

  // ----- a new task -----

  lemma StartGrounds(s: Sys, step: Step)
    requires Enabled(s, step) && Starts(step)
    ensures var t := Next(s, step);
            && step.id in t.drivers && step.id !in s.drivers && t.drivers[step.id].pc == AtEnter
            && t.cfg == s.cfg && t.reg.admitted == s.reg.admitted && t.reg.resources == s.reg.resources
            && TakesNumber(t.reg, s.reg, t.drivers[step.id].ticket)
  {
    StartedPlaces(s, step);
    StarterStarts(s, step);
    hide Enabled, TicketFor, WithChild;
  }

  lemma StartLive(s: Sys, step: Step)
    requires Enabled(s, step) && Starts(step) && step.id !in s.reg.tasks
    ensures var t := Next(s, step);
            && Busy(t.reg)
            && forall id :: id in s.reg.tasks ==> id in t.reg.tasks && t.reg.tasks[id].liveChildren >= s.reg.tasks[id].liveChildren
  {
    StarterStarts(s, step);
    hide Next, Enabled, TicketFor;
    assert Unsettled(Next(s, step).reg, step.id);
  }

  /** A new number is behind every number already queued, so it makes no one first. */
  lemma NotFirstForIt(r: Registry, was: Registry, ticket: Ticket, scope: Scope, seq_: nat)
    requires TakesNumber(r, was, ticket) && seq_ in QueueOf(was, scope)
    ensures First(QueueOf(r, scope), seq_) ==> First(QueueOf(was, scope), seq_)
  {
    assert QueueOf(was, scope) <= QueueOf(r, scope);
  }

  lemma StartDecision(s: Sys, t: Sys, ticket: Ticket, id: TaskId)
    requires Fair(s) && TakesNumber(t.reg, s.reg, ticket) && t.cfg == s.cfg
    requires t.reg.admitted == s.reg.admitted && t.reg.resources == s.reg.resources
    requires id in s.drivers && id in t.drivers && Untouched(s.drivers[id], t.drivers[id])
    requires s.drivers[id].pc.AtQueue? || s.drivers[id].pc.Asleep?
    ensures !Decision(t, id).Wait? ==> !Decision(s, id).Wait?
  {
    var d := s.drivers[id];
    SameRequirements(t.reg, s.reg, d.requires_);
    if d.ticket.queued {
      assert ScopeExact(s.drivers, s.cfg, s.reg, d.ticket.scope);
      assert d.ticket.seq_ in Waiting(s.drivers, d.ticket.scope);
      NotFirstForIt(t.reg, s.reg, ticket, d.ticket.scope, d.ticket.seq_);
    }
    hide Requirements, First, Waiting, QueueOf, Fair, ScopeExact, TakesNumber;
  }

  lemma StartDriver(s: Sys, step: Step, id: TaskId)
    requires Fair(s) && Whole(s) && Enabled(s, step) && Starts(step) && Overdue(Next(s, step), id)
    ensures Overdue(s, id)
  {
    var t := Next(s, step);
    StartGrounds(s, step);
    StartNotRetained(s, step);
    StartLive(s, step);
    OthersStay(s, step);
    MoverNamed(step);
    hide Next, Enabled, Fair, Whole, Decision, TakesNumber, Busy, Untouched;
    if id != step.id {
      UntouchedStays(s.drivers[id], t.drivers[id]);
      if s.drivers[id].pc.AtQueue? || s.drivers[id].pc.Asleep? {
        StartDecision(s, t, t.drivers[step.id].ticket, id);
      }
    }
  }

  lemma StartNotRetained(s: Sys, step: Step)
    requires Whole(s) && Enabled(s, step) && Starts(step)
    ensures step.id !in s.reg.tasks
  {
  }

  // ----- whole runs -----

  lemma NextNoneLost(s: Sys, step: Step)
    requires Fair(s) && Whole(s) && Enabled(s, step) && NoneLost(s)
    ensures NoneLost(Next(s, step))
  {
    if Notifies(step) {
      NotifyWakes(s, step);
    } else if SomeoneOwes(s) {
      OwingStays(s, step);
      hide Next, Enabled, Fair, Whole, SomeoneOwes, Overdue, OverdueIdler;
    } else if LeavesOwing(s, step) {
      OwesAfter(s, step);
      hide Next, Enabled, Fair, Whole, SomeoneOwes, Overdue, OverdueIdler;
    } else {
      NothingNewlyLost(s, step);
    }
  }

  lemma NothingNewlyLost(s: Sys, step: Step)
    requires Fair(s) && Whole(s) && Enabled(s, step) && NoneLost(s) && !SomeoneOwes(s) && !Notifies(step) && !LeavesOwing(s, step)
    ensures NoneLost(Next(s, step))
  {
    var t := Next(s, step);
    assert Quiet(step) || Starts(step);
    if Starts(step) {
      StartNotRetained(s, step);
      StartLive(s, step);
    }
    hide Next, Enabled, Fair, Whole, SomeoneOwes, Overdue, Busy, LeavesOwing;
    forall id
      ensures !Overdue(t, id)
    {
      if Overdue(t, id) {
        if Starts(step) {
          StartDriver(s, step, id);
        } else {
          QuietDriver(s, step, id);
        }
      }
    }
    forall w
      ensures !OverdueIdler(t, w)
    {
      if OverdueIdler(t, w) && !Starts(step) {
        QuietIdler(s, step, w);
      }
    }
  }

  lemma {:induction false} RunNoneLost(s: Sys, steps: seq<Step>)
    requires Fair(s) && Whole(s) && NoneLost(s) && Possible(s, steps)
    ensures var t := Run(s, steps); Fair(t) && Whole(t) && NoneLost(t)
    decreases |steps|
  {
    hide Fair, Whole, NoneLost, Next, Enabled;
    if steps != [] {
      NextNoneLost(s, steps[0]);
      NextFair(s, steps[0]);
      NextWhole(s, steps[0]);
      RunNoneLost(Next(s, steps[0]), steps[1..]);
    }
  }

  /** In every reachable state, whoever sleeps with its condition met has been notified or is about to be. */
  lemma AlwaysNoneLost(cfg: Config, steps: seq<Step>)
    requires Possible(Initial(cfg), steps)
    ensures var t := Run(Initial(cfg), steps); Fair(t) && Whole(t) && NoneLost(t)
  {
    AlwaysFair(cfg, []);
    AlwaysWhole(cfg, []);
    assert NoneLost(Initial(cfg));
    assert Possible(Initial(cfg), []) && Run(Initial(cfg), []) == Initial(cfg);
    hide Fair, Whole, NoneLost, Next, Enabled;
    RunNoneLost(Initial(cfg), steps);
  }

  // ----- nothing is stuck -----

  /** Steps the runtime takes by itself: no new task, no cancelling, no change of resource, no report. */
  predicate Own(step: Step) {
    !Starts(step) && !step.Cancel? && !step.CancelAll? && !step.AddResource? && !step.SetResource? && !step.ReportProgress?
    && !step.FlushProgress? && !step.IdleStart?
  }

  /** The runtime has no step left to take by itself, every body having ended. */
  ghost predicate Stuck(s: Sys) {
    forall step :: Own(step) ==> !Enabled(s, step)
  }

  /** Nothing an unsettled task requires is on its way, and its class's cap, if it has one, leaves room for someone. */
  predicate NothingComing(s: Sys) {
    forall id :: id in s.drivers && !HasSettled(s.drivers[id].pc) ==> NothingComingFor(s, s.drivers[id])
  }

  predicate NothingComingFor(s: Sys, d: Driver) {
    && (forall resource :: resource in d.requires_ && resource in s.reg.resources ==>
          s.reg.resources[resource].Ready? || s.reg.resources[resource].Gone?)
    && (CapFor(s, d.ticket).Some? ==> CapFor(s, d.ticket).value > 0)
  }

  /** A step some driver could take from where it is. */
  function StepFrom(id: TaskId, pc: Pc): Step {
    match pc
    case AtEnter => Enable(id)
    case AtCheck => TryAdmit(id)
    case AtQueue(_) => NoteQueued(id)
    case Asleep => Wake(id)
    case AtAdmitNotify => NotifyAdmitted(id)
    case AtLeave(_) => LeaveQueue(id)
    case AtLeaveNotify(_) => NotifyLeft(id)
    case AtLaunch => Launch(id)
    case InBody => BodyEnds(id)
    case AtCancelling => NoteCancelling(id)
    case InCancelledBody => BodyEnds(id)
    case AtGiveBack => GiveBack(id)
    case AtGiveBackNotify => NotifyGivenBack(id)
    case AtFinishEnter => FinishEnable(id)
    case AtFinishCheck => FinishCheck(id)
    case AtOutcome => Conclude(id, Succeeded)
    case FinishAsleep => FinishWake(id)
    case AtSettle(_) => SettleTask(id, 0)
    case AtSettleNotify => NotifySettled(id)
    case Finished => CancelAll
  }

  lemma StuckDriver(s: Sys, id: TaskId)
    requires Stuck(s) && id in s.drivers
    ensures var d := s.drivers[id]; d.pc.Finished? || ((d.pc.Asleep? || d.pc.FinishAsleep?) && d.armed)
  {
    var step := StepFrom(id, s.drivers[id].pc);
    assert Own(step) ==> !Enabled(s, step);
    hide IsCancelled;
  }

  lemma StuckOwesNothing(s: Sys)
    requires Stuck(s)
    ensures !SomeoneOwes(s)
  {
    assert Own(NotifyResource) ==> !Enabled(s, NotifyResource);
    assert s.debts == 0;
    hide Enabled, Stuck;
    forall id | id in s.drivers
      ensures !Owing(s.drivers[id].pc)
    {
      StuckDriver(s, id);
    }
  }

  lemma {:induction false} SmallestIn(queue: set<nat>, n: nat) returns (first: nat)
    requires n in queue
    ensures First(queue, first)
    decreases n
  {
    if other :| other in queue && other < n {
      first := SmallestIn(queue, other);
    } else {
      first := n;
    }
  }

  lemma {:induction false} RequirementsDecided(r: Registry, requires_: seq<ResourceId>)
    requires forall resource :: resource in requires_ && resource in r.resources ==>
               r.resources[resource].Ready? || r.resources[resource].Gone?
    ensures !Requirements(r, requires_).Wait?
    decreases |requires_|
  {
    if requires_ != [] {
      RequirementsDecided(r, requires_[1..]);
    }
  }

  /** With nothing owed, no one waiting for admission is first in a scope with room. */
  lemma StuckWaiter(s: Sys, id: TaskId)
    requires NoneLost(s) && Stuck(s) && NothingComing(s) && id in s.drivers && s.drivers[id].pc.Asleep?
    ensures var ticket := s.drivers[id].ticket;
            && ticket.queued && CapFor(s, ticket).Some?
            && !(AdmittedTo(s.reg, ticket.scope) < CapFor(s, ticket).value && First(QueueOf(s.reg, ticket.scope), ticket.seq_))
  {
    StuckDriver(s, id);
    StuckOwesNothing(s);
    assert !Overdue(s, id) && NothingComingFor(s, s.drivers[id]);
    RequirementsDecided(s.reg, s.drivers[id].requires_);
    hide Stuck, SomeoneOwes, Requirements, First, QueueOf, AdmittedTo;
  }

  lemma NoHolder(s: Sys, scope: Scope)
    requires Stuck(s)
    ensures Holders(s.drivers, scope) == {}
  {
    forall id | id in s.drivers
      ensures !Holding(s.drivers[id])
    {
      StuckDriver(s, id);
    }
  }

  /** So no one waits for admission at all: the first in the queue would have been overdue. */
  lemma NoWaiter(s: Sys, id: TaskId)
    requires Fair(s) && NoneLost(s) && Stuck(s) && NothingComing(s) && id in s.drivers
    ensures !s.drivers[id].pc.Asleep?
  {
    if s.drivers[id].pc.Asleep? {
      StuckWaiter(s, id);
      assert NothingComingFor(s, s.drivers[id]);
      var scope := s.drivers[id].ticket.scope;
      NoHolder(s, scope);
      assert ScopeExact(s.drivers, s.cfg, s.reg, scope);
      assert s.drivers[id].ticket.seq_ in Waiting(s.drivers, scope);
      var first := SmallestIn(QueueOf(s.reg, scope), s.drivers[id].ticket.seq_);
      var head := WaitingDriver(s, scope, first);
      StuckDriver(s, head);
      StuckWaiter(s, head);
      assert false;
    }
  }

  lemma WaitingDriver(s: Sys, scope: Scope, n: nat) returns (id: TaskId)
    requires n in Waiting(s.drivers, scope)
    ensures id in s.drivers && InQueue(s.drivers[id]) && s.drivers[id].ticket.scope == scope && s.drivers[id].ticket.seq_ == n
  {
    id :| id in s.drivers && InQueue(s.drivers[id]) && s.drivers[id].ticket.scope == scope && s.drivers[id].ticket.seq_ == n;
  }

  /** No one waits for admission. */
  ghost predicate NoneAsleep(s: Sys) {
    forall id :: id in s.drivers ==> !s.drivers[id].pc.Asleep?
  }

  /** And then no one waits for a child: the youngest such would have none live. */
  lemma {:induction false} NoFinisher(s: Sys, id: TaskId)
    requires Whole(s) && NoneLost(s) && Stuck(s) && NoneAsleep(s) && id in s.drivers
    ensures !s.drivers[id].pc.FinishAsleep?
    decreases s.reg.nextSeq - (if id in s.reg.tasks then s.reg.tasks[id].seq_ else 0)
  {
    if s.drivers[id].pc.FinishAsleep? {
      StuckDriver(s, id);
      StuckOwesNothing(s);
      assert !Overdue(s, id);
      var child := LiveChild(s, id);
      StuckDriver(s, child);
      hide NoneLost, Stuck, SomeoneOwes;
      NoFinisher(s, child);
      assert false;
    }
  }

  lemma LiveChild(s: Sys, id: TaskId) returns (child: TaskId)
    requires Whole(s) && id in s.reg.tasks && s.reg.tasks[id].liveChildren != 0
    ensures child in s.drivers && !HasSettled(s.drivers[child].pc) && child in s.reg.tasks
    ensures s.reg.tasks[id].seq_ < s.reg.tasks[child].seq_ < s.reg.nextSeq
  {
    assert |Live(s.reg.tasks, id)| != 0;
    child :| child in Live(s.reg.tasks, id);
    assert s.reg.tasks[child].info.parent == Some(id);
    hide Counted, EndedLast, Fits, RootsExact;
    UnsettledDriven(s, child);
  }

  lemma UnsettledDriven(s: Sys, id: TaskId)
    requires Whole(s) && id in s.reg.tasks && !Ended(s.reg.tasks[id])
    ensures id in s.drivers && !HasSettled(s.drivers[id].pc)
  {
    hide Sound, RootsExact, Fits;
    EndedHasSettled(s.drivers[id].pc, s.reg.tasks[id]);
  }

  /**
    The runtime never gets stuck: once it has no step of its own left, with no required resource still on its way and no
    cap of zero, every task has settled and everyone waiting for it to be idle has been let go.
  */
  lemma NothingStuck(s: Sys)
    requires Fair(s) && Whole(s) && NoneLost(s) && Stuck(s) && NothingComing(s)
    ensures forall id :: id in s.drivers ==> s.drivers[id].pc.Finished?
    ensures !Busy(s.reg)
    ensures forall w :: w in s.idlers ==> s.idlers[w].pc.IdleDone?
  {
    forall id | id in s.drivers
      ensures !s.drivers[id].pc.Asleep?
    {
      NoWaiter(s, id);
    }
    hide Fair, Whole, NoneLost, Stuck, NothingComing;
    AllSettles(s);
  }

  /** Stuck with no one waiting for admission, everything has settled. */
  lemma AllSettles(s: Sys)
    requires Whole(s) && NoneLost(s) && Stuck(s) && NoneAsleep(s)
    ensures forall id :: id in s.drivers ==> s.drivers[id].pc.Finished?
    ensures !Busy(s.reg)
    ensures forall w :: w in s.idlers ==> s.idlers[w].pc.IdleDone?
  {
    forall id | id in s.drivers
      ensures s.drivers[id].pc.Finished?
    {
      StuckDriver(s, id);
      NoFinisher(s, id);
    }
    AllFinishedIdle(s);
    StuckOwesNothing(s);
    forall w | w in s.idlers
      ensures s.idlers[w].pc.IdleDone?
    {
      StuckIdler(s, w);
      assert !OverdueIdler(s, w);
    }
  }

  lemma AllFinishedIdle(s: Sys)
    requires Whole(s) && forall id :: id in s.drivers ==> s.drivers[id].pc.Finished?
    ensures !Busy(s.reg)
  {
  }

  lemma StuckIdler(s: Sys, w: nat)
    requires Stuck(s) && w in s.idlers
    ensures s.idlers[w].pc.IdleDone? || (s.idlers[w].pc.IdleAsleep? && s.idlers[w].armed)
  {
    var step := match s.idlers[w].pc
      case IdleEnter => IdleEnable(w)
      case IdleCheck => IdleLook(w)
      case IdleAsleep => IdleWake(w)
      case IdleDone => CancelAll;
    assert Own(step) ==> !Enabled(s, step);
  }

  /** So it is in every reachable state. */
  lemma NeverStuck(cfg: Config, steps: seq<Step>, s: Sys)
    requires Possible(Initial(cfg), steps) && s == Run(Initial(cfg), steps) && Stuck(s) && NothingComing(s)
    ensures forall id :: id in s.drivers ==> s.drivers[id].pc.Finished?
    ensures !Busy(s.reg)
    ensures forall w :: w in s.idlers ==> s.idlers[w].pc.IdleDone?
  {
    AlwaysNoneLost(cfg, steps);
    hide *;
    NothingStuck(s);
  }
}
