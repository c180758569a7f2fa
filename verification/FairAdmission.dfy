/**
  Admission over whole runs: places are conserved and bounded, a queue is exactly
  the roots waiting in it, and places go in submission order.
*/
module FairAdmission {
  import opened Wrappers
  import opened Registry
  import opened Scheduler
  import opened Steps

  /** The numbers of the drivers waiting for a place in a scope. */
  ghost function Waiting(drivers: map<TaskId, Driver>, scope: Scope): set<nat> {
    set id | id in drivers && InQueue(drivers[id]) && drivers[id].ticket.scope == scope :: drivers[id].ticket.seq_
  }

  /** The drivers holding a place in a scope. */
  ghost function Holders(drivers: map<TaskId, Driver>, scope: Scope): set<TaskId> {
    set id | id in drivers && Holding(drivers[id]) && drivers[id].ticket.scope == scope
  }

  ghost predicate Numbered(drivers: map<TaskId, Driver>, cfg: Config, next: nat) {
    && (forall id :: id in drivers ==> drivers[id].ticket.seq_ < next)
    && (forall id, other :: id in drivers && other in drivers && id != other ==>
          drivers[id].ticket.seq_ != drivers[other].ticket.seq_)
    && (forall id :: id in drivers && drivers[id].ticket.queued ==> cfg.Cap(drivers[id].ticket.scope.cls).Some?)
  }

  /** A scope's queue is those waiting for it, its count those holding a place in it, and never above its cap. */
  ghost predicate ScopeExact(drivers: map<TaskId, Driver>, cfg: Config, r: Registry, scope: Scope) {
    && QueueOf(r, scope) == Waiting(drivers, scope)
    && (scope in r.queues ==> r.queues[scope] != {})
    && AdmittedTo(r, scope) == |Holders(drivers, scope)|
    && (AdmittedTo(r, scope) > 0 ==> cfg.Cap(scope.cls).Some? && AdmittedTo(r, scope) <= cfg.Cap(scope.cls).value)
  }

  ghost predicate Exact(drivers: map<TaskId, Driver>, cfg: Config, r: Registry) {
    forall scope :: ScopeExact(drivers, cfg, r, scope)
  }

  /** Places went in submission order, and to everyone before anyone still waiting. */
  ghost predicate InOrder(admissions: seq<Ticket>, r: Registry) {
    && (forall i, j :: 0 <= i < j < |admissions| && admissions[i].scope == admissions[j].scope ==>
          admissions[i].seq_ < admissions[j].seq_)
    && (forall i, n :: 0 <= i < |admissions| && n in QueueOf(r, admissions[i].scope) ==> admissions[i].seq_ < n)
    && (forall i :: 0 <= i < |admissions| ==> admissions[i].seq_ < r.nextSeq)
  }

  ghost predicate Fair(s: Sys) {
    && Numbered(s.drivers, s.cfg, s.reg.nextSeq)
    && Exact(s.drivers, s.cfg, s.reg)
    && InOrder(s.admissions, s.reg)
  }

  // ----- steps that move no one in or out -----

  ghost predicate SameStanding(drivers: map<TaskId, Driver>, was: map<TaskId, Driver>) {
    && drivers.Keys == was.Keys
    && forall id :: id in was ==>
         && drivers[id].ticket == was[id].ticket
         && InQueue(drivers[id]) == InQueue(was[id])
         && Holding(drivers[id]) == Holding(was[id])
  }

  lemma DriverStanding(step: Step, was: Driver, now: Driver)
    requires Places(step, was.pc) && Goes(step, was, now) && Mover(step).Some?
    requires !Starts(step) && !step.TryAdmit? && !step.LeaveQueue? && !step.GiveBack?
    ensures InQueue(now) == InQueue(was) && Holding(now) == Holding(was) && now.ticket == was.ticket
  {
  }

  lemma UntouchedStanding(was: Driver, now: Driver)
    requires Untouched(was, now)
    ensures InQueue(now) == InQueue(was) && Holding(now) == Holding(was) && now.ticket == was.ticket
  {
  }

  lemma StandingKept(s: Sys, step: Step)
    requires Enabled(s, step) && KeepsPlaces(s, step)
    ensures SameStanding(Next(s, step).drivers, s.drivers)
  {
    assert !Starts(step) && !step.TryAdmit? && !step.LeaveQueue? && !step.GiveBack?;
    SameKeys(s, step);
    hide Next, Enabled, DriverAfter, InQueue, Holding, KeepsPlaces, Starts, StandsAt;
    forall id | id in s.drivers
      ensures StandsAt(Next(s, step), s, id)
    {
      DriverStep(s, step, id);
      StandingOf(Next(s, step), s, step, id);
    }
    AllStand(Next(s, step), s);
  }

  lemma SameKeys(s: Sys, step: Step)
    requires Enabled(s, step) && !Starts(step)
    ensures Next(s, step).drivers.Keys == s.drivers.Keys
  {
    OthersStay(s, step);
    hide Next, Enabled;
  }

  lemma AllStand(t: Sys, s: Sys)
    requires t.drivers.Keys == s.drivers.Keys && forall id :: id in s.drivers ==> StandsAt(t, s, id)
    ensures SameStanding(t.drivers, s.drivers)
  {
    hide InQueue, Holding;
    forall id | id in s.drivers
      ensures t.drivers[id].ticket == s.drivers[id].ticket
      ensures InQueue(t.drivers[id]) == InQueue(s.drivers[id]) && Holding(t.drivers[id]) == Holding(s.drivers[id])
    {
      assert StandsAt(t, s, id);
    }
  }

  ghost predicate StandsAt(t: Sys, s: Sys, id: TaskId)
    requires id in s.drivers
  {
    && id in t.drivers
    && t.drivers[id].ticket == s.drivers[id].ticket
    && InQueue(t.drivers[id]) == InQueue(s.drivers[id]) && Holding(t.drivers[id]) == Holding(s.drivers[id])
  }

  lemma StandingOf(t: Sys, s: Sys, step: Step, id: TaskId)
    requires DriverAfter(t, s, step, id) && id in s.drivers
    requires !Starts(step) && !step.TryAdmit? && !step.LeaveQueue? && !step.GiveBack?
    ensures StandsAt(t, s, id)
  {
    hide Places, Goes, Mover, InQueue, Holding, Untouched;
    if Mover(step) == Some(id) {
      DriverStanding(step, s.drivers[id], t.drivers[id]);
    } else {
      UntouchedStanding(s.drivers[id], t.drivers[id]);
    }
  }

  lemma SameStandingKeeps(s: Sys, t: Sys)
    requires Fair(s) && SameStanding(t.drivers, s.drivers) && t.cfg == s.cfg && t.admissions == s.admissions
    requires SamePlaces(t.reg, s.reg)
    ensures Fair(t)
  {
    forall scope
      ensures ScopeExact(t.drivers, t.cfg, t.reg, scope)
    {
      assert ScopeExact(s.drivers, s.cfg, s.reg, scope);
      assert Waiting(t.drivers, scope) == Waiting(s.drivers, scope);
      assert Holders(t.drivers, scope) == Holders(s.drivers, scope);
    }
    assert forall scope :: QueueOf(t.reg, scope) == QueueOf(s.reg, scope);
    hide InQueue, Holding, ScopeExact, QueueOf;
  }

  // ----- a place taken, left, given back, and a new root -----

  /** One driver's change of standing, everyone else's the same. */
  ghost predicate OnlyStandingOf(drivers: map<TaskId, Driver>, was: map<TaskId, Driver>, id: TaskId) {
    && id in was
    && drivers.Keys == was.Keys
    && drivers[id].ticket == was[id].ticket
    && forall other :: other in was && other != id ==>
         && drivers[other].ticket == was[other].ticket
         && InQueue(drivers[other]) == InQueue(was[other])
         && Holding(drivers[other]) == Holding(was[other])
  }

  lemma QueueWithout(drivers: map<TaskId, Driver>, was: map<TaskId, Driver>, id: TaskId, cfg: Config, next: nat, scope: Scope)
    requires OnlyStandingOf(drivers, was, id) && Numbered(was, cfg, next)
    requires !InQueue(drivers[id])
    ensures Waiting(drivers, scope)
         == if scope == was[id].ticket.scope then Waiting(was, scope) - {was[id].ticket.seq_} else Waiting(was, scope)
  {
  }

  lemma HoldersWith(drivers: map<TaskId, Driver>, was: map<TaskId, Driver>, id: TaskId, scope: Scope)
    requires OnlyStandingOf(drivers, was, id)
    ensures Holders(drivers, scope)
         == (if Holding(drivers[id]) && drivers[id].ticket.scope == scope then Holders(was, scope) + {id}
             else Holders(was, scope) - {id})
  {
  }

  lemma DequeuedAt(r: Registry, ticket: Ticket, scope: Scope)
    ensures var left := Dequeued(r, ticket);
            && QueueOf(left, scope) == (if scope == ticket.scope then QueueOf(r, scope) - {ticket.seq_} else QueueOf(r, scope))
            && (scope in left.queues ==> left.queues[scope] == QueueOf(left, scope))
            && (scope in left.queues && scope != ticket.scope ==> scope in r.queues)
            && (scope in left.queues && scope == ticket.scope ==> left.queues[scope] != {})
            && AdmittedTo(left, scope) == AdmittedTo(r, scope)
            && left.nextSeq == r.nextSeq
  {
  }

  lemma OnlyMoverStands(s: Sys, step: Step)
    requires Enabled(s, step) && Mover(step).Some? && !Starts(step)
    ensures OnlyStandingOf(Next(s, step).drivers, s.drivers, Mover(step).value)
  {
    hide Next, Enabled, Places, Mover, Starts, InQueue, Holding, Untouched;
    OthersStay(s, step);
    EnabledPlace(s, step);
    OthersStand(s, Next(s, step), step);
  }

  lemma OthersStand(s: Sys, t: Sys, step: Step)
    requires OneMoves(s, t, step) && Mover(step).Some? && Mover(step).value in s.drivers && !Starts(step)
    ensures OnlyStandingOf(t.drivers, s.drivers, Mover(step).value)
  {
    hide Mover, Starts, InQueue, Holding, Untouched;
    forall other | other in s.drivers && Mover(step) != Some(other)
      ensures InQueue(t.drivers[other]) == InQueue(s.drivers[other]) && Holding(t.drivers[other]) == Holding(s.drivers[other])
    {
      UntouchedStanding(s.drivers[other], t.drivers[other]);
    }
  }

  lemma NumberedKept(s: Sys, step: Step)
    requires Enabled(s, step) && !Starts(step) && Numbered(s.drivers, s.cfg, s.reg.nextSeq)
    requires Next(s, step).reg.nextSeq == s.reg.nextSeq
    ensures Numbered(Next(s, step).drivers, s.cfg, s.reg.nextSeq)
  {
    hide Next, Enabled, Numbered, Mover;
    OthersStay(s, step);
    NumberedSame(s.drivers, Next(s, step).drivers, s.cfg, s.reg.nextSeq);
  }

  lemma NumberedSame(was: map<TaskId, Driver>, drivers: map<TaskId, Driver>, cfg: Config, next: nat)
    requires Numbered(was, cfg, next) && drivers.Keys == was.Keys
    requires forall id :: id in was ==> drivers[id].ticket == was[id].ticket
    ensures Numbered(drivers, cfg, next)
  {
  }

  lemma LeaveKeeps(s: Sys, step: Step)
    requires Fair(s) && Enabled(s, step) && step.LeaveQueue?
    ensures Fair(Next(s, step))
  {
    hide Next, Enabled, Numbered, Dequeued, ScopeExact, OnlyStandingOf, InOrder, InQueue, Holding, Mover;
    var t, id := Next(s, step), step.id;
    LeavesQueue(s, step);
    OnlyMoverStands(s, step);
    NumberedKept(s, step);
    forall scope
      ensures ScopeExact(t.drivers, t.cfg, t.reg, scope)
    {
      LeaveAt(s.drivers, t.drivers, s.cfg, s.reg, id, scope);
    }
    LeaveOrder(s.admissions, s.reg, s.drivers[id].ticket);
  }

  lemma LeavesQueue(s: Sys, step: Step)
    requires Enabled(s, step) && step.LeaveQueue?
    ensures Mover(step) == Some(step.id) && !Starts(step) && step.id in s.drivers
    ensures var t, id := Next(s, step), step.id;
            && t.cfg == s.cfg && t.admissions == s.admissions && t.reg == Dequeued(s.reg, s.drivers[id].ticket)
            && t.reg.nextSeq == s.reg.nextSeq
            && id in t.drivers && !InQueue(t.drivers[id]) && Holding(t.drivers[id]) == Holding(s.drivers[id])
  {
    NextSeqKept(s, step);
    hide Dequeued;
  }

  lemma LeaveAt(was: map<TaskId, Driver>, drivers: map<TaskId, Driver>, cfg: Config, r: Registry, id: TaskId, scope: Scope)
    requires OnlyStandingOf(drivers, was, id) && Numbered(was, cfg, r.nextSeq) && ScopeExact(was, cfg, r, scope)
    requires !InQueue(drivers[id]) && Holding(drivers[id]) == Holding(was[id])
    ensures ScopeExact(drivers, cfg, Dequeued(r, was[id].ticket), scope)
  {
    assert id in was;
    hide Dequeued, Numbered, Waiting, Holders, OnlyStandingOf, QueueOf, AdmittedTo;
    DequeuedAt(r, was[id].ticket, scope);
    QueueWithout(drivers, was, id, cfg, r.nextSeq, scope);
    HoldersSame(drivers, was, id, scope);
    NonEmptyQueue(r, scope);
  }

  lemma NonEmptyQueue(r: Registry, scope: Scope)
    ensures scope in r.queues ==> r.queues[scope] == QueueOf(r, scope)
  {
  }

  lemma HoldersSame(drivers: map<TaskId, Driver>, was: map<TaskId, Driver>, id: TaskId, scope: Scope)
    requires OnlyStandingOf(drivers, was, id) && Holding(drivers[id]) == Holding(was[id])
    ensures Holders(drivers, scope) == Holders(was, scope)
  {
  }

  lemma LeaveOrder(admissions: seq<Ticket>, r: Registry, ticket: Ticket)
    requires InOrder(admissions, r)
    ensures InOrder(admissions, Dequeued(r, ticket))
  {
    forall scope
      ensures QueueOf(Dequeued(r, ticket), scope) <= QueueOf(r, scope)
    {
      DequeuedAt(r, ticket, scope);
    }
    hide QueueOf;
  }

  lemma GiveBackKeeps(s: Sys, step: Step)
    requires Fair(s) && Enabled(s, step) && step.GiveBack?
    ensures Fair(Next(s, step))
  {
    hide Next, Enabled, Numbered, ScopeExact, OnlyStandingOf, Holding, InQueue, QueueOf, SlotGivenBack, Mover;
    var t, id := Next(s, step), step.id;
    GivesBack(s, step);
    OnlyMoverStands(s, step);
    NumberedKept(s, step);
    forall scope
      ensures ScopeExact(t.drivers, t.cfg, t.reg, scope)
    {
      GiveBackAt(s.drivers, t.drivers, s.cfg, s.reg, id, scope);
    }
  }

  lemma GivesBack(s: Sys, step: Step)
    requires Enabled(s, step) && step.GiveBack?
    ensures Mover(step) == Some(step.id) && !Starts(step) && step.id in s.drivers
    ensures var t, d := Next(s, step), s.drivers[step.id];
            && t.cfg == s.cfg && t.admissions == s.admissions && t.reg.nextSeq == s.reg.nextSeq
            && t.reg == (if d.ticket.queued then SlotGivenBack(s.reg, d.ticket.scope) else s.reg)
            && (forall scope :: QueueOf(t.reg, scope) == QueueOf(s.reg, scope))
            && Holding(d) == d.ticket.queued && !InQueue(d)
            && step.id in t.drivers && !Holding(t.drivers[step.id]) && !InQueue(t.drivers[step.id])
  {
  }

  /** The count of places is that of its holders, so giving one back never saturates. */
  lemma GiveBackAt(was: map<TaskId, Driver>, drivers: map<TaskId, Driver>, cfg: Config, r: Registry, id: TaskId, scope: Scope)
    requires OnlyStandingOf(drivers, was, id) && ScopeExact(was, cfg, r, scope)
    requires Holding(was[id]) == was[id].ticket.queued && !Holding(drivers[id]) && !InQueue(was[id]) && !InQueue(drivers[id])
    ensures ScopeExact(drivers, cfg, if was[id].ticket.queued then SlotGivenBack(r, was[id].ticket.scope) else r, scope)
  {
    HoldersWith(drivers, was, id, scope);
    WaitingSame(drivers, was, id, scope);
    if was[id].ticket.queued && scope == was[id].ticket.scope {
      assert id in Holders(was, scope);
    } else {
      assert id !in Holders(was, scope);
    }
    assert drivers[id].ticket == was[id].ticket;
    assert QueueOf(SlotGivenBack(r, was[id].ticket.scope), scope) == QueueOf(r, scope);
    hide Waiting, InQueue, Holders, QueueOf, Holding, OnlyStandingOf;
  }

  lemma WaitingSame(drivers: map<TaskId, Driver>, was: map<TaskId, Driver>, id: TaskId, scope: Scope)
    requires OnlyStandingOf(drivers, was, id) && InQueue(drivers[id]) == InQueue(was[id])
    ensures Waiting(drivers, scope) == Waiting(was, scope)
  {
    forall n | n in Waiting(drivers, scope)
      ensures n in Waiting(was, scope)
    {
    }
  }

  lemma AdmitKeeps(s: Sys, step: Step)
    requires Fair(s) && Enabled(s, step) && step.TryAdmit?
    ensures Fair(Next(s, step))
  {
    var t, id := Next(s, step), step.id;
    var d := s.drivers[id];
    if d.ticket.queued && Decision(s, id) == Admit {
      OnlyMoverStands(s, step);
      assert t.cfg == s.cfg && t.admissions == s.admissions + [d.ticket] && t.reg == AdmittedInto(s.reg, d.ticket);
      assert InQueue(d) && !Holding(d) && Holding(t.drivers[id]) && !InQueue(t.drivers[id]);
      FirstWithRoom(s.reg, d.requires_, d.ticket, CapFor(s, d.ticket));
      AdmittedIntoAt(s.reg, d.ticket, d.ticket.scope);
      NumberedKept(s, step);
      hide Next, Enabled, Numbered, ScopeExact, OnlyStandingOf, Holding, InQueue, QueueOf, First, AdmittedTo, AdmittedInto, InOrder,
           Decision;
      forall scope
        ensures ScopeExact(t.drivers, t.cfg, t.reg, scope)
      {
        AdmitAt(s.drivers, t.drivers, s.cfg, s.reg, id, scope);
      }
      AdmitOrder(s, d.ticket);
      assert Fair(t);
    } else {
      CheckedInPlace(s, step);
      SameStandingKeeps(s, t);
    }
  }

  lemma CheckedInPlace(s: Sys, step: Step)
    requires Enabled(s, step) && step.TryAdmit? && !(s.drivers[step.id].ticket.queued && Decision(s, step.id) == Admit)
    ensures var t := Next(s, step);
            && SameStanding(t.drivers, s.drivers) && t.cfg == s.cfg && t.admissions == s.admissions && SamePlaces(t.reg, s.reg)
  {
    var t := Next(s, step);
    assert t.cfg == s.cfg && t.admissions == s.admissions && t.reg == s.reg by {
      hide AdmissionOf;
    }
    StandingOfChecked(s, step);
  }

  lemma StandingOfChecked(s: Sys, step: Step)
    requires Enabled(s, step) && step.TryAdmit? && !(s.drivers[step.id].ticket.queued && Decision(s, step.id) == Admit)
    ensures SameStanding(Next(s, step).drivers, s.drivers)
  {
    hide Next, Enabled, Decision, Places, Goes, InQueue, Holding, SameStanding;
    OnlyMoverStands(s, step);
    MoverGoes(s, step);
    NoPlaceTaken(s, step);
    EnabledPlace(s, step);
    CheckStanding(step, s.drivers[step.id], Next(s, step).drivers[step.id]);
    OneStands(Next(s, step).drivers, s.drivers, step.id);
  }

  lemma CheckStanding(step: Step, was: Driver, now: Driver)
    requires step.TryAdmit? && Places(step, was.pc) && Goes(step, was, now) && !now.pc.AtAdmitNotify?
    ensures InQueue(now) == InQueue(was) && Holding(now) == Holding(was)
  {
  }

  lemma OneStands(drivers: map<TaskId, Driver>, was: map<TaskId, Driver>, id: TaskId)
    requires OnlyStandingOf(drivers, was, id)
    requires InQueue(drivers[id]) == InQueue(was[id]) && Holding(drivers[id]) == Holding(was[id])
    ensures SameStanding(drivers, was)
  {
    hide InQueue, Holding;
  }

  lemma NoPlaceTaken(s: Sys, step: Step)
    requires Enabled(s, step) && step.TryAdmit? && !(s.drivers[step.id].ticket.queued && Decision(s, step.id) == Admit)
    ensures step.id in Next(s, step).drivers && !Next(s, step).drivers[step.id].pc.AtAdmitNotify?
  {
    hide AdmissionOf;
  }

  lemma FirstWithRoom(r: Registry, requires_: seq<ResourceId>, ticket: Ticket, cap: Option<nat>)
    requires AdmissionOf(r, requires_, ticket, cap) == Admit && cap.Some?
    ensures AdmittedTo(r, ticket.scope) < cap.value && First(QueueOf(r, ticket.scope), ticket.seq_)
  {
  }

  lemma AdmitAt(was: map<TaskId, Driver>, drivers: map<TaskId, Driver>, cfg: Config, r: Registry, id: TaskId, scope: Scope)
    requires OnlyStandingOf(drivers, was, id) && Numbered(was, cfg, r.nextSeq) && ScopeExact(was, cfg, r, scope)
    requires !InQueue(drivers[id]) && Holding(drivers[id]) && !Holding(was[id]) && was[id].ticket.queued
    requires cfg.Cap(was[id].ticket.scope.cls).Some?
    requires AdmittedTo(r, was[id].ticket.scope) < cfg.Cap(was[id].ticket.scope.cls).value
    ensures ScopeExact(drivers, cfg, AdmittedInto(r, was[id].ticket), scope)
  {
    var ticket := was[id].ticket;
    AdmittedIntoAt(r, ticket, scope);
    QueueWithout(drivers, was, id, cfg, r.nextSeq, scope);
    HoldersWith(drivers, was, id, scope);
    NotHolder(was, id, scope);
    assert drivers[id].ticket == ticket;
    assert scope in r.queues ==> r.queues[scope] != {};
    hide AdmittedInto, Numbered, Waiting, Holders, OnlyStandingOf, QueueOf, AdmittedTo, Holding, InQueue;
    OneMore(Holders(was, scope), id);
  }

  lemma OneMore(holders: set<TaskId>, id: TaskId)
    requires id !in holders
    ensures holders - {id} == holders && |holders + {id}| == |holders| + 1
  {
  }

  lemma AdmittedIntoAt(r: Registry, ticket: Ticket, scope: Scope)
    ensures var taken := AdmittedInto(r, ticket);
            && QueueOf(taken, scope) == (if scope == ticket.scope then QueueOf(r, scope) - {ticket.seq_} else QueueOf(r, scope))
            && (scope in taken.queues && scope != ticket.scope ==> scope in r.queues && taken.queues[scope] == r.queues[scope])
            && (scope in taken.queues && scope == ticket.scope ==> taken.queues[scope] != {})
            && AdmittedTo(taken, scope) == AdmittedTo(r, scope) + (if scope == ticket.scope then 1 else 0)
            && taken.nextSeq == r.nextSeq
  {
  }

  lemma NotHolder(drivers: map<TaskId, Driver>, id: TaskId, scope: Scope)
    requires id in drivers && !Holding(drivers[id])
    ensures id !in Holders(drivers, scope)
  {
  }

  lemma AdmitOrder(s: Sys, ticket: Ticket)
    requires InOrder(s.admissions, s.reg) && First(QueueOf(s.reg, ticket.scope), ticket.seq_) && ticket.seq_ < s.reg.nextSeq
    ensures InOrder(s.admissions + [ticket], AdmittedInto(s.reg, ticket))
  {
    forall scope
      ensures QueueOf(AdmittedInto(s.reg, ticket), scope)
           == if scope == ticket.scope then QueueOf(s.reg, scope) - {ticket.seq_} else QueueOf(s.reg, scope)
    {
      AdmittedIntoAt(s.reg, ticket, scope);
    }
    AdmittedIntoAt(s.reg, ticket, ticket.scope);
    hide QueueOf, AdmittedInto, AdmittedTo;
  }

  lemma StartKeeps(s: Sys, step: Step)
    requires Fair(s) && Enabled(s, step) && Starts(step)
    ensures Fair(Next(s, step))
  {
    hide Next, Enabled, Started, TicketFor, ScopeExact, InOrder;
    var t, id := Next(s, step), step.id;
    StarterStarts(s, step);
    OthersStay(s, step);
    var d := t.drivers[id];
    StartedPlaces(s, step);
    forall scope
      ensures ScopeExact(t.drivers, t.cfg, t.reg, scope)
    {
      StartAt(s.drivers, t.drivers, s.cfg, s.reg, t.reg, id, scope);
    }
    StartOrder(s.admissions, s.reg, t.reg, d.ticket);
  }

  /** What a start does to the queues: the new root's number goes in, the highest yet. */
  ghost predicate TakesNumber(r: Registry, was: Registry, ticket: Ticket) {
    && r.admitted == was.admitted && r.nextSeq == was.nextSeq + 1 && ticket.seq_ == was.nextSeq
    && r.queues == if ticket.queued then Enqueued(was, ticket).queues else was.queues
  }

  lemma StartedPlaces(s: Sys, step: Step)
    requires Enabled(s, step) && Starts(step)
    ensures var t := Next(s, step);
            && step.id in t.drivers
            && TakesNumber(t.reg, s.reg, t.drivers[step.id].ticket)
            && (t.drivers[step.id].ticket.queued ==> s.cfg.Cap(t.drivers[step.id].ticket.scope.cls).Some?)
  {
    StarterStarts(s, step);
    hide Next, Enabled, WithChild, NewInfo;
  }

  lemma StartAt(was: map<TaskId, Driver>, drivers: map<TaskId, Driver>, cfg: Config, r: Registry, after: Registry, id: TaskId, scope: Scope)
    requires id !in was && drivers.Keys == was.Keys + {id} && drivers[id].pc == AtEnter
    requires forall other :: other in was ==> Untouched(was[other], drivers[other])
    requires ScopeExact(was, cfg, r, scope) && TakesNumber(after, r, drivers[id].ticket)
    ensures ScopeExact(drivers, cfg, after, scope)
  {
    var ticket := drivers[id].ticket;
    HoldersStarted(was, drivers, id, scope);
    WaitingStarted(was, drivers, id, scope);
    hide Waiting, Holders, InQueue, Holding, Untouched;
  }

  lemma HoldersStarted(was: map<TaskId, Driver>, drivers: map<TaskId, Driver>, id: TaskId, scope: Scope)
    requires id !in was && drivers.Keys == was.Keys + {id} && drivers[id].pc == AtEnter
    requires forall other :: other in was ==> Untouched(was[other], drivers[other])
    ensures Holders(drivers, scope) == Holders(was, scope)
  {
  }

  lemma WaitingStarted(was: map<TaskId, Driver>, drivers: map<TaskId, Driver>, id: TaskId, scope: Scope)
    requires id !in was && drivers.Keys == was.Keys + {id} && drivers[id].pc == AtEnter
    requires forall other :: other in was ==> Untouched(was[other], drivers[other])
    ensures Waiting(drivers, scope)
         == if drivers[id].ticket.queued && scope == drivers[id].ticket.scope then Waiting(was, scope) + {drivers[id].ticket.seq_}
            else Waiting(was, scope)
  {
    forall other | other in was
      ensures drivers[other].ticket == was[other].ticket && InQueue(drivers[other]) == InQueue(was[other])
    {
    }
    assert InQueue(drivers[id]) == drivers[id].ticket.queued;
    hide InQueue, Untouched;
  }

  lemma StartOrder(admissions: seq<Ticket>, r: Registry, after: Registry, ticket: Ticket)
    requires InOrder(admissions, r) && TakesNumber(after, r, ticket)
    ensures InOrder(admissions, after)
  {
    forall scope
      ensures QueueOf(after, scope) <= QueueOf(r, scope) + {r.nextSeq}
    {
    }
    hide QueueOf;
  }

  // ----- whole runs -----

  lemma NextFair(s: Sys, step: Step)
    requires Fair(s) && Enabled(s, step)
    ensures Fair(Next(s, step))
  {
    if Starts(step) {
      StartKeeps(s, step);
    } else if step.TryAdmit? {
      AdmitKeeps(s, step);
    } else if step.LeaveQueue? {
      LeaveKeeps(s, step);
    } else if step.GiveBack? {
      GiveBackKeeps(s, step);
    } else {
      StandingKept(s, step);
      PlacesKept(s, step);
      OthersStay(s, step);
      hide *;
      assert Next(s, step).cfg == s.cfg;
      SameStandingKeeps(s, Next(s, step));
    }
  }

  lemma {:induction false} RunFair(s: Sys, steps: seq<Step>)
    requires Fair(s) && Possible(s, steps)
    ensures Fair(Run(s, steps))
    decreases |steps|
  {
    hide Fair, Next, Enabled;
    if steps != [] {
      NextFair(s, steps[0]);
      RunFair(Next(s, steps[0]), steps[1..]);
    }
  }

  /** In every reachable state the places taken in a scope are those held there, the queue is those waiting, and order was kept. */
  lemma AlwaysFair(cfg: Config, steps: seq<Step>)
    requires Possible(Initial(cfg), steps)
    ensures Fair(Run(Initial(cfg), steps))
  {
    var s := Initial(cfg);
    assert Fair(s) by {
      assert forall scope :: Waiting(s.drivers, scope) == {} && Holders(s.drivers, scope) == {};
    }
    RunFair(s, steps);
  }

  /** A place is only given back when one is counted: the subtraction that would stop at zero never has to. */
  lemma NeverSaturates(s: Sys, id: TaskId)
    requires Fair(s) && Enabled(s, GiveBack(id)) && s.drivers[id].ticket.queued
    ensures var scope := s.drivers[id].ticket.scope;
            AdmittedTo(Next(s, GiveBack(id)).reg, scope) + 1 == AdmittedTo(s.reg, scope)
  {
    var scope := s.drivers[id].ticket.scope;
    assert ScopeExact(s.drivers, s.cfg, s.reg, scope);
    assert id in Holders(s.drivers, scope);
  }

  /**
    Whoever takes a place was submitted before everyone still waiting in its scope and after everyone who took one there,
    and had room.
  */
  lemma AdmittedInTurn(s: Sys, id: TaskId)
    requires Fair(s) && Enabled(s, TryAdmit(id)) && s.drivers[id].ticket.queued && Decision(s, id) == Admit
    ensures var ticket := s.drivers[id].ticket;
            && (forall other | other in s.drivers && other != id && InQueue(s.drivers[other]) ::
                  s.drivers[other].ticket.scope == ticket.scope ==> ticket.seq_ < s.drivers[other].ticket.seq_)
            && (forall i :: 0 <= i < |s.admissions| && s.admissions[i].scope == ticket.scope ==> s.admissions[i].seq_ < ticket.seq_)
            && |Holders(s.drivers, ticket.scope)| < s.cfg.Cap(ticket.scope.cls).value
  {
    var ticket := s.drivers[id].ticket;
    FirstWithRoom(s.reg, s.drivers[id].requires_, ticket, CapFor(s, ticket));
    assert ScopeExact(s.drivers, s.cfg, s.reg, ticket.scope);
    hide Decision, Enabled, QueueOf, Holders, ScopeExact;
    forall other | other in s.drivers && InQueue(s.drivers[other]) && s.drivers[other].ticket.scope == ticket.scope && other != id
      ensures ticket.seq_ < s.drivers[other].ticket.seq_
    {
      assert s.drivers[other].ticket.seq_ in Waiting(s.drivers, ticket.scope);
    }
  }
}
