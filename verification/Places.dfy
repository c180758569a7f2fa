/**
  Who is admitted, in terms of how tasks were started: at most a class's cap of the
  roots that share a first requirement hold a place, places go to them in the order
  of their submission, and nothing else waits for one.
*/
module Places {
  import opened Wrappers
  import opened Registry
  import opened Scheduler
  import opened Steps
  import opened Family
  import opened Published
  import opened FairAdmission
  import Lifecycle
  import opened Record

  /** Past admission, and the body not over or its place not given back. */
  predicate Occupying(pc: Pc) {
    pc.AtAdmitNotify? || pc.AtLaunch? || pc.InBody? || pc.AtCancelling? || pc.InCancelledBody? || pc.AtGiveBack?
  }

  /** Not admitted yet, and not out of the line. */
  predicate InLine(pc: Pc) {
    pc.AtEnter? || pc.AtCheck? || pc.AtQueue? || pc.Asleep? || pc.AtLeave?
  }

  /** The class has a cap of `n`. */
  predicate Capped(cfg: Config, cls: AdmissionClass, n: nat) {
    match cls
    case Interactive => cfg.interactiveCap == Some(n)
    case Transfer => cfg.transferCap == Some(n)
    case Background => cfg.backgroundCap == Some(n)
  }

  predicate Uncapped(cfg: Config, cls: AdmissionClass) {
    match cls
    case Interactive => cfg.interactiveCap.None?
    case Transfer => cfg.transferCap.None?
    case Background => cfg.backgroundCap.None?
  }

  /** Submitted as a root of this class, with this first requirement. */
  predicate RootOf(past: seq<Step>, id: TaskId, cls: AdmissionClass, first: Option<ResourceId>) {
    && StartIn(past, id).Some? && StartIn(past, id).value.parent.None?
    && StartIn(past, id).value.cls == cls && FirstOf(StartIn(past, id).value.requires_) == first
  }

  ghost function Occupants(s: Sys, past: seq<Step>, cls: AdmissionClass, first: Option<ResourceId>): set<TaskId> {
    set id | id in s.drivers && RootOf(past, id, cls, first) && Occupying(s.drivers[id].pc)
  }

  /** Another such root, started before, is still in line. */
  ghost predicate SomeoneBefore(s: Sys, past: seq<Step>, id: TaskId, cls: AdmissionClass, first: Option<ResourceId>)
    requires StartIn(past, id).Some?
  {
    exists other ::
      && other in s.drivers && RootOf(past, other, cls, first) && InLine(s.drivers[other].pc)
      && StartIn(past, other).value.when < StartIn(past, id).value.when
  }

  // ----- drivers and starts -----

  lemma CapIs(cfg: Config, cls: AdmissionClass, n: nat)
    ensures Capped(cfg, cls, n) <==> cfg.Cap(cls) == Some(n)
    ensures Uncapped(cfg, cls) <==> cfg.Cap(cls).None?
  {
  }

  /** A root of a capped class queues in its scope, and is the only kind to. */
  lemma RootQueues(s: Sys, past: seq<Step>, id: TaskId, cls: AdmissionClass, first: Option<ResourceId>, n: nat)
    requires DriversFrom(s, past) && Capped(s.cfg, cls, n) && id in s.drivers
    ensures RootOf(past, id, cls, first) <==> s.drivers[id].ticket.queued && s.drivers[id].ticket.scope == Scope(cls, first)
  {
    CapIs(s.cfg, cls, n);
    assert DriverFrom(s.drivers[id], StartIn(past, id).value, s.cfg);
    hide StartIn, FirstOf;
  }

  lemma OccupyingHolds(d: Driver)
    requires d.ticket.queued
    ensures Occupying(d.pc) <==> Holding(d)
    ensures InLine(d.pc) <==> InQueue(d)
  {
  }

  lemma OccupantsHold(s: Sys, past: seq<Step>, cls: AdmissionClass, first: Option<ResourceId>, n: nat)
    requires DriversFrom(s, past) && Capped(s.cfg, cls, n)
    ensures Occupants(s, past, cls, first) == Holders(s.drivers, Scope(cls, first))
  {
    hide DriversFrom, RootOf, Occupying, Holding, Capped;
    forall id | id in s.drivers
      ensures id in Occupants(s, past, cls, first) <==> id in Holders(s.drivers, Scope(cls, first))
    {
      RootQueues(s, past, id, cls, first, n);
      if s.drivers[id].ticket.queued {
        OccupyingHolds(s.drivers[id]);
      } else {
        UnqueuedHoldsNone(s.drivers[id]);
      }
    }
  }

  lemma UnqueuedHoldsNone(d: Driver)
    requires !d.ticket.queued
    ensures !Holding(d) && !InQueue(d)
  {
  }

  /** Whoever is first in the queue has no one before it in line, and the other way round. */
  lemma FirstInLine(s: Sys, past: seq<Step>, id: TaskId, cls: AdmissionClass, first: Option<ResourceId>, n: nat)
    requires DriversFrom(s, past) && Fair(s) && Capped(s.cfg, cls, n) && id in s.drivers && RootOf(past, id, cls, first)
    requires InLine(s.drivers[id].pc)
    ensures First(QueueOf(s.reg, Scope(cls, first)), s.drivers[id].ticket.seq_) <==> !SomeoneBefore(s, past, id, cls, first)
  {
    var scope := Scope(cls, first);
    assert ScopeExact(s.drivers, s.cfg, s.reg, scope);
    RootQueues(s, past, id, cls, first, n);
    OccupyingHolds(s.drivers[id]);
    hide Fair, ScopeExact, RootOf, InLine, InQueue, Capped, StartIn, DriverFrom, QueueOf;
    forall other | other in s.drivers
      ensures RootOf(past, other, cls, first) && InLine(s.drivers[other].pc)
         <==> InQueue(s.drivers[other]) && s.drivers[other].ticket.scope == scope
    {
      RootQueues(s, past, other, cls, first, n);
      if s.drivers[other].ticket.queued {
        OccupyingHolds(s.drivers[other]);
      } else {
        UnqueuedHoldsNone(s.drivers[other]);
      }
    }
    assert s.drivers[id].ticket.seq_ in Waiting(s.drivers, scope);
    if other :| other in s.drivers && RootOf(past, other, cls, first) && InLine(s.drivers[other].pc)
                && StartIn(past, other).value.when < StartIn(past, id).value.when {
      assert s.drivers[other].ticket.seq_ in Waiting(s.drivers, scope);
    }
  }

  // ----- the bound -----

  /** No more roots of a capped class and one first requirement hold a place than the cap. */
  lemma AtMostCap(cfg: Config, steps: seq<Step>, cls: AdmissionClass, first: Option<ResourceId>, n: nat)
    requires Possible(Initial(cfg), steps) && Capped(cfg, cls, n)
    ensures |Occupants(Run(Initial(cfg), steps), steps, cls, first)| <= n
  {
    hide Possible, Run, Capped, Whole, InfosFrom, ResourcesFrom, DriversFrom, Holders, Occupants;
    AlwaysAsSaid(cfg, steps);
    AlwaysFair(cfg, steps);
    var s := Run(Initial(cfg), steps);
    OccupantsHold(s, steps, cls, first, n);
    CapIs(cfg, cls, n);
    assert ScopeExact(s.drivers, s.cfg, s.reg, Scope(cls, first));
  }

  // ----- the order -----

  lemma {:induction false} AdmissionsGrow(s: Sys, steps: seq<Step>, id: TaskId)
    requires Possible(s, steps) && id in s.drivers && s.drivers[id].ticket.queued
    requires Lifecycle.FoundAdmit(s, steps, id) || s.drivers[id].ticket in s.admissions
    ensures s.drivers[id].ticket in Run(s, steps).admissions
    decreases |steps|
  {
    hide Next, Enabled, Lifecycle.Admits;
    if steps != [] {
      TicketStays(s, steps[0], id);
      if Lifecycle.Admits(s, steps[0], id) || s.drivers[id].ticket in s.admissions {
        AdmissionGrows(s, steps[0], id);
      }
      AdmissionsGrow(Next(s, steps[0]), steps[1..], id);
    }
  }

  lemma TicketStays(s: Sys, step: Step, id: TaskId)
    requires Enabled(s, step) && id in s.drivers
    ensures id in Next(s, step).drivers && Next(s, step).drivers[id].ticket == s.drivers[id].ticket
  {
    hide Next, Enabled, Mover;
    OthersStay(s, step);
  }

  lemma AdmissionGrows(s: Sys, step: Step, id: TaskId)
    requires Enabled(s, step) && id in s.drivers && s.drivers[id].ticket.queued
    requires Lifecycle.Admits(s, step, id) || s.drivers[id].ticket in s.admissions
    ensures s.drivers[id].ticket in Next(s, step).admissions
  {
    if step.TryAdmit? {
      hide AdmissionOf;
    } else {
      AdmissionsStay(s, step);
      hide Next, Enabled, Decision;
    }
  }

  lemma AdmissionsStay(s: Sys, step: Step)
    requires Enabled(s, step) && !step.TryAdmit?
    ensures Next(s, step).admissions == s.admissions
  {
    hide Next, Enabled;
    if KeepsPlaces(s, step) {
      PlacesKept(s, step);
    } else if Starts(step) {
      StarterStarts(s, step);
    } else {
      AdmissionsLeft(s, step);
    }
  }

  lemma AdmissionsLeft(s: Sys, step: Step)
    requires Enabled(s, step) && (step.LeaveQueue? || step.GiveBack?)
    ensures Next(s, step).admissions == s.admissions
  {
    hide Dequeued, SlotGivenBack;
  }

  /** A driver started later is one in a longer past. */
  lemma {:induction false} FoundFrom(s: Sys, steps: seq<Step>, id: TaskId)
    requires Possible(s, steps) && Lifecycle.FoundAdmit(s, steps, id) && id in Run(s, steps).drivers
    requires Run(s, steps).drivers[id].ticket.queued
    ensures Run(s, steps).drivers[id].ticket in Run(s, steps).admissions
    decreases |steps|
  {
    hide Next, Enabled;
    if steps != [] {
      if Lifecycle.Admits(s, steps[0], id) {
        TicketKept(s, steps, id);
        AdmissionsGrow(s, steps, id);
      } else {
        FoundFrom(Next(s, steps[0]), steps[1..], id);
      }
    }
  }

  lemma {:induction false} TicketKept(s: Sys, steps: seq<Step>, id: TaskId)
    requires Possible(s, steps) && id in s.drivers
    ensures id in Run(s, steps).drivers && Run(s, steps).drivers[id].ticket == s.drivers[id].ticket
    decreases |steps|
  {
    hide Next, Enabled;
    if steps != [] {
      TicketStays(s, steps[0], id);
      TicketKept(Next(s, steps[0]), steps[1..], id);
    }
  }

  lemma HadPlace(pc: Pc, found: bool, ran: bool)
    requires Lifecycle.RanFits(pc, found, ran) && (Occupying(pc) || ran)
    ensures found
  {
  }

  /**
    Once one of the roots of a capped class and one first requirement has a place, or has run, none of them submitted before
    it is still in line: it has had its place, or was turned away.
  */
  lemma InTurn(cfg: Config, steps: seq<Step>, cls: AdmissionClass, first: Option<ResourceId>, n: nat, before: TaskId, id: TaskId)
    requires Possible(Initial(cfg), steps) && Capped(cfg, cls, n)
    requires RootOf(steps, before, cls, first) && RootOf(steps, id, cls, first)
    requires StartIn(steps, before).value.when < StartIn(steps, id).value.when
    ensures var s := Run(Initial(cfg), steps);
            && before in s.drivers && id in s.drivers
            && (Occupying(s.drivers[id].pc) || Running in StatesOf(s.log, id) ==> !InLine(s.drivers[before].pc))
  {
    hide Possible, Run, Capped, Whole, InfosFrom, ResourcesFrom, StatesOf, Lifecycle.RanFits, Lifecycle.FoundAdmit,
         RootOf, Fair, DriverFrom, StartIn, InLine, Occupying;
    AlwaysAsSaid(cfg, steps);
    AlwaysFair(cfg, steps);
    Lifecycle.RanFromStart(cfg, steps, id);
    var s := Run(Initial(cfg), steps);
    RootStarted(steps, before, cls, first);
    RootStarted(steps, id, cls, first);
    if Occupying(s.drivers[id].pc) || Running in StatesOf(s.log, id) {
      HadPlace(s.drivers[id].pc, Lifecycle.FoundAdmit(Initial(cfg), steps, id), Running in StatesOf(s.log, id));
      RootQueues(s, steps, id, cls, first, n);
      RootQueues(s, steps, before, cls, first, n);
      FoundFrom(Initial(cfg), steps, id);
      OccupyingHolds(s.drivers[before]);
      OrderedBefore(s, before, id);
    }
  }

  lemma RootStarted(past: seq<Step>, id: TaskId, cls: AdmissionClass, first: Option<ResourceId>)
    requires RootOf(past, id, cls, first)
    ensures StartIn(past, id).Some?
  {
  }

  lemma OrderedBefore(s: Sys, before: TaskId, id: TaskId)
    requires Fair(s) && before in s.drivers && id in s.drivers && s.drivers[id].ticket in s.admissions
    requires s.drivers[before].ticket.scope == s.drivers[id].ticket.scope
    requires s.drivers[before].ticket.seq_ < s.drivers[id].ticket.seq_
    ensures !InQueue(s.drivers[before])
  {
    var ticket, number := s.drivers[id].ticket, s.drivers[before].ticket.seq_;
    assert ScopeExact(s.drivers, s.cfg, s.reg, ticket.scope);
    hide InQueue, QueueOf;
    assert InQueue(s.drivers[before]) ==> number in Waiting(s.drivers, ticket.scope);
    AdmittedBeforeQueued(s.admissions, s.reg, ticket, number);
  }

  lemma AdmittedBeforeQueued(admissions: seq<Ticket>, r: Registry, ticket: Ticket, number: nat)
    requires InOrder(admissions, r) && ticket in admissions
    ensures number in QueueOf(r, ticket.scope) ==> ticket.seq_ < number
  {
    hide QueueOf;
  }

  // ----- one check -----

  ghost predicate AllReady(past: seq<Step>, requires_: seq<ResourceId>) {
    forall k :: 0 <= k < |requires_| ==> ResourceIn(past, requires_[k]) == Some(Ready)
  }

  /** The requirement a check comes to that is not ready. */
  ghost predicate FirstUnready(past: seq<Step>, requires_: seq<ResourceId>, k: nat) {
    && k < |requires_| && ResourceIn(past, requires_[k]) != Some(Ready)
    && forall j :: 0 <= j < k ==> ResourceIn(past, requires_[j]) == Some(Ready)
  }

  lemma {:induction false} RequirementsMean(r: Registry, past: seq<Step>, requires_: seq<ResourceId>)
    requires forall resource :: ResourceOf(r, resource) == ResourceIn(past, resource)
    ensures AllReady(past, requires_) <==> Requirements(r, requires_) == Admit
    ensures forall k: nat :: FirstUnready(past, requires_, k) ==>
              Requirements(r, requires_)
              == match ResourceIn(past, requires_[k])
                 case None => Refuse("a resource this task requires does not exist")
                 case Some(Gone) => Refuse("a resource this task requires is gone")
                 case _ => Wait(Some(requires_[k]))
    decreases |requires_|
  {
    hide ResourceIn;
    if requires_ != [] {
      var rest := requires_[1..];
      assert forall k :: 0 < k < |requires_| ==> requires_[k] == rest[k - 1];
      RequirementsMean(r, past, rest);
      if ResourceIn(past, requires_[0]) == Some(Ready) {
        assert AllReady(past, requires_) <==> AllReady(past, rest);
        forall k: nat | FirstUnready(past, requires_, k)
          ensures FirstUnready(past, rest, k - 1) && k > 0 && requires_[k] == rest[k - 1]
        {
          assert forall j :: 0 <= j < k - 1 ==> requires_[j + 1] == rest[j];
        }
      } else {
        assert forall k: nat :: FirstUnready(past, requires_, k) ==> k == 0;
      }
      assert ResourceOf(r, requires_[0]) == ResourceIn(past, requires_[0]);
    }
  }

  /** Where a driver goes from its check. */
  predicate GoesFrom(pc: Pc, queued: bool, decision: Admission) {
    match decision
    case Admit => pc == if queued then AtAdmitNotify else AtLaunch
    case Wait(on) => pc == AtQueue(on)
    case Refuse(error) => pc == if queued then AtLeave(Failed(error)) else AtSettle(Failed(error))
  }

  lemma CheckGoesFrom(s: Sys, id: TaskId)
    requires Enabled(s, TryAdmit(id))
    ensures id in s.drivers && s.drivers[id].pc == AtCheck && id in Next(s, TryAdmit(id)).drivers
    ensures GoesFrom(Next(s, TryAdmit(id)).drivers[id].pc, s.drivers[id].ticket.queued, Decision(s, id))
  {
    hide AdmissionOf;
  }

  /** There is a place, and no one before in line for it. */
  ghost predicate HasTurn(s: Sys, past: seq<Step>, id: TaskId, n: nat)
    requires StartIn(past, id).Some?
  {
    var start := StartIn(past, id).value;
    var first := FirstOf(start.requires_);
    |Occupants(s, past, start.cls, first)| < n && !SomeoneBefore(s, past, id, start.cls, first)
  }

  lemma DecisionMeans(s: Sys, past: seq<Step>, id: TaskId, n: nat)
    requires Recorded(s, past) && Fair(s) && id in s.drivers && s.drivers[id].pc == AtCheck && Capped(s.cfg, StartIn(past, id).value.cls, n)
    requires StartIn(past, id).Some? && StartIn(past, id).value.parent.None?
    ensures var start := StartIn(past, id).value;
            s.drivers[id].ticket.queued
            && Decision(s, id) == (if Requirements(s.reg, start.requires_) != Admit then Requirements(s.reg, start.requires_)
                                   else if HasTurn(s, past, id, n) then Admit else Wait(None))
  {
    var start := StartIn(past, id).value;
    var first := FirstOf(start.requires_);
    var scope := Scope(start.cls, first);
    assert DriverFrom(s.drivers[id], start, s.cfg);
    assert ScopeExact(s.drivers, s.cfg, s.reg, scope);
    CapIs(s.cfg, start.cls, n);
    OccupantsHold(s, past, start.cls, first, n);
    FirstInLine(s, past, id, start.cls, first, n);
    hide StartIn, Occupants, SomeoneBefore, Holders, QueueOf, First, AdmittedTo, Capped, Fair, Recorded, Requirements, ScopeExact;
    assert AdmittedTo(s.reg, scope) == |Holders(s.drivers, scope)|;
  }

  /** What is left once everything a task requires is ready: a root of a capped class waits for a place unless it has its turn. */
  ghost predicate WaitsForPlace(s: Sys, past: seq<Step>, id: TaskId)
    requires StartIn(past, id).Some?
  {
    var start := StartIn(past, id).value;
    start.parent.None? && exists n: nat :: Capped(s.cfg, start.cls, n) && !HasTurn(s, past, id, n)
  }

  lemma DecisionOf(s: Sys, past: seq<Step>, id: TaskId)
    requires Recorded(s, past) && Fair(s) && id in s.drivers && s.drivers[id].pc == AtCheck
    ensures StartIn(past, id).Some?
    ensures var start := StartIn(past, id).value;
            Decision(s, id) == (if Requirements(s.reg, start.requires_) != Admit then Requirements(s.reg, start.requires_)
                                else if WaitsForPlace(s, past, id) then Wait(None) else Admit)
    ensures var start := StartIn(past, id).value;
            s.drivers[id].ticket.queued <==> start.parent.None? && !Uncapped(s.cfg, start.cls)
  {
    hide Fair, InfosFrom, ResourcesFrom, StartIn, HasTurn, Requirements, First, QueueOf;
    var start := StartIn(past, id).value;
    assert DriverFrom(s.drivers[id], start, s.cfg);
    if start.parent.None? && s.cfg.Cap(start.cls).Some? {
      var n := s.cfg.Cap(start.cls).value;
      CapIs(s.cfg, start.cls, n);
      DecisionMeans(s, past, id, n);
      OneCap(s.cfg, start.cls, n);
    } else {
      NoCap(s.cfg, start.cls);
    }
  }

  lemma OneCap(cfg: Config, cls: AdmissionClass, n: nat)
    requires Capped(cfg, cls, n)
    ensures !Uncapped(cfg, cls) && forall m: nat :: Capped(cfg, cls, m) ==> m == n
  {
  }

  lemma NoCap(cfg: Config, cls: AdmissionClass)
    ensures Uncapped(cfg, cls) <==> cfg.Cap(cls).None?
    ensures Uncapped(cfg, cls) ==> forall m: nat :: !Capped(cfg, cls, m)
  {
  }

  /**
    What a check finds, in every reachable state. A task all of whose requirements are ready goes on, unless it is a root of
    a capped class and every place is taken by roots of its class and first requirement, or one of them submitted before
    it is still in line; a child, and a root of an uncapped class, never waits for a place. Otherwise the first
    requirement not ready decides: one on its way is waited for, one gone or unknown refuses the task.
  */
  lemma CheckExactly(cfg: Config, steps: seq<Step>, id: TaskId)
    requires Possible(Initial(cfg), steps) && Enabled(Run(Initial(cfg), steps), TryAdmit(id))
    ensures StartIn(steps, id).Some?
    ensures var s, start := Run(Initial(cfg), steps), StartIn(steps, id).value;
            && id in Next(s, TryAdmit(id)).drivers
            && var pc := Next(s, TryAdmit(id)).drivers[id].pc;
               && (Occupying(pc) <==> AllReady(steps, start.requires_) && !WaitsForPlace(s, steps, id))
               && (pc == AtQueue(None) <==> AllReady(steps, start.requires_) && WaitsForPlace(s, steps, id))
               && forall k: nat :: FirstUnready(steps, start.requires_, k) ==>
                    match ResourceIn(steps, start.requires_[k])
                    case None => Refusal(pc, "a resource this task requires does not exist")
                    case Some(Gone) => Refusal(pc, "a resource this task requires is gone")
                    case _ => pc == AtQueue(Some(start.requires_[k]))
  {
    hide Possible, Run, Whole, Next, Enabled, Decision, Fair, DriversFrom, InfosFrom, StartIn, WaitsForPlace, Requirements, ResourceIn,
         AllReady, FirstUnready;
    var s := Run(Initial(cfg), steps);
    AlwaysAsSaid(cfg, steps);
    AlwaysFair(cfg, steps);
    CheckGoesFrom(s, id);
    DecisionOf(s, steps, id);
    RequirementsMean(s.reg, steps, StartIn(steps, id).value.requires_);
    NeverOnNone(s.reg, StartIn(steps, id).value.requires_);
  }

  predicate Refusal(pc: Pc, error: string) {
    pc == AtLeave(Failed(error)) || pc == AtSettle(Failed(error))
  }

  /** What is waited for among the requirements is one of them. */
  lemma {:induction false} NeverOnNone(r: Registry, requires_: seq<ResourceId>)
    ensures Requirements(r, requires_) != Wait(None)
  {
    if requires_ != [] {
      NeverOnNone(r, requires_[1..]);
    }
  }

  /** A task that goes to sleep shows what its check found it waits for, and tells of it when it did not show it already. */
  lemma WaitShown(s: Sys, id: TaskId)
    requires Whole(s) && Enabled(s, NoteQueued(id))
    ensures id in s.drivers && s.drivers[id].pc.AtQueue? && id in s.reg.tasks
    ensures var t, on := Next(s, NoteQueued(id)), s.drivers[id].pc.on;
            && id in t.reg.tasks && t.reg.tasks[id].info.state == Queued(on)
            && t.log == s.log + if s.reg.tasks[id].info.state == Queued(on) then [] else [StateChanged(id, Queued(on))]
  {
    MoverRetained(s, NoteQueued(id));
    hide Whole;
  }
}
