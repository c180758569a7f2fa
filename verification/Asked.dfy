/** Who is cancelled, and who is not: only what someone asked to cancel, and what is below it. */
module Asked {
  import opened Wrappers
  import opened Registry
  import opened Scheduler
  import opened Steps
  import opened Eviction
  import opened Family
  import opened Published
  import opened Lifecycle
  import opened Cancellation
  import opened Record

  // ----- one step -----

  /** The tasks whose own tokens a step cancels. */
  ghost function Newly(s: Sys, step: Step): set<TaskId> {
    match step
    case Cancel(id) => if Unsettled(s.reg, id) then {id} else {}
    case CancelAll => set id | id in s.reg.tasks && Unsettled(s.reg, id)
    case FinishCheck(id) => if id in s.reg.tasks then Live(s.reg.tasks, id) else {}
    case _ => {}
  }

  lemma RequestsNewly(s: Sys, step: Step)
    requires Whole(s) && Enabled(s, step)
    ensures Next(s, step).requested == s.requested + Newly(s, step)
  {
    hide Whole, Framed, Next, Enabled;
    if step.FinishCheck? {
      FinishRequests(s, step);
    } else if step.Cancel? || step.CancelAll? {
      CancelsNewly(s, step);
    } else {
      RequestsNone(s, step);
    }
  }

  lemma CancelsNewly(s: Sys, step: Step)
    requires Enabled(s, step) && (step.Cancel? || step.CancelAll?)
    ensures Next(s, step).requested == s.requested + Newly(s, step)
  {
    hide Unsettled;
    assert UnsettledIds(s.reg) == set id | id in s.reg.tasks && Unsettled(s.reg, id);
  }

  lemma FinishRequests(s: Sys, step: Step)
    requires Whole(s) && Enabled(s, step) && step.FinishCheck?
    ensures Next(s, step).requested == s.requested + Newly(s, step)
  {
    var id := step.id;
    if id in s.reg.tasks {
      CountedLive(s, id);
      LiveIs(s, id);
    }
    hide Whole, LiveChildren, Live;
  }

  lemma CountedLive(s: Sys, id: TaskId)
    requires Whole(s) && id in s.reg.tasks
    ensures s.reg.tasks[id].liveChildren == |Live(s.reg.tasks, id)|
  {
    hide Fits, Linked, EndedLast;
  }

  lemma LiveIs(s: Sys, id: TaskId)
    requires id in s.reg.tasks
    ensures LiveChildren(s.reg, id) == Live(s.reg.tasks, id)
  {
  }

  lemma RequestsNone(s: Sys, step: Step)
    requires Enabled(s, step) && !step.FinishCheck? && !step.Cancel? && !step.CancelAll?
    ensures Next(s, step).requested == s.requested
  {
    hide Next, Enabled, Framed;
    Frames(s, step);
    if Decides(step) {
      RequestsKept(s, step);
    } else if step.IdleStart? || step.IdleEnable? || step.IdleLook? || step.IdleWake? {
      IdleRequests(s, step);
    } else {
      RequestsFramed(Next(s, step), s, step);
    }
  }

  lemma RequestsFramed(t: Sys, s: Sys, step: Step)
    requires Framed(t, s, step) && !Decides(step) && !step.Cancel? && !step.CancelAll?
    requires !step.IdleStart? && !step.IdleEnable? && !step.IdleLook? && !step.IdleWake?
    ensures t.requested == s.requested
  {
  }

  lemma RequestsKept(s: Sys, step: Step)
    requires Enabled(s, step) && Decides(step) && !step.FinishCheck?
    ensures Next(s, step).requested == s.requested
  {
    hide AdmissionOf;
  }

  lemma IdleRequests(s: Sys, step: Step)
    requires Enabled(s, step) && (step.IdleStart? || step.IdleEnable? || step.IdleLook? || step.IdleWake?)
    ensures Next(s, step).requested == s.requested
  {
    hide Busy;
  }

  /** What a step asks to be cancelled of a task there already: itself, or one above it. */
  ghost predicate CancelledBy(s: Sys, step: Step, id: TaskId)
    requires Linked(s.reg.tasks)
  {
    match step
    case Cancel(above) => Unsettled(s.reg, above) && Descends(s.reg.tasks, above, id)
    case CancelAll => exists above :: above in s.reg.tasks && Unsettled(s.reg, above) && Descends(s.reg.tasks, above, id)
    case FinishCheck(parent) =>
      parent in s.reg.tasks
      && exists child :: child in s.reg.tasks[parent].children && Unsettled(s.reg, child) && Descends(s.reg.tasks, child, id)
    case _ => false
  }

  /** The tasks a step cancels are those it says, everything below them, and no other. */
  lemma CancelsExactly(s: Sys, step: Step, id: TaskId)
    requires Whole(s) && Lineaged(s) && Enabled(s, step) && id in s.reg.tasks
    ensures Linked(s.reg.tasks)
    ensures IsCancelled(Next(s, step), id) <==> IsCancelled(s, id) || CancelledBy(s, step, id)
  {
    hide Whole, Lineaged, Next, Enabled, CancelledBy, Linked, Newly;
    WholeLinked(s);
    RequestsNewly(s, step);
    TokensOf(s, step, id);
    NewlyBelow(s, step, id);
  }

  lemma TokensOf(s: Sys, step: Step, id: TaskId)
    requires Whole(s) && Lineaged(s) && Enabled(s, step) && id in s.reg.tasks
    ensures id in s.lineage && id in Next(s, step).lineage && Next(s, step).lineage[id] == s.lineage[id]
  {
    hide Whole, Next, Enabled, LineagedAt;
    RetainedDriven(s, id);
    TokensStep(s, step);
    if Starts(step) {
      StarterNew(s, step);
    }
  }

  lemma NewlyBelow(s: Sys, step: Step, id: TaskId)
    requires Whole(s) && Lineaged(s) && id in s.reg.tasks && id in s.lineage && Linked(s.reg.tasks)
    ensures s.lineage[id] * Newly(s, step) != {} <==> CancelledBy(s, step, id)
  {
    hide Whole, Lineaged, Linked, Descends;
    forall above
      ensures above in s.lineage[id] <==> Descends(s.reg.tasks, above, id)
    {
      TokensAbove(s, above, id);
    }
    if above :| above in s.lineage[id] * Newly(s, step) {
      assert Descends(s.reg.tasks, above, id);
    }
    if CancelledBy(s, step, id) {
      var above := CancellerOf(s, step, id);
      assert above in s.lineage[id] * Newly(s, step);
    }
  }

  lemma TokensAbove(s: Sys, above: TaskId, id: TaskId)
    requires Whole(s) && Lineaged(s) && id in s.reg.tasks && id in s.lineage && Linked(s.reg.tasks)
    ensures above in s.lineage[id] <==> Descends(s.reg.tasks, above, id)
  {
    assert forall other :: other in s.reg.tasks ==> other in s.lineage;
    hide Whole, Lineaged, Linked;
    LineageExact(s, above, id);
  }

  lemma CancellerOf(s: Sys, step: Step, id: TaskId) returns (above: TaskId)
    requires Whole(s) && Linked(s.reg.tasks) && CancelledBy(s, step, id)
    ensures above in Newly(s, step) && Descends(s.reg.tasks, above, id)
  {
    hide Whole, Descends;
    match step
    case Cancel(a) => above := a;
    case CancelAll =>
      above :| above in s.reg.tasks && Unsettled(s.reg, above) && Descends(s.reg.tasks, above, id);
    case FinishCheck(parent) =>
      above :| above in s.reg.tasks[parent].children && Unsettled(s.reg, above) && Descends(s.reg.tasks, above, id);
  }

  // ----- whole runs -----

  /** One task is another, or was started by a body below it. */
  ghost predicate Above(past: seq<Step>, above: TaskId, id: TaskId)
    decreases |past|
  {
    var start := StartIn(past, id);
    && start.Some?
    && (above == id || (start.value.parent.Some? && Above(past[..start.value.when], above, start.value.parent.value)))
  }

  /** A task was asked to be cancelled: by name, with everything there was, or by its parent's finishing. */
  ghost predicate AskedFor(past: seq<Step>, id: TaskId) {
    exists k :: 0 <= k < |past| && Asks(past, k, id)
  }

  ghost predicate Asks(past: seq<Step>, k: nat, id: TaskId)
    requires k < |past|
  {
    match past[k]
    case Cancel(asked) => asked == id
    case CancelAll => StartIn(past[..k], id).Some?
    case FinishCheck(parent) => StartIn(past[..k], id).Some? && StartIn(past[..k], id).value.parent == Some(parent)
    case _ => false
  }

  ghost predicate TokensFrom(s: Sys, past: seq<Step>) {
    && (forall id, above :: id in s.lineage ==> (above in s.lineage[id] <==> Above(past, above, id)))
    && (forall id :: id in s.requested ==> id in s.drivers && AskedFor(past, id))
  }

  lemma AboveLater(past: seq<Step>, step: Step, above: TaskId, id: TaskId)
    requires !(Starts(step) && step.id == id)
    ensures Above(past + [step], above, id) == Above(past, above, id)
  {
    StartLater(past, step, id);
    var start := StartIn(past, id);
    if start.Some? {
      assert (past + [step])[..start.value.when] == past[..start.value.when];
    }
    hide StartIn;
  }

  lemma AboveNew(past: seq<Step>, step: Step, above: TaskId)
    requires Starts(step)
    ensures Above(past + [step], above, step.id)
       <==> above == step.id || (step.Spawn? && Above(past, above, step.parent))
  {
    StartLater(past, step, step.id);
    assert (past + [step])[..|past|] == past;
    hide StartIn;
  }

  lemma AskedLater(past: seq<Step>, step: Step, id: TaskId)
    requires AskedFor(past, id)
    ensures AskedFor(past + [step], id)
  {
    hide StartIn;
    var k :| 0 <= k < |past| && Asks(past, k, id);
    assert (past + [step])[..k] == past[..k] && (past + [step])[k] == past[k];
    assert Asks(past + [step], k, id);
  }

  lemma NewlyAsked(s: Sys, past: seq<Step>, step: Step, id: TaskId)
    requires Whole(s) && Recorded(s, past) && id in Newly(s, step)
    ensures id in s.drivers && AskedFor(past + [step], id)
  {
    hide Whole, StartIn, DriverFrom, ResourcesFrom;
    var now := past + [step];
    assert now[..|past|] == past && now[|past|] == step;
    NewlyRetained(s, step, id);
    RetainedDriven(s, id);
    assert InfoFrom(s.reg.tasks[id].info, id, past);
    assert Asks(now, |past|, id);
  }

  lemma NewlyRetained(s: Sys, step: Step, id: TaskId)
    requires Whole(s) && id in Newly(s, step)
    ensures id in s.reg.tasks
    ensures step.FinishCheck? ==> s.reg.tasks[id].info.parent == Some(step.id)
  {
    hide Fits, Counted, EndedLast, RootsExact, Below;
  }

  lemma NextTokensFrom(s: Sys, past: seq<Step>, step: Step)
    requires Whole(s) && Lineaged(s) && Recorded(s, past) && TokensFrom(s, past) && Enabled(s, step)
    ensures TokensFrom(Next(s, step), past + [step])
  {
    var t := Next(s, step);
    hide *;
    forall id, above | id in t.lineage
      ensures above in t.lineage[id] <==> Above(past + [step], above, id)
    {
      LineageFrom(s, past, step, id, above);
    }
    forall id | id in t.requested
      ensures id in t.drivers && AskedFor(past + [step], id)
    {
      RequestFrom(s, past, step, id);
    }
    TokensAre(t, past + [step]);
  }

  lemma TokensAre(s: Sys, past: seq<Step>)
    requires forall id, above :: id in s.lineage ==> (above in s.lineage[id] <==> Above(past, above, id))
    requires forall id :: id in s.requested ==> id in s.drivers && AskedFor(past, id)
    ensures TokensFrom(s, past)
  {
    hide Above, AskedFor;
  }

  lemma RequestFrom(s: Sys, past: seq<Step>, step: Step, id: TaskId)
    requires Whole(s) && Recorded(s, past) && TokensFrom(s, past) && Enabled(s, step) && id in Next(s, step).requested
    ensures id in Next(s, step).drivers && AskedFor(past + [step], id)
  {
    hide Whole, Recorded, Next, Enabled, Above, AskedFor, Newly;
    RequestsNewly(s, step);
    if id in s.requested {
      AskedLater(past, step, id);
    } else {
      NewlyAsked(s, past, step, id);
    }
    NextDrivers(s, step, id);
  }

  lemma LineageFrom(s: Sys, past: seq<Step>, step: Step, id: TaskId, above: TaskId)
    requires Lineaged(s) && TokensFrom(s, past) && Enabled(s, step) && id in Next(s, step).lineage
    ensures above in Next(s, step).lineage[id] <==> Above(past + [step], above, id)
  {
    hide Next, Enabled, Above, AskedFor, LineagedAt;
    TokensStep(s, step);
    if Starts(step) && step.id == id {
      AboveNew(past, step, above);
      ParentDriven(s, step);
    } else {
      AboveLater(past, step, above, id);
    }
  }

  lemma ParentDriven(s: Sys, step: Step)
    requires Enabled(s, step) && Starts(step)
    ensures step.Spawn? ==> step.parent in s.drivers
  {
  }

  ghost predicate AllSaid(s: Sys, past: seq<Step>) {
    Whole(s) && Lineaged(s) && Recorded(s, past) && TokensFrom(s, past)
  }

  lemma NextAllSaid(s: Sys, past: seq<Step>, step: Step)
    requires AllSaid(s, past) && Enabled(s, step)
    ensures AllSaid(Next(s, step), past + [step])
  {
    hide Whole, Lineaged, Recorded, TokensFrom, Next, Enabled;
    NextRecorded(s, past, step);
    NextLineaged(s, step);
    NextTokensFrom(s, past, step);
  }

  lemma {:induction false} RunAllSaid(s: Sys, past: seq<Step>, steps: seq<Step>)
    requires AllSaid(s, past) && Possible(s, steps)
    ensures AllSaid(Run(s, steps), past + steps)
    decreases |steps|
  {
    hide AllSaid, Next, Enabled;
    if steps == [] {
      assert past + [] == past;
    } else {
      NextAllSaid(s, past, steps[0]);
      RunAllSaid(Next(s, steps[0]), past + [steps[0]], steps[1..]);
      assert past + [steps[0]] + steps[1..] == past + steps;
    }
  }

  lemma InitialSaid(cfg: Config)
    ensures AllSaid(Initial(cfg), [])
  {
  }

  lemma AlwaysAllSaid(cfg: Config, steps: seq<Step>)
    requires Possible(Initial(cfg), steps)
    ensures AllSaid(Run(Initial(cfg), steps), steps)
  {
    hide *;
    InitialSaid(cfg);
    RunAllSaid(Initial(cfg), [], steps);
    assert [] + steps == steps;
  }

  /** Whoever is cancelled was asked to be, or a task above it was: by name, with everything, or by a parent finishing. */
  lemma CancelledOnlyIfAsked(cfg: Config, steps: seq<Step>, id: TaskId)
    requires Possible(Initial(cfg), steps) && IsCancelled(Run(Initial(cfg), steps), id)
    ensures exists above :: Above(steps, above, id) && AskedFor(steps, above)
  {
    hide Possible, Run, Whole, Lineaged, Recorded, Above, AskedFor;
    AlwaysAllSaid(cfg, steps);
    var s := Run(Initial(cfg), steps);
    var above :| above in s.lineage[id] * s.requested;
    assert Above(steps, above, id) && AskedFor(steps, above);
  }

  // ----- what is shown as cancelled -----

  /** A place its task is only at because it is cancelled. */
  predicate OnCancel(pc: Pc) {
    || pc.AtCancelling? || pc.InCancelledBody?
    || ((pc.AtLeave? || pc.AtLeaveNotify? || pc.AtSettle?) && pc.outcome.Cancelled?)
  }

  ghost predicate ShowsCancelled(s: Sys, id: TaskId) {
    Cancelling in StatesOf(s.log, id) || Cancelled in StatesOf(s.log, id)
  }

  ghost predicate CancelTrue(s: Sys, id: TaskId) {
    && (id in s.drivers && OnCancel(s.drivers[id].pc) ==> IsCancelled(s, id))
    && (ShowsCancelled(s, id) ==> IsCancelled(s, id))
  }

  lemma OnCancelMoves(step: Step, was: Driver, now: Driver)
    requires Places(step, was.pc) && Goes(step, was, now) && Mover(step).Some? && !Starts(step)
    ensures OnCancel(now.pc) ==> OnCancel(was.pc) || step.WakeCancelled? || step.SeeCancel? || (step.Conclude? && step.outcome.Cancelled?)
  {
  }

  lemma CancelSeen(s: Sys, step: Step)
    requires Enabled(s, step)
    ensures step.WakeCancelled? || step.SeeCancel? || (step.Conclude? && step.outcome.Cancelled?) ==>
              Mover(step) == Some(step.id) && IsCancelled(s, step.id)
  {
    hide IsCancelled;
  }

  lemma NextOnCancel(s: Sys, step: Step, id: TaskId)
    requires Enabled(s, step) && CancelTrue(s, id) && id in Next(s, step).drivers && OnCancel(Next(s, step).drivers[id].pc)
    ensures IsCancelled(s, id) && (Starts(step) ==> step.id != id)
  {
    hide Next, Enabled, Places, Goes, Mover, OnCancel, IsCancelled, ShowsCancelled, Untouched;
    DriverStep(s, step, id);
    CancelSeen(s, step);
    EntersUncancelled();
    MoverNamed(step);
    if id in s.drivers {
      if Mover(step) == Some(id) {
        OnCancelMoves(step, s.drivers[id], Next(s, step).drivers[id]);
      } else {
        UntouchedStays(s.drivers[id], Next(s, step).drivers[id]);
      }
    }
  }

  lemma EntersUncancelled()
    ensures !OnCancel(AtEnter)
  {
  }

  lemma {:induction false} ShownBy(log: seq<TaskEvent>, id: TaskId, state: TaskState)
    requires state in StatesOf(log, id)
    ensures exists event :: event in log && event.TaskOf() == id && StateIn(event) == Some(state)
  {
    var n := |log| - 1;
    if state in StatesOf(log[..n], id) {
      ShownBy(log[..n], id, state);
      var event :| event in log[..n] && event.TaskOf() == id && StateIn(event) == Some(state);
      assert event in log;
    } else {
      assert log[n] in log;
    }
  }

  /** What shows a task cancelling or cancelled is its own driver, at a place for it. */
  ghost predicate CancelEvent(s: Sys, event: TaskEvent) {
    StateIn(event) == Some(Cancelling) || StateIn(event) == Some(Cancelled) ==>
      event.TaskOf() in s.drivers && OnCancel(s.drivers[event.TaskOf()].pc)
  }

  lemma NextCancelEvents(s: Sys, step: Step) returns (events: seq<TaskEvent>)
    requires Whole(s) && Enabled(s, step)
    ensures Next(s, step).log == s.log + events
    ensures forall event :: event in events ==> CancelEvent(s, event)
  {
    events := NextCaused(s, step);
    hide Whole, Next, Enabled, EndsLast;
    forall event | event in events
      ensures CancelEvent(s, event)
    {
      CausedCancel(s, step, event);
    }
  }

  lemma CausedCancel(s: Sys, step: Step, event: TaskEvent)
    requires Caused(s, step, event)
    ensures CancelEvent(s, event)
  {
  }

  lemma NextCancelTrue(s: Sys, step: Step, id: TaskId)
    requires Whole(s) && Enabled(s, step) && CancelTrue(s, id) && (ShowsCancelled(s, id) ==> id in s.drivers)
    ensures CancelTrue(Next(s, step), id) && (ShowsCancelled(Next(s, step), id) ==> id in Next(s, step).drivers)
  {
    hide Whole, Next, Enabled, OnCancel, IsCancelled, TokensAfter, StatesOf;
    var t := Next(s, step);
    var events := NextCancelEvents(s, step);
    StatesConcat(s.log, events, id);
    TokensStep(s, step);
    NextDrivers(s, step, id);
    if Starts(step) { StarterNew(s, step); }
    if id in t.drivers && OnCancel(t.drivers[id].pc) {
      NextOnCancel(s, step, id);
      CancelledStays(s, t, step, id);
    }
    if ShowsCancelled(t, id) {
      NewlyShown(s, events, id);
      CancelledStays(s, t, step, id);
    }
  }

  lemma NewlyShown(s: Sys, events: seq<TaskEvent>, id: TaskId)
    requires CancelTrue(s, id) && (ShowsCancelled(s, id) ==> id in s.drivers)
    requires forall event :: event in events ==> CancelEvent(s, event)
    requires ShowsCancelled(s, id) || Cancelling in StatesOf(events, id) || Cancelled in StatesOf(events, id)
    ensures id in s.drivers && IsCancelled(s, id)
  {
    hide StatesOf, OnCancel, IsCancelled;
    if !ShowsCancelled(s, id) {
      var state := if Cancelling in StatesOf(events, id) then Cancelling else Cancelled;
      ShownBy(events, id, state);
      var event :| event in events && event.TaskOf() == id && StateIn(event) == Some(state);
      assert CancelEvent(s, event);
    }
  }

  lemma {:induction false} RunCancelTrue(s: Sys, steps: seq<Step>, id: TaskId)
    requires Whole(s) && Possible(s, steps) && CancelTrue(s, id) && (ShowsCancelled(s, id) ==> id in s.drivers)
    ensures CancelTrue(Run(s, steps), id)
    decreases |steps|
  {
    hide Whole, Next, Enabled, CancelTrue, ShowsCancelled;
    if steps != [] {
      NextCancelTrue(s, steps[0], id);
      NextWhole(s, steps[0]);
      RunCancelTrue(Next(s, steps[0]), steps[1..], id);
    }
  }

  /** No run shows a task cancelling or cancelled that is not, and so none that nobody asked to cancel, above it or by itself. */
  lemma ShownOnlyIfAsked(cfg: Config, steps: seq<Step>, id: TaskId)
    requires Possible(Initial(cfg), steps)
    ensures var log := Run(Initial(cfg), steps).log;
            Cancelling in StatesOf(log, id) || Cancelled in StatesOf(log, id) ==>
              exists above :: Above(steps, above, id) && AskedFor(steps, above)
  {
    assert Whole(Initial(cfg)) && CancelTrue(Initial(cfg), id) && !ShowsCancelled(Initial(cfg), id);
    hide Possible, Run, Whole, IsCancelled, Above, AskedFor, StatesOf;
    RunCancelTrue(Initial(cfg), steps, id);
    if IsCancelled(Run(Initial(cfg), steps), id) {
      CancelledOnlyIfAsked(cfg, steps, id);
    }
  }
}
