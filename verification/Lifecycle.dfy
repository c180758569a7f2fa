/** The states one task goes through, over whole runs. */
module Lifecycle {
  import opened Wrappers
  import Throttle
  import opened Registry
  import opened Scheduler
  import opened Steps
  import opened Eviction
  import opened Family
  import opened Published

  /** Queued first, then each state one that may follow the one before it. */
  ghost predicate Ordered(states: seq<TaskState>) {
    && (states != [] ==> states[0] == Queued(None))
    && forall k :: 0 < k < |states| ==> MayFollow(states[k - 1], states[k])
  }

  function Rank(state: TaskState): nat {
    match state
    case Queued(_) => 0
    case Running => 1
    case Cancelling => 2
    case _ => 3
  }

  /** What such a history means: it never goes back, stays only while queued, and has nothing after an end. */
  lemma {:induction false} OrderedMeans(states: seq<TaskState>, i: nat, j: nat)
    requires Ordered(states) && i < j < |states|
    ensures Rank(states[i]) <= Rank(states[j]) && (!states[i].Queued? ==> Rank(states[i]) < Rank(states[j]))
    ensures !states[i].Terminal()
    decreases j
  {
    assert MayFollow(states[j - 1], states[j]);
    if i < j - 1 {
      OrderedMeans(states, i, j - 1);
    }
  }

  lemma OrderedSnoc(states: seq<TaskState>, state: TaskState)
    requires Ordered(states)
    requires if states == [] then state == Queued(None) else MayFollow(states[|states| - 1], state)
    ensures Ordered(states + [state])
  {
  }

  /** What the log shows of a task, against the state its entry holds, if it has one, and whether it has a driver. */
  ghost predicate HistoryOf(states: seq<TaskState>, held: Option<TaskState>, driven: bool) {
    && Ordered(states)
    && (states != [] <==> driven)
    && (held.Some? ==> states != [] && states[|states| - 1] == held.value)
    && (driven && held.None? ==> states[|states| - 1].Terminal())
  }

  function StateHeld(s: Sys, id: TaskId): Option<TaskState> {
    if id in s.reg.tasks then Some(s.reg.tasks[id].info.state) else None
  }

  ghost predicate HistoryAt(s: Sys, id: TaskId) {
    HistoryOf(StatesOf(s.log, id), StateHeld(s, id), id in s.drivers)
  }

  ghost predicate History(s: Sys) {
    forall id :: HistoryAt(s, id)
  }

  lemma SettledForever(s: Sys, step: Step, id: TaskId)
    requires Enabled(s, step) && id in s.drivers && HasSettled(s.drivers[id].pc)
    ensures id in Next(s, step).drivers && HasSettled(Next(s, step).drivers[id].pc)
  {
    hide Next, Enabled, Places, Goes, Mover, HasSettled, Untouched;
    DriverStep(s, step, id);
    if Mover(step) == Some(id) {
      SettledStays(step, s.drivers[id], Next(s, step).drivers[id]);
    } else {
      UntouchedStays(s.drivers[id], Next(s, step).drivers[id]);
    }
  }

  /** A task not retained before a step and not new with it is not retained after it. */
  lemma NeverReturns(s: Sys, step: Step, id: TaskId)
    requires Whole(s) && Enabled(s, step) && Whole(Next(s, step))
    requires id in s.drivers && id !in s.reg.tasks && id in Next(s, step).reg.tasks
    ensures Next(s, step).reg.tasks[id].info.state.Terminal()
  {
    SettledForever(s, step, id);
    hide Next, Enabled, Fits;
    EndedHasSettled(Next(s, step).drivers[id].pc, Next(s, step).reg.tasks[id]);
  }

  /** What a step's events say, and of the task it settles. */
  ghost predicate Account(s: Sys, step: Step, events: seq<TaskEvent>)
    requires Enabled(s, step)
  {
    && Told(Next(s, step), s, events)
    && OnlyLaunchRuns(step, events)
    && (step.SettleTask? ==>
          s.drivers[step.id].pc.AtSettle? && StatesOf(events, step.id) == [s.drivers[step.id].pc.outcome])
  }

  /** A task that stops being retained had settled, or settles with this step. */
  lemma GoneSettled(s: Sys, step: Step, events: seq<TaskEvent>, id: TaskId)
    requires Whole(s) && Enabled(s, step) && Account(s, step, events)
    requires id in s.reg.tasks && id !in Next(s, step).reg.tasks
    ensures s.reg.tasks[id].info.state.Terminal()
         || (StatesOf(events, id) != [] && StatesOf(events, id)[0].Terminal())
  {
    hide Next, Enabled, Whole, StatesOf, OnlyLaunchRuns, ToldAt;
    if step.SettleTask? {
      SettlesTrimming(s, step);
    } else {
      RetainedStays(s, step, id);
    }
  }

  lemma RetainedStays(s: Sys, step: Step, id: TaskId)
    requires Whole(s) && Enabled(s, step) && !step.SettleTask? && id in s.reg.tasks
    ensures id in Next(s, step).reg.tasks
  {
    if Starts(step) {
      StartFitting(s, step);
    } else if WritesInfo(step) {
      InfoWritten(s, step);
    } else {
      TasksKept(s, step);
    }
    hide Next, Enabled, Whole;
  }

  /** A driver's first step puts its task in the registry. */
  lemma NewRetained(s: Sys, step: Step, id: TaskId)
    requires Enabled(s, step) && Whole(Next(s, step)) && id !in s.drivers && id in Next(s, step).drivers
    ensures id in Next(s, step).reg.tasks
  {
    OthersStay(s, step);
    if Starts(step) {
      StarterStarts(s, step);
    }
    hide Next, Enabled;
  }

  lemma RetainedDriven(s: Sys, id: TaskId)
    requires Whole(s) && id in s.reg.tasks
    ensures id in s.drivers
  {
  }

  /** What may become of a task and its driver in one step. */
  ghost predicate FateAt(t: Sys, s: Sys, events: seq<TaskEvent>, id: TaskId) {
    && (id in s.reg.tasks ==> id in s.drivers)
    && (id in s.drivers ==> id in t.drivers)
    && (id in t.reg.tasks ==> id in t.drivers)
    && (id in t.drivers && id !in s.drivers ==> id in t.reg.tasks)
    && (id in s.drivers && id !in s.reg.tasks && id in t.reg.tasks ==> t.reg.tasks[id].info.state.Terminal())
    && (id in s.reg.tasks && id !in t.reg.tasks ==>
          s.reg.tasks[id].info.state.Terminal() || (StatesOf(events, id) != [] && StatesOf(events, id)[0].Terminal()))
  }

  lemma NextFate(s: Sys, step: Step, events: seq<TaskEvent>, id: TaskId)
    requires Whole(s) && Enabled(s, step) && Whole(Next(s, step)) && Account(s, step, events)
    ensures FateAt(Next(s, step), s, events, id)
  {
    var t := Next(s, step);
    if id in s.reg.tasks {
      RetainedDriven(s, id);
      if id !in t.reg.tasks {
        GoneSettled(s, step, events, id);
      }
    }
    if id in t.reg.tasks {
      RetainedDriven(t, id);
    }
    NextDrivers(s, step, id);
    if id in t.drivers && id !in s.drivers {
      NewRetained(s, step, id);
    }
    if id in s.drivers && id !in s.reg.tasks && id in t.reg.tasks {
      NeverReturns(s, step, id);
    }
    hide Next, Enabled, Whole, Account, StatesOf;
  }

  lemma NextDrivers(s: Sys, step: Step, id: TaskId)
    requires Enabled(s, step)
    ensures id in s.drivers ==> id in Next(s, step).drivers
  {
    OthersStay(s, step);
    hide Next, Enabled;
  }

  lemma HistoryMoves(s: Sys, t: Sys, events: seq<TaskEvent>, id: TaskId)
    requires HistoryAt(s, id) && FateAt(t, s, events, id)
    requires t.log == s.log + events && ToldAt(t.reg.tasks, s.reg.tasks, events, id)
    ensures HistoryAt(t, id)
  {
    StatesConcat(s.log, events, id);
    hide StatesOf, Tells, HistoryOf;
    HistoryGrows(StatesOf(s.log, id), StatesOf(events, id), StateHeld(s, id), StateHeld(t, id), id in s.drivers, id in t.drivers);
  }

  lemma HistoryGrows(states: seq<TaskState>, more: seq<TaskState>, held: Option<TaskState>, now: Option<TaskState>,
                     driven: bool, drivenNow: bool)
    requires HistoryOf(states, held, driven) && |more| <= 1
    requires more == [] && now.Some? ==> now == held
    requires more != [] ==> now.Some? ==> now.value == more[0]
    requires more != [] ==> if held.Some? then MayFollow(held.value, more[0]) else now.Some? && more[0] == Queued(None)
    requires (held.Some? ==> driven) && (driven ==> drivenNow) && (now.Some? ==> drivenNow)
    requires drivenNow && !driven ==> now.Some?
    requires driven && held.None? && now.Some? ==> now.value.Terminal()
    requires held.Some? && now.None? ==> held.value.Terminal() || (more != [] && more[0].Terminal())
    ensures HistoryOf(states + more, now, drivenNow)
  {
    if more == [] {
      assert states + more == states;
    } else {
      assert states + more == states + [more[0]];
      if held.Some? {
        OrderedSnoc(states, more[0]);
        NoneAfterEnd(held.value, more[0]);
      } else {
        assert states == [];
      }
    }
    hide Ordered, MayFollow;
  }

  lemma NoneAfterEnd(was: TaskState, now: TaskState)
    requires MayFollow(was, now)
    ensures !was.Terminal()
  {
  }

  lemma NextHistory(s: Sys, step: Step)
    requires Whole(s) && History(s) && Enabled(s, step)
    ensures Whole(Next(s, step)) && History(Next(s, step))
  {
    NextWhole(s, step);
    var events := NextTold(s, step);
    assert Account(s, step, events);
    hide Next, Enabled, Whole, HistoryAt, FateAt, ToldAt, MayFollow;
    forall id
      ensures HistoryAt(Next(s, step), id)
    {
      assert HistoryAt(s, id);
      NextFate(s, step, events, id);
      HistoryMoves(s, Next(s, step), events, id);
    }
  }

  lemma {:induction false} RunHistory(s: Sys, steps: seq<Step>)
    requires Whole(s) && History(s) && Possible(s, steps)
    ensures Whole(Run(s, steps)) && History(Run(s, steps))
    decreases |steps|
  {
    hide Whole, History, Next, Enabled;
    if steps != [] {
      NextHistory(s, steps[0]);
      RunHistory(Next(s, steps[0]), steps[1..]);
    }
  }

  /** No state comes back, none but a queued one lasts, and nothing follows an end. */
  ghost predicate Forward(states: seq<TaskState>) {
    forall i, j :: 0 <= i < j < |states| ==>
      && !states[i].Terminal()
      && Rank(states[i]) <= Rank(states[j])
      && (!states[i].Queued? ==> Rank(states[i]) < Rank(states[j]))
  }

  /**
    Every task's history is queued states, then perhaps running, then perhaps cancelling, then at most one end and nothing
    after it; and its registry entry, if it is retained, stands where the history does.
  */
  lemma AlwaysForward(cfg: Config, steps: seq<Step>, id: TaskId)
    requires Possible(Initial(cfg), steps)
    ensures var t := Run(Initial(cfg), steps);
            && Forward(StatesOf(t.log, id))
            && HistoryAt(t, id)
  {
    assert Whole(Initial(cfg)) && History(Initial(cfg));
    RunHistory(Initial(cfg), steps);
    hide Whole, Run, Possible, StatesOf;
    var t := Run(Initial(cfg), steps);
    var states := StatesOf(t.log, id);
    assert HistoryAt(t, id);
    forall i, j | 0 <= i < j < |states|
      ensures !states[i].Terminal() && Rank(states[i]) <= Rank(states[j])
      ensures !states[i].Queued? ==> Rank(states[i]) < Rank(states[j])
    {
      OrderedMeans(states, i, j);
    }
  }

  // ----- who runs -----

  /** Some check of the task in the run found it could be admitted. */
  ghost predicate FoundAdmit(s: Sys, steps: seq<Step>, id: TaskId)
    requires Possible(s, steps)
    decreases |steps|
  {
    steps != [] && (Admits(s, steps[0], id) || FoundAdmit(Next(s, steps[0]), steps[1..], id))
  }

  ghost predicate Admits(s: Sys, step: Step, id: TaskId) {
    step == TryAdmit(id) && id in s.drivers && Decision(s, id) == Admit
  }

  /** Where a driver is, whether a check admitted its task, and whether its task has run. */
  predicate RanFits(pc: Pc, found: bool, ran: bool) {
    if pc.AtAdmitNotify? || pc.AtLaunch? then found && !ran
    else if BeforeBody(pc) then !found && !ran
    else if pc.AtSettle? || HasSettled(pc) then found == ran
    else found && ran
  }

  ghost predicate RanAt(s: Sys, id: TaskId, found: bool) {
    var ran := Running in StatesOf(s.log, id);
    if id in s.drivers then RanFits(s.drivers[id].pc, found, ran) else !found && !ran
  }

  lemma CheckedWhere(s: Sys, step: Step, id: TaskId)
    requires Enabled(s, step) && step == TryAdmit(id)
    ensures id in s.drivers && id in Next(s, step).drivers
    ensures Admits(s, step, id) <==> Next(s, step).drivers[id].pc.AtAdmitNotify? || Next(s, step).drivers[id].pc.AtLaunch?
  {
    hide AdmissionOf;
  }

  lemma RanMoves(step: Step, was: Driver, now: Driver, found: bool, ran: bool, admits: bool, launched: bool)
    requires RanFits(was.pc, found, ran) && Mover(step).Some? && !Starts(step)
    requires Places(step, was.pc) && Goes(step, was, now)
    requires launched <==> step.Launch?
    requires admits <==> step.TryAdmit? && (now.pc.AtAdmitNotify? || now.pc.AtLaunch?)
    ensures RanFits(now.pc, found || admits, ran || launched)
  {
  }

  lemma NextRan(s: Sys, step: Step, id: TaskId, found: bool)
    requires Whole(s) && Enabled(s, step) && RanAt(s, id, found)
    ensures RanAt(Next(s, step), id, found || Admits(s, step, id))
  {
    hide Next, Enabled, Whole, Places, Goes, Mover, Decision, ToldAt, StatesOf, RanFits, Untouched;
    var t := Next(s, step);
    var events := NextTold(s, step);
    StatesConcat(s.log, events, id);
    DriverStep(s, step, id);
    EnabledPlace(s, step);
    if step == TryAdmit(id) {
      CheckedWhere(s, step, id);
    }
    MoverNamed(step);
    if id in s.drivers {
      if Mover(step) == Some(id) {
        RanMoves(step, s.drivers[id], t.drivers[id], found, Running in StatesOf(s.log, id), Admits(s, step, id), step == Launch(id));
      } else {
        UntouchedStays(s.drivers[id], t.drivers[id]);
      }
    } else {
      assert id in t.drivers ==> RanFits(AtEnter, false, false) by { EntersUnran(); }
    }
  }

  lemma EntersUnran()
    ensures RanFits(AtEnter, false, false)
  {
  }

  lemma {:induction false} RunRan(s: Sys, steps: seq<Step>, id: TaskId, found: bool)
    requires Whole(s) && Possible(s, steps) && RanAt(s, id, found)
    ensures RanAt(Run(s, steps), id, found || FoundAdmit(s, steps, id))
    decreases |steps|
  {
    hide Whole, RanAt, Next, Enabled, Admits;
    if steps != [] {
      NextRan(s, steps[0], id, found);
      NextWhole(s, steps[0]);
      RunRan(Next(s, steps[0]), steps[1..], id, found || Admits(s, steps[0], id));
    }
  }

  /** A settled task had run exactly when some check of it found it could be admitted, cancelled or not. */
  lemma RanExactly(cfg: Config, steps: seq<Step>, id: TaskId)
    requires Possible(Initial(cfg), steps)
    requires id in Run(Initial(cfg), steps).drivers && HasSettled(Run(Initial(cfg), steps).drivers[id].pc)
    ensures Running in StatesOf(Run(Initial(cfg), steps).log, id) <==> FoundAdmit(Initial(cfg), steps, id)
  {
    hide Whole, Run, Possible, StatesOf, FoundAdmit, RanFits;
    RanFromStart(cfg, steps, id);
    RanSettled(Run(Initial(cfg), steps).drivers[id].pc, FoundAdmit(Initial(cfg), steps, id),
               Running in StatesOf(Run(Initial(cfg), steps).log, id));
  }

  /** A place from which the driver's next check is still to come. */
  predicate BeforeCheck(pc: Pc) {
    pc.AtEnter? || pc.AtCheck?
  }

  /** The first check of a task in a run, if it is checked, finds it can be admitted. */
  ghost predicate FirstCheckAdmits(s: Sys, steps: seq<Step>, id: TaskId)
    requires Possible(s, steps)
    decreases |steps|
  {
    steps != [] &&
    if steps[0] == TryAdmit(id) then Admits(s, steps[0], id) else FirstCheckAdmits(Next(s, steps[0]), steps[1..], id)
  }

  lemma CheckMoves(step: Step, was: Driver, now: Driver)
    requires Places(step, was.pc) && Goes(step, was, now) && Mover(step).Some? && !Starts(step) && !step.Wake?
    ensures BeforeCheck(now.pc) <==> BeforeCheck(was.pc) && !step.TryAdmit?
    ensures step.TryAdmit? ==> BeforeCheck(was.pc)
  {
  }

  lemma NextChecks(s: Sys, step: Step, id: TaskId)
    requires Enabled(s, step) && id in s.drivers && step != Wake(id)
    ensures id in Next(s, step).drivers
    ensures BeforeCheck(Next(s, step).drivers[id].pc) <==> BeforeCheck(s.drivers[id].pc) && step != TryAdmit(id)
    ensures step == TryAdmit(id) ==> BeforeCheck(s.drivers[id].pc)
  {
    hide Next, Enabled, Places, Goes, Mover, BeforeCheck, Untouched;
    DriverStep(s, step, id);
    MoverNamed(step);
    if Mover(step) == Some(id) {
      WakerNamed(step, id);
      CheckMoves(step, s.drivers[id], Next(s, step).drivers[id]);
    } else {
      UntouchedStays(s.drivers[id], Next(s, step).drivers[id]);
    }
  }

  lemma WakerNamed(step: Step, id: TaskId)
    requires Mover(step) == Some(id)
    ensures step.Wake? ==> step == Wake(id)
    ensures step.TryAdmit? ==> step == TryAdmit(id)
  {
  }

  /** A driver that is not woken is checked at most once more, and not at all once past its check. */
  lemma {:induction false} ChecksOnce(s: Sys, steps: seq<Step>, id: TaskId)
    requires Possible(s, steps) && id in s.drivers
    requires forall k :: 0 <= k < |steps| ==> steps[k] != Wake(id)
    ensures FoundAdmit(s, steps, id) <==> BeforeCheck(s.drivers[id].pc) && FirstCheckAdmits(s, steps, id)
    decreases |steps|
  {
    hide Next, Enabled, BeforeCheck, Admits;
    if steps != [] {
      assert steps[0] != Wake(id);
      NextChecks(s, steps[0], id);
      ChecksOnce(Next(s, steps[0]), steps[1..], id);
      AdmitsByCheck(s, steps[0], id);
    }
  }

  lemma AdmitsByCheck(s: Sys, step: Step, id: TaskId)
    ensures Admits(s, step, id) ==> step == TryAdmit(id)
  {
  }

  /**
    A task cancelled before it has run, and not woken by a notification afterwards, has run by the time it settles exactly
    when it already had a place when it was cancelled, or had its check still before it and that check finds it can be
    admitted.
  */
  lemma CancelledRunsExactly(cfg: Config, before: seq<Step>, id: TaskId, after: seq<Step>)
    requires Possible(Initial(cfg), before) && Possible(Next(Run(Initial(cfg), before), Cancel(id)), after)
    requires forall k :: 0 <= k < |after| ==> after[k] != Wake(id)
    requires id in Run(Initial(cfg), before).drivers && Running !in StatesOf(Run(Initial(cfg), before).log, id)
    requires var end := Run(Next(Run(Initial(cfg), before), Cancel(id)), after);
             id in end.drivers && HasSettled(end.drivers[id].pc)
    ensures var s := Run(Initial(cfg), before);
            var t := Next(s, Cancel(id));
            var pc := s.drivers[id].pc;
            Running in StatesOf(Run(t, after).log, id)
            <==> pc.AtAdmitNotify? || pc.AtLaunch? || (BeforeCheck(pc) && FirstCheckAdmits(t, after, id))
  {
    hide Whole, Possible, Run, Next, Enabled, StatesOf, FoundAdmit, RanFits, RootsSettled, LastOf, FirstCheckAdmits, BeforeCheck;
    var s := Run(Initial(cfg), before);
    var found := FoundAdmit(Initial(cfg), before, id);
    RanFromStart(cfg, before, id);
    AlwaysWhole(cfg, before);
    CancelOnlyAsks(s, id);
    var t := Next(s, Cancel(id));
    NextWhole(s, Cancel(id));
    RunRan(t, after, id, found);
    ChecksOnce(t, after, id);
    UnranFound(s.drivers[id].pc, found);
    RanSettled(Run(t, after).drivers[id].pc, found || FoundAdmit(t, after, id), Running in StatesOf(Run(t, after).log, id));
  }

  lemma RanFromStart(cfg: Config, steps: seq<Step>, id: TaskId)
    requires Possible(Initial(cfg), steps)
    ensures RanAt(Run(Initial(cfg), steps), id, FoundAdmit(Initial(cfg), steps, id))
  {
    assert Whole(Initial(cfg)) && RanAt(Initial(cfg), id, false);
    hide *;
    RunRan(Initial(cfg), steps, id, false);
  }

  lemma CancelOnlyAsks(s: Sys, id: TaskId)
    ensures Enabled(s, Cancel(id)) && Next(s, Cancel(id)) == s.(requested := Next(s, Cancel(id)).requested)
  {
  }

  lemma UnranFound(pc: Pc, found: bool)
    requires RanFits(pc, found, false)
    ensures found <==> pc.AtAdmitNotify? || pc.AtLaunch?
    ensures found ==> !BeforeCheck(pc)
  {
  }

  lemma RanSettled(pc: Pc, found: bool, ran: bool)
    requires RanFits(pc, found, ran) && HasSettled(pc)
    ensures found == ran
  {
  }

  // ----- refused, or cancelled while asleep -----

  /** Turned away with an outcome: on its way to settling with it, never having run, or settled with it. */
  ghost predicate TurnedAway(pc: Pc, outcome: TaskState, states: seq<TaskState>) {
    && Running !in states
    && if HasSettled(pc) then states != [] && states[|states| - 1] == outcome
       else pc == AtLeave(outcome) || pc == AtLeaveNotify(outcome) || pc == AtSettle(outcome)
  }

  ghost predicate GaveUp(s: Sys, id: TaskId, outcome: TaskState) {
    id in s.drivers && TurnedAway(s.drivers[id].pc, outcome, StatesOf(s.log, id))
  }

  lemma TurnedAwayMoves(step: Step, was: Driver, now: Driver, outcome: TaskState, states: seq<TaskState>, more: seq<TaskState>)
    requires TurnedAway(was.pc, outcome, states) && Mover(step).Some? && Places(step, was.pc) && Goes(step, was, now) && !Starts(step)
    requires step.SettleTask? ==> was.pc.AtSettle? && more == [was.pc.outcome]
    requires HasSettled(was.pc) ==> more == []
    requires Running in more ==> step.Launch?
    ensures TurnedAway(now.pc, outcome, states + more)
  {
    assert states + [] == states;
    assert outcome != Running || !step.SettleTask?;
  }

  lemma NothingAfterEnd(states: seq<TaskState>, more: seq<TaskState>)
    requires Ordered(states + more) && states != [] && states[|states| - 1].Terminal()
    ensures more == []
  {
    if more != [] {
      OrderedMeans(states + more, |states| - 1, |states|);
      assert false;
    }
  }

  lemma NextGaveUp(s: Sys, step: Step, id: TaskId, outcome: TaskState)
    requires Whole(s) && History(s) && Enabled(s, step) && GaveUp(s, id, outcome) && outcome.Terminal()
    ensures GaveUp(Next(s, step), id, outcome)
  {
    var events := NextTold(s, step);
    DriverStep(s, step, id);
    NextHistory(s, step);
    assert HistoryAt(Next(s, step), id);
    hide Next, Enabled, Whole, GaveUp, DriverAfter, OnlyLaunchRuns, HistoryAt, ToldAt, StatesOf;
    GaveUpMoves(s, Next(s, step), step, events, id, outcome);
  }

  lemma GaveUpMoves(s: Sys, t: Sys, step: Step, events: seq<TaskEvent>, id: TaskId, outcome: TaskState)
    requires GaveUp(s, id, outcome) && outcome.Terminal() && DriverAfter(t, s, step, id) && HistoryAt(t, id)
    requires t.log == s.log + events && OnlyLaunchRuns(step, events)
    requires step.SettleTask? ==>
               step.id in s.drivers && s.drivers[step.id].pc.AtSettle? && StatesOf(events, step.id) == [s.drivers[step.id].pc.outcome]
    ensures GaveUp(t, id, outcome)
  {
    StatesConcat(s.log, events, id);
    MoverNamed(step);
    var states, more := StatesOf(s.log, id), StatesOf(events, id);
    hide Places, Goes, Mover, StatesOf, Untouched, Ordered;
    if HasSettled(s.drivers[id].pc) {
      NothingAfterEnd(states, more);
      assert states + more == states;
    }
    if Mover(step) == Some(id) {
      TurnedAwayMoves(step, s.drivers[id], t.drivers[id], outcome, states, more);
    } else {
      UntouchedStays(s.drivers[id], t.drivers[id]);
      assert step != Launch(id);
    }
  }

  /** Once turned away, a task never runs, and settles with that outcome and no other. */
  lemma {:induction false} RunGaveUp(s: Sys, steps: seq<Step>, id: TaskId, outcome: TaskState)
    requires Whole(s) && History(s) && Possible(s, steps) && GaveUp(s, id, outcome) && outcome.Terminal()
    ensures GaveUp(Run(s, steps), id, outcome)
    decreases |steps|
  {
    hide Whole, History, GaveUp, Next, Enabled;
    if steps != [] {
      NextGaveUp(s, steps[0], id, outcome);
      NextHistory(s, steps[0]);
      RunGaveUp(Next(s, steps[0]), steps[1..], id, outcome);
    }
  }

  /** A task asleep in its admission wait has only ever been queued. */
  lemma AsleepUnran(s: Sys, id: TaskId)
    requires Whole(s) && History(s) && id in s.drivers && s.drivers[id].pc.Asleep?
    ensures Running !in StatesOf(s.log, id)
  {
    var states := StatesOf(s.log, id);
    assert HistoryAt(s, id);
    assert states[|states| - 1].Queued?;
    hide StatesOf, Whole, MayFollow;
    if Running in states {
      var i :| 0 <= i < |states| && states[i] == Running;
      assert i != |states| - 1;
      OrderedMeans(states, i, |states| - 1);
    }
  }

  lemma CancelledWaits(s: Sys, id: TaskId)
    requires Enabled(s, WakeCancelled(id))
    ensures id in s.drivers && s.drivers[id].pc.Asleep?
  {
  }

  lemma CancelledGivesUp(s: Sys, id: TaskId)
    requires Enabled(s, WakeCancelled(id)) && Running !in StatesOf(s.log, id)
    ensures GaveUp(Next(s, WakeCancelled(id)), id, Cancelled)
  {
    hide StatesOf;
  }

  /** The admission wait ended by cancellation: whatever happens next, the task never runs, and it can only settle cancelled. */
  lemma CancelledWaitNeverRuns(s: Sys, id: TaskId, steps: seq<Step>)
    requires Whole(s) && History(s) && Enabled(s, WakeCancelled(id)) && Possible(Next(s, WakeCancelled(id)), steps)
    ensures GaveUp(Run(Next(s, WakeCancelled(id)), steps), id, Cancelled)
  {
    hide Next, Enabled, Whole, History, GaveUp, StatesOf;
    CancelledWaits(s, id);
    AsleepUnran(s, id);
    NextHistory(s, WakeCancelled(id));
    CancelledGivesUp(s, id);
    RunGaveUp(Next(s, WakeCancelled(id)), steps, id, Cancelled);
  }

  ghost predicate AsleepOrGone(s: Sys, id: TaskId) {
    id in s.drivers && Running !in StatesOf(s.log, id) && (s.drivers[id].pc.Asleep? || GaveUp(s, id, Cancelled))
  }

  lemma AsleepMoves(s: Sys, t: Sys, step: Step, events: seq<TaskEvent>, id: TaskId)
    requires id in s.drivers && s.drivers[id].pc.Asleep? && Running !in StatesOf(s.log, id)
    requires DriverAfter(t, s, step, id) && step != Wake(id)
    requires t.log == s.log + events && OnlyLaunchRuns(step, events)
    ensures AsleepOrGone(t, id)
  {
    StatesConcat(s.log, events, id);
    MoverNamed(step);
    hide StatesOf, Untouched;
    assert Running !in StatesOf(events, id) || step == Launch(id);
    if Mover(step) != Some(id) {
      UntouchedStays(s.drivers[id], t.drivers[id]);
    }
  }

  lemma NextAsleep(s: Sys, step: Step, id: TaskId)
    requires Whole(s) && History(s) && Enabled(s, step) && AsleepOrGone(s, id) && step != Wake(id)
    ensures AsleepOrGone(Next(s, step), id)
  {
    var events := NextTold(s, step);
    DriverStep(s, step, id);
    if s.drivers[id].pc.Asleep? {
      hide Next, Enabled, Whole, History, DriverAfter, OnlyLaunchRuns, ToldAt, StatesOf;
      AsleepMoves(s, Next(s, step), step, events, id);
    } else {
      hide Next, Enabled, Whole, History, DriverAfter, OnlyLaunchRuns, ToldAt, StatesOf;
      NextGaveUp(s, step, id, Cancelled);
    }
  }

  /**
    A task asleep in its admission wait that is not woken by a notification never runs: if it settles, it settles
    cancelled.
  */
  lemma {:induction false} AsleepUnlessWoken(s: Sys, steps: seq<Step>, id: TaskId)
    requires Whole(s) && History(s) && Possible(s, steps) && AsleepOrGone(s, id)
    requires forall k :: 0 <= k < |steps| ==> steps[k] != Wake(id)
    ensures AsleepOrGone(Run(s, steps), id)
    decreases |steps|
  {
    hide Whole, History, AsleepOrGone, Next, Enabled;
    if steps != [] {
      assert steps[0] != Wake(id);
      NextAsleep(s, steps[0], id);
      NextHistory(s, steps[0]);
      AsleepUnlessWoken(Next(s, steps[0]), steps[1..], id);
    }
  }

  /** A root nothing holds back, cancelled, at a place with a history. */
  ghost predicate Alone(s: Sys, pc: Pc, states: seq<TaskState>) {
    && 0 in s.drivers && s.drivers[0].pc == pc && !s.drivers[0].ticket.queued && s.drivers[0].requires_ == []
    && 0 in s.reg.tasks && s.reg.tasks[0].liveChildren == 0 && s.reg.tasks[0].throttle == Throttle.FRESH
    && IsCancelled(s, 0) && StatesOf(s.log, 0) == states
  }

  /** How such a root's body goes: whether it is told of the cancellation, and how it ends. */
  datatype Course = Course(told: bool, outcome: TaskState)

  /** Where such a root goes. */
  function Onward(pc: Pc, course: Course): (Step, Pc, seq<TaskState>) {
    match pc
    case AtEnter => (Enable(0), AtCheck, [])
    case AtCheck => (TryAdmit(0), AtLaunch, [])
    case AtLaunch => (Launch(0), InBody, [Running])
    case InBody => if course.told then (SeeCancel(0), AtCancelling, []) else (BodyEnds(0), AtGiveBack, [])
    case AtCancelling => (NoteCancelling(0), InCancelledBody, [Cancelling])
    case InCancelledBody => (BodyEnds(0), AtGiveBack, [])
    case AtGiveBack => (GiveBack(0), AtFinishEnter, [])
    case AtFinishEnter => (FinishEnable(0), AtFinishCheck, [])
    case AtFinishCheck => (FinishCheck(0), AtOutcome, [])
    case AtOutcome => (Conclude(0, course.outcome), AtSettle(course.outcome), [])
    case _ => (Enable(0), pc, [])
  }

  lemma AloneGoes(s: Sys, pc: Pc, course: Course, states: seq<TaskState>)
    requires Alone(s, pc, states) && Onward(pc, course).1 != pc && course.outcome.Terminal()
    ensures var (step, now, shown) := Onward(pc, course); Enabled(s, step) && Alone(Next(s, step), now, states + shown)
  {
    hide Next, Enabled, StatesOf, Alone, Framed, OnlyMoves, Decides;
    AloneEnabled(s, pc, course, states);
    if pc.AtLaunch? {
      AloneTells(s, pc, states, Launch(0), Running);
    } else if pc.AtCancelling? {
      AloneTells(s, pc, states, NoteCancelling(0), Cancelling);
    } else {
      var (step, now, _) := Onward(pc, course);
      Frames(s, step);
      AlonePlace(s, pc, course, states);
      AloneStays(s, Next(s, step), step, pc, now, states);
      assert states + [] == states;
    }
  }

  lemma AloneEnabled(s: Sys, pc: Pc, course: Course, states: seq<TaskState>)
    requires Alone(s, pc, states) && Onward(pc, course).1 != pc && course.outcome.Terminal()
    ensures Enabled(s, Onward(pc, course).0)
  {
    hide StatesOf;
  }

  lemma AloneStays(s: Sys, t: Sys, step: Step, pc: Pc, now: Pc, states: seq<TaskState>)
    requires Alone(s, pc, states) && Framed(t, s, step) && (OnlyMoves(step) || Decides(step))
    requires 0 in t.drivers && t.drivers[0] == s.drivers[0].(pc := now, armed := t.drivers[0].armed)
    ensures Alone(t, now, states)
  {
    hide StatesOf, OnlyMoves, Decides;
  }

  lemma AlonePlace(s: Sys, pc: Pc, course: Course, states: seq<TaskState>)
    requires Alone(s, pc, states) && Onward(pc, course).1 != pc && !pc.AtLaunch? && !pc.AtCancelling?
    requires Enabled(s, Onward(pc, course).0)
    ensures 0 in s.drivers
    ensures var (step, now, _) := Onward(pc, course);
            && (OnlyMoves(step) || Decides(step))
            && 0 in Next(s, step).drivers && Next(s, step).drivers[0] == s.drivers[0].(pc := now, armed := Next(s, step).drivers[0].armed)
  {
    hide StatesOf, LiveChildren, IsCancelled;
  }

  lemma AloneTells(s: Sys, pc: Pc, states: seq<TaskState>, step: Step, state: TaskState)
    requires Alone(s, pc, states) && Enabled(s, step)
    requires (step == Launch(0) && state == Running) || (step == NoteCancelling(0) && state == Cancelling)
    ensures Alone(Next(s, step), if step.Launch? then InBody else InCancelledBody, states + [state])
  {
    var events := [StateChanged(0, state)];
    assert Next(s, step).log == s.log + events;
    StatesConcat(s.log, events, 0);
    StatesOne(events[0], 0);
    hide StatesOf;
  }

  lemma AloneSettles(s: Sys, outcome: TaskState, states: seq<TaskState>)
    requires Alone(s, AtSettle(outcome), states)
    ensures Enabled(s, SettleTask(0, 0))
    ensures var t := Next(s, SettleTask(0, 0));
            0 in t.drivers && t.drivers[0].pc == AtSettleNotify && StatesOf(t.log, 0) == states + [outcome]
  {
    var events := [StateChanged(0, outcome)];
    assert Next(s, SettleTask(0, 0)).log == s.log + events by { hide Evicted, WithoutChild; }
    StatesConcat(s.log, events, 0);
    StatesOne(events[0], 0);
    hide StatesOf, Settled;
  }

  lemma {:induction false} RunThen(s: Sys, steps: seq<Step>, step: Step)
    requires Possible(s, steps) && Enabled(Run(s, steps), step)
    ensures Possible(s, steps + [step]) && Run(s, steps + [step]) == Next(Run(s, steps), step)
    decreases |steps|
  {
    hide Next, Enabled;
    var all := steps + [step];
    if steps == [] {
      assert all == [step] && all[1..] == [];
      assert Possible(Next(s, step), []);
    } else {
      RunThen(Next(s, steps[0]), steps[1..], step);
      assert all[1..] == steps[1..] + [step];
    }
  }

  ghost predicate AloneAfter(cfg: Config, steps: seq<Step>, pc: Pc, states: seq<TaskState>) {
    Possible(Initial(cfg), steps) && Alone(Run(Initial(cfg), steps), pc, states)
  }

  lemma AloneOn(cfg: Config, steps: seq<Step>, pc: Pc, course: Course, states: seq<TaskState>)
    requires AloneAfter(cfg, steps, pc, states) && Onward(pc, course).1 != pc && course.outcome.Terminal()
    ensures var (step, now, shown) := Onward(pc, course); AloneAfter(cfg, steps + [step], now, states + shown)
  {
    hide Alone, Onward, Possible, Run, Next, Enabled;
    AloneGoes(Run(Initial(cfg), steps), pc, course, states);
    RunThen(Initial(cfg), steps, Onward(pc, course).0);
  }

  /** Submitted and cancelled before its driver's first check. */
  lemma AloneCancelled(cfg: Config)
    requires cfg.interactiveCap.None?
    ensures AloneAfter(cfg, [Submit(0, Interactive, [], 0), Cancel(0)], AtEnter, [Queued(None)])
  {
    var submit, cancel := Submit(0, Interactive, [], 0), Cancel(0);
    RootSubmitted(cfg);
    var s := Next(Initial(cfg), submit);
    RootCancelled(s);
    CancelEnabled(s);
    NothingYet(cfg);
    assert Enabled(Initial(cfg), submit);
    hide Next, Enabled, Alone, StatesOf, Initial, RootQueued, Possible, Run;
    RunThen(Initial(cfg), [], submit);
    assert [] + [submit] == [submit];
    RunThen(Initial(cfg), [submit], cancel);
    assert [submit] + [cancel] == [submit, cancel];
  }

  lemma NothingYet(cfg: Config)
    ensures Possible(Initial(cfg), []) && Run(Initial(cfg), []) == Initial(cfg)
  {
  }

  lemma CancelEnabled(s: Sys)
    ensures Enabled(s, Cancel(0))
  {
  }

  /** Just submitted, with nothing to hold it back. */
  ghost predicate RootQueued(s: Sys) {
    && 0 in s.drivers && s.drivers[0] == Driver(AtEnter, Ticket(0, Scope(Interactive, None), false), [], false)
    && 0 in s.reg.tasks && s.reg.tasks[0].liveChildren == 0 && s.reg.tasks[0].throttle == Throttle.FRESH
    && s.reg.tasks[0].info.state == Queued(None)
    && 0 in s.lineage && s.lineage[0] == {0} && StatesOf(s.log, 0) == [Queued(None)]
  }

  lemma RootSubmitted(cfg: Config)
    requires cfg.interactiveCap.None?
    ensures RootQueued(Next(Initial(cfg), Submit(0, Interactive, [], 0)))
  {
    StatesOne(Submitted(NewInfo(0, None, Interactive, 0)), 0);
    hide StatesOf;
    assert Next(Initial(cfg), Submit(0, Interactive, [], 0)).log == [Submitted(NewInfo(0, None, Interactive, 0))];
  }

  lemma RootCancelled(s: Sys)
    requires RootQueued(s)
    ensures Alone(Next(s, Cancel(0)), AtEnter, [Queued(None)])
  {
    var t := Next(s, Cancel(0));
    hide StatesOf;
    assert Unsettled(s.reg, 0);
    assert t == s.(requested := s.requested + {0});
    assert 0 in t.lineage[0] * t.requested;
  }

  /** How far from settling such a root is. */
  function Left(pc: Pc): nat {
    match pc
    case AtEnter => 10
    case AtCheck => 9
    case AtLaunch => 8
    case InBody => 7
    case AtCancelling => 6
    case InCancelledBody => 5
    case AtGiveBack => 4
    case AtFinishEnter => 3
    case AtFinishCheck => 2
    case AtOutcome => 1
    case _ => 0
  }

  /** What it has still to show before its end. */
  function StillShown(pc: Pc, course: Course): seq<TaskState> {
    (if Left(pc) >= 8 then [Running] else [])
    + (if Left(pc) == 6 || (Left(pc) >= 7 && course.told) then [Cancelling] else [])
  }

  lemma {:induction false} AloneRuns(cfg: Config, steps: seq<Step>, pc: Pc, course: Course, states: seq<TaskState>)
    returns (more: seq<Step>)
    requires AloneAfter(cfg, steps, pc, states) && course.outcome.Terminal() && (Left(pc) > 0 || pc == AtSettle(course.outcome))
    ensures AloneAfter(cfg, steps + more, AtSettle(course.outcome), states + StillShown(pc, course))
    decreases Left(pc)
  {
    hide AloneAfter;
    if Left(pc) == 0 {
      more := [];
      assert steps + [] == steps && states + [] == states;
    } else {
      var (step, now, shown) := Onward(pc, course);
      AloneOn(cfg, steps, pc, course, states);
      var rest := AloneRuns(cfg, steps + [step], now, course, states + shown);
      more := [step] + rest;
      assert steps + more == (steps + [step]) + rest;
      assert (states + shown) + StillShown(now, course) == states + (shown + StillShown(now, course));
      assert shown + StillShown(now, course) == StillShown(pc, course);
    }
  }

  lemma AloneEnds(cfg: Config, steps: seq<Step>, outcome: TaskState, states: seq<TaskState>)
    requires AloneAfter(cfg, steps, AtSettle(outcome), states)
    ensures Possible(Initial(cfg), steps + [SettleTask(0, 0)])
    ensures var t := Run(Initial(cfg), steps + [SettleTask(0, 0)]);
            0 in t.drivers && HasSettled(t.drivers[0].pc) && StatesOf(t.log, 0) == states + [outcome]
  {
    hide Possible, Run, StatesOf, Next, Enabled, Alone;
    AloneSettles(Run(Initial(cfg), steps), outcome, states);
    RunThen(Initial(cfg), steps, SettleTask(0, 0));
  }

  /**
    Cancelled while queued, and yet it runs, since it had not fallen asleep and nothing held it back; told of the
    cancellation or not, it may then succeed, fail or end as cancelled.
  */
  lemma CancelledYetRuns(cfg: Config, course: Course) returns (after: seq<Step>)
    requires cfg.interactiveCap.None? && course.outcome.Terminal()
    ensures var begun := [Submit(0, Interactive, [], 0), Cancel(0)];
            && AloneAfter(cfg, begun, AtEnter, [Queued(None)])
            && Possible(Initial(cfg), begun + after)
            && var t := Run(Initial(cfg), begun + after);
               && 0 in t.drivers && HasSettled(t.drivers[0].pc)
               && StatesOf(t.log, 0)
                  == if course.told then [Queued(None), Running, Cancelling, course.outcome]
                     else [Queued(None), Running, course.outcome]
  {
    hide Possible, Run, StatesOf, AloneAfter, HasSettled;
    var begun := [Submit(0, Interactive, [], 0), Cancel(0)];
    AloneCancelled(cfg);
    var more := AloneRuns(cfg, begun, AtEnter, course, [Queued(None)]);
    var shown := [Queued(None)] + StillShown(AtEnter, course);
    assert shown == if course.told then [Queued(None), Running, Cancelling] else [Queued(None), Running];
    AloneEnds(cfg, begun + more, course.outcome, shown);
    after := more + [SettleTask(0, 0)];
    assert begun + after == begun + more + [SettleTask(0, 0)];
  }

  // ----- nothing after the end -----

  /** No event of a task from some point of the log on. */
  ghost predicate SilentFrom(log: seq<TaskEvent>, from: nat, id: TaskId) {
    forall k :: from <= k < |log| ==> log[k].TaskOf() != id
  }

  lemma NextSilent(s: Sys, step: Step, from: nat, id: TaskId)
    requires Whole(s) && Enabled(s, step) && id in s.drivers && HasSettled(s.drivers[id].pc)
    requires from <= |s.log| && SilentFrom(s.log, from, id)
    ensures var t := Next(s, step);
            && from <= |t.log| && SilentFrom(t.log, from, id)
            && id in t.drivers && HasSettled(t.drivers[id].pc)
  {
    var events := NextUntold(s, step, id);
    SettledForever(s, step, id);
    hide *;
    SilentGrows(s.log, events, from, id);
  }

  lemma SilentGrows(log: seq<TaskEvent>, events: seq<TaskEvent>, from: nat, id: TaskId)
    requires from <= |log| && SilentFrom(log, from, id) && !Tells(events, id)
    ensures from <= |log + events| && SilentFrom(log + events, from, id)
  {
  }

  lemma NextUntold(s: Sys, step: Step, id: TaskId) returns (events: seq<TaskEvent>)
    requires Whole(s) && Enabled(s, step) && id in s.drivers && HasSettled(s.drivers[id].pc)
    ensures Next(s, step).log == s.log + events && !Tells(events, id)
  {
    events := NextTold(s, step);
    if id in s.reg.tasks {
      SettledEnded(s, id);
    } else {
      NextWhole(s, step);
      assert Account(s, step, events);
      NextFate(s, step, events, id);
    }
    hide Next, Enabled, Whole, OnlyLaunchRuns, Tells, ToldAt;
    SettledUntold(s, Next(s, step), events, id);
  }

  lemma SettledEnded(s: Sys, id: TaskId)
    requires Whole(s) && id in s.reg.tasks && id in s.drivers && HasSettled(s.drivers[id].pc)
    ensures Ended(s.reg.tasks[id])
  {
    hide Fits, Sound, RootsExact;
    EndedHasSettled(s.drivers[id].pc, s.reg.tasks[id]);
  }

  lemma SettledUntold(s: Sys, t: Sys, events: seq<TaskEvent>, id: TaskId)
    requires Told(t, s, events)
    requires if id in s.reg.tasks then Ended(s.reg.tasks[id])
             else id in t.reg.tasks ==> t.reg.tasks[id].info.state.Terminal()
    ensures !Tells(events, id)
  {
    assert ToldAt(t.reg.tasks, s.reg.tasks, events, id);
    hide StatesOf, MayFollow, Tells;
  }

  /** Once a task has settled, no event of it is ever sent again, progress included. */
  lemma {:induction false} SilentAfterEnd(s: Sys, steps: seq<Step>, from: nat, id: TaskId)
    requires Whole(s) && Possible(s, steps) && id in s.drivers && HasSettled(s.drivers[id].pc)
    requires from <= |s.log| && SilentFrom(s.log, from, id)
    ensures SilentFrom(Run(s, steps).log, from, id)
    decreases |steps|
  {
    hide Whole, Next, Enabled, HasSettled, SilentFrom;
    if steps != [] {
      NextSilent(s, steps[0], from, id);
      NextWhole(s, steps[0]);
      SilentAfterEnd(Next(s, steps[0]), steps[1..], from, id);
    }
  }

  /** What the lemmas above ask of a state holds in every reachable one. */
  lemma AlwaysRecorded(cfg: Config, steps: seq<Step>)
    requires Possible(Initial(cfg), steps)
    ensures Whole(Run(Initial(cfg), steps)) && History(Run(Initial(cfg), steps))
  {
    assert Whole(Initial(cfg)) && History(Initial(cfg));
    hide *;
    RunHistory(Initial(cfg), steps);
  }
}
