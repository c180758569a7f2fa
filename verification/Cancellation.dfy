/** Cancellation and settling reach whole subtrees, whatever is spawned meanwhile. */
module Cancellation {
  import opened Registry
  import opened Scheduler
  import opened Steps
  import opened Eviction
  import opened Family
  import opened Published
  import opened Lifecycle

  /** `id` is `above` or somewhere below it. */
  ghost predicate Descends(tasks: Tasks, above: TaskId, id: TaskId)
    requires Linked(tasks)
    decreases if id in tasks then tasks[id].seq_ else 0
  {
    && id in tasks
    && (id == above || (tasks[id].info.parent.Some? && Descends(tasks, above, tasks[id].info.parent.value)))
  }

  // ----- a settled task's subtree -----

  /** Everything below a settled task has settled. */
  lemma {:induction false} SubtreeEnded(tasks: Tasks, above: TaskId, id: TaskId)
    requires Sound(tasks) && Descends(tasks, above, id) && above in tasks && Ended(tasks[above])
    ensures Ended(tasks[id])
    decreases tasks[id].seq_
  {
    if id != above {
      var parent := tasks[id].info.parent.value;
      SubtreeEnded(tasks, above, parent);
      assert Live(tasks, parent) == {};
      assert id in Live(tasks, parent) <==> !Ended(tasks[id]);
    }
  }

  /** In every reachable state, everything below a settled task has settled. */
  lemma AlwaysSubtreeEnded(cfg: Config, steps: seq<Step>, above: TaskId, id: TaskId)
    requires Possible(Initial(cfg), steps)
    ensures var tasks := Run(Initial(cfg), steps).reg.tasks;
            && Linked(tasks)
            && (above in tasks && Ended(tasks[above]) && Descends(tasks, above, id) ==> Ended(tasks[id]))
  {
    AlwaysWhole(cfg, steps);
    hide Possible, Run, Linked, Counted, Descends, EndedLast;
    var tasks := Run(Initial(cfg), steps).reg.tasks;
    if above in tasks && Ended(tasks[above]) && Descends(tasks, above, id) {
      SubtreeEnded(tasks, above, id);
    }
  }

  // ----- tokens -----

  /** A task's token is directly below its parent's. */
  ghost predicate LineagedAt(s: Sys, id: TaskId)
    requires id in s.reg.tasks && id in s.lineage
  {
    match s.reg.tasks[id].info.parent
    case None => s.lineage[id] == {id}
    case Some(parent) => parent in s.lineage && s.lineage[id] == s.lineage[parent] + {id}
  }

  ghost predicate Lineaged(s: Sys) {
    && s.lineage.Keys == s.drivers.Keys
    && forall id :: id in s.reg.tasks && id in s.lineage ==> LineagedAt(s, id)
  }

  /** The tokens above a task's are those of the tasks above it. */
  lemma {:induction false} LineageExact(s: Sys, above: TaskId, id: TaskId)
    requires Lineaged(s) && Linked(s.reg.tasks) && id in s.reg.tasks && id in s.lineage
    requires forall other :: other in s.reg.tasks ==> other in s.lineage
    ensures above in s.lineage[id] <==> Descends(s.reg.tasks, above, id)
    decreases s.reg.tasks[id].seq_
  {
    match s.reg.tasks[id].info.parent
    case None =>
    case Some(parent) =>
      LineageExact(s, above, parent);
  }

  predicate TokensAfter(t: Sys, s: Sys, step: Step) {
    && s.requested <= t.requested
    && if Starts(step) then
         t.lineage == s.lineage[step.id := (if step.Spawn? && step.parent in s.lineage then s.lineage[step.parent] else {}) + {step.id}]
       else t.lineage == s.lineage
  }

  lemma TokensStep(s: Sys, step: Step)
    requires Enabled(s, step)
    ensures TokensAfter(Next(s, step), s, step)
  {
    Frames(s, step);
    if Starts(step) {
      TokenStarts(s, step);
    }
    hide Next, Enabled;
  }

  lemma TokenStarts(s: Sys, step: Step)
    requires Enabled(s, step) && Starts(step)
    ensures TokensAfter(Next(s, step), s, step)
  {
    hide Started, TicketFor;
  }

  /** No step but a start changes who a task's parent is, or retains a task anew. */
  lemma ParentsKept(s: Sys, step: Step)
    requires Whole(s) && Enabled(s, step) && !Starts(step)
    ensures forall id :: id in Next(s, step).reg.tasks ==>
              id in s.reg.tasks && Next(s, step).reg.tasks[id].info.parent == s.reg.tasks[id].info.parent
  {
    if step.SettleTask? {
      SettlesTrimming(s, step);
      hide Next, Enabled, Whole;
    } else {
      ParentsWritten(s, step);
    }
  }

  lemma ParentsWritten(s: Sys, step: Step)
    requires Enabled(s, step) && !Starts(step) && !step.SettleTask?
    ensures forall id :: id in Next(s, step).reg.tasks ==>
              id in s.reg.tasks && Next(s, step).reg.tasks[id].info.parent == s.reg.tasks[id].info.parent
  {
    if WritesInfo(step) {
      InfoWritten(s, step);
    } else {
      TasksKept(s, step);
    }
    hide Next, Enabled, StateAfter;
  }

  lemma NextLineaged(s: Sys, step: Step)
    requires Whole(s) && Enabled(s, step) && Lineaged(s)
    ensures Lineaged(Next(s, step))
  {
    var t := Next(s, step);
    TokensStep(s, step);
    OthersStay(s, step);
    if Starts(step) {
      StartFitting(s, step);
      StarterNew(s, step);
    } else {
      ParentsKept(s, step);
    }
    hide Next, Enabled, Whole, OneMoves;
    LineagedMoves(s, t, step);
  }

  lemma StarterNew(s: Sys, step: Step)
    requires Enabled(s, step) && Starts(step)
    ensures step.id !in s.drivers
  {
  }

  lemma LineagedMoves(s: Sys, t: Sys, step: Step)
    requires Lineaged(s) && TokensAfter(t, s, step) && OneMoves(s, t, step)
    requires forall id :: id in s.reg.tasks ==> id in s.drivers
    requires if Starts(step) then Grown(t.reg.tasks, s.reg.tasks, ParentOf(step), step.id) && step.id !in s.drivers
             else forall id :: id in t.reg.tasks ==>
                    id in s.reg.tasks && t.reg.tasks[id].info.parent == s.reg.tasks[id].info.parent
    ensures Lineaged(t)
  {
    TokensOfDrivers(s, t, step);
    hide OneMoves, TokensAfter, Grown, ParentOf, Mover;
    forall id | id in t.reg.tasks && id in t.lineage
      ensures LineagedAt(t, id)
    {
      if Starts(step) {
        LineagedStarting(s, t, step, id);
      } else {
        LineagedStaying(s, t, step, id);
      }
    }
  }

  lemma TokensOfDrivers(s: Sys, t: Sys, step: Step)
    requires Lineaged(s) && TokensAfter(t, s, step) && OneMoves(s, t, step)
    ensures t.lineage.Keys == t.drivers.Keys
  {
    hide Mover, LineagedAt;
  }

  lemma LineagedStaying(s: Sys, t: Sys, step: Step, id: TaskId)
    requires Lineaged(s) && TokensAfter(t, s, step) && !Starts(step) && id in t.reg.tasks && id in t.lineage
    requires id in s.reg.tasks && t.reg.tasks[id].info.parent == s.reg.tasks[id].info.parent
    ensures LineagedAt(t, id)
  {
    assert LineagedAt(s, id);
  }

  lemma LineagedStarting(s: Sys, t: Sys, step: Step, id: TaskId)
    requires Lineaged(s) && TokensAfter(t, s, step) && Starts(step)
    requires forall other :: other in s.reg.tasks ==> other in s.drivers
    requires Grown(t.reg.tasks, s.reg.tasks, ParentOf(step), step.id) && step.id !in s.drivers
    requires id in t.reg.tasks && id in t.lineage
    ensures LineagedAt(t, id)
  {
    if id != step.id {
      assert LineagedAt(s, id);
      assert t.reg.tasks[id].info == s.reg.tasks[id].info;
      hide Grown;
    }
  }

  lemma {:induction false} RunLineaged(s: Sys, steps: seq<Step>)
    requires Whole(s) && Lineaged(s) && Possible(s, steps)
    ensures Whole(Run(s, steps)) && Lineaged(Run(s, steps)) && s.requested <= Run(s, steps).requested
    decreases |steps|
  {
    hide Whole, Lineaged, Next, Enabled;
    if steps != [] {
      NextLineaged(s, steps[0]);
      NextWhole(s, steps[0]);
      TokensStep(s, steps[0]);
      RunLineaged(Next(s, steps[0]), steps[1..]);
    }
  }

  /** In every reachable state a task's token is below exactly the tokens of the tasks it descends from. */
  lemma AlwaysLineaged(cfg: Config, steps: seq<Step>)
    requires Possible(Initial(cfg), steps)
    ensures Whole(Run(Initial(cfg), steps)) && Lineaged(Run(Initial(cfg), steps))
  {
    assert Whole(Initial(cfg)) && Lineaged(Initial(cfg));
    hide *;
    RunLineaged(Initial(cfg), steps);
  }

  /** Everything below a task is cancelled. */
  ghost predicate CancelledBelow(s: Sys, above: TaskId) {
    && Linked(s.reg.tasks)
    && forall id :: Descends(s.reg.tasks, above, id) ==> IsCancelled(s, id)
  }

  lemma RequestedReaches(s: Sys, above: TaskId)
    requires Whole(s) && Lineaged(s) && above in s.requested
    ensures CancelledBelow(s, above)
  {
    assert forall id :: id in s.reg.tasks ==> id in s.lineage;
    forall id | Descends(s.reg.tasks, above, id)
      ensures IsCancelled(s, id)
    {
      DescendantRetained(s.reg.tasks, above, id);
      LineageExact(s, above, id);
      assert above in s.lineage[id] * s.requested;
    }
  }

  lemma CancelRequests(s: Sys, above: TaskId)
    requires Unsettled(s.reg, above)
    ensures Enabled(s, Cancel(above)) && above in Next(s, Cancel(above)).requested
  {
  }

  /** Cancelling a task cancels, for good, everything below it, whether it was there then or is spawned later. */
  lemma CancelReaches(s: Sys, cancelled: Sys, above: TaskId, steps: seq<Step>)
    requires cancelled == Next(s, Cancel(above)) && Unsettled(s.reg, above)
    requires Whole(s) && Lineaged(s) && Possible(cancelled, steps)
    ensures CancelledBelow(Run(cancelled, steps), above)
  {
    CancelRequests(s, above);
    NextLineaged(s, Cancel(above));
    NextWhole(s, Cancel(above));
    hide *;
    RunLineaged(cancelled, steps);
    assert above in Run(cancelled, steps).requested;
    RequestedReaches(Run(cancelled, steps), above);
  }

  lemma DescendantRetained(tasks: Tasks, above: TaskId, id: TaskId)
    requires Linked(tasks) && Descends(tasks, above, id)
    ensures id in tasks
  {
  }

  // ----- cancelling everything -----

  ghost predicate AllCancelled(s: Sys) {
    forall id :: id in s.reg.tasks && Unsettled(s.reg, id) ==> IsCancelled(s, id)
  }

  /** A task unsettled after a step was unsettled before it, unless the step started it. */
  lemma UnsettledBefore(s: Sys, step: Step, id: TaskId)
    requires Whole(s) && Enabled(s, step) && Whole(Next(s, step)) && id in s.drivers
    requires id in Next(s, step).reg.tasks && Unsettled(Next(s, step).reg, id)
    ensures id in s.reg.tasks && Unsettled(s.reg, id)
  {
    if HasSettled(s.drivers[id].pc) {
      SettledForever(s, step, id);
    }
    hide Next, Enabled, Fits;
    EndedHasSettled(Next(s, step).drivers[id].pc, Next(s, step).reg.tasks[id]);
    EndedHasSettled(s.drivers[id].pc, s.reg.tasks[id]);
  }

  lemma CancelledStays(s: Sys, t: Sys, step: Step, id: TaskId)
    requires TokensAfter(t, s, step) && IsCancelled(s, id) && (Starts(step) ==> step.id != id)
    ensures IsCancelled(t, id)
  {
    var token :| token in s.lineage[id] * s.requested;
    assert token in t.lineage[id] * t.requested;
  }

  lemma SpawnedCancelled(s: Sys, t: Sys, step: Step)
    requires TokensAfter(t, s, step) && step.Spawn? && IsCancelled(s, step.parent)
    ensures IsCancelled(t, step.id)
  {
    var token :| token in s.lineage[step.parent] * s.requested;
    assert token in t.lineage[step.id] * t.requested;
  }

  lemma NextAllCancelled(s: Sys, step: Step)
    requires Whole(s) && Enabled(s, step) && AllCancelled(s) && !step.Submit?
    ensures AllCancelled(Next(s, step))
  {
    var t := Next(s, step);
    NextWhole(s, step);
    TokensStep(s, step);
    hide Next, Enabled, Whole, TokensAfter, IsCancelled;
    forall id | id in t.reg.tasks && Unsettled(t.reg, id)
      ensures IsCancelled(t, id)
    {
      UnsettledCancelled(s, step, id);
    }
  }

  lemma UnsettledCancelled(s: Sys, step: Step, id: TaskId)
    requires Whole(s) && Enabled(s, step) && AllCancelled(s) && !step.Submit? && Whole(Next(s, step))
    requires id in Next(s, step).reg.tasks && Unsettled(Next(s, step).reg, id)
    ensures IsCancelled(Next(s, step), id)
  {
    var t := Next(s, step);
    TokensStep(s, step);
    DriverStep(s, step, id);
    RetainedDriven(t, id);
    if id in s.drivers {
      UnsettledBefore(s, step, id);
      if Starts(step) {
        StarterNew(s, step);
      }
      hide Next, Enabled, Whole, TokensAfter;
      assert IsCancelled(s, id);
      CancelledStays(s, t, step, id);
    } else {
      StartFitting(s, step);
      StarterStarts(s, step);
      hide Next, Enabled, Whole, TokensAfter, Grown, Started, TicketFor;
      assert IsCancelled(s, step.parent);
      SpawnedCancelled(s, t, step);
    }
  }

  lemma {:induction false} RunAllCancelled(s: Sys, steps: seq<Step>)
    requires Whole(s) && AllCancelled(s) && Possible(s, steps)
    requires forall k :: 0 <= k < |steps| ==> !steps[k].Submit?
    ensures AllCancelled(Run(s, steps))
    decreases |steps|
  {
    hide Whole, AllCancelled, Next, Enabled;
    if steps != [] {
      assert !steps[0].Submit?;
      NextAllCancelled(s, steps[0]);
      NextWhole(s, steps[0]);
      RunAllCancelled(Next(s, steps[0]), steps[1..]);
    }
  }

  /** After everything is cancelled, and as long as no new root is submitted, every unsettled task stays cancelled. */
  lemma CancelAllSticks(s: Sys, cancelled: Sys, steps: seq<Step>)
    requires Whole(s) && Lineaged(s) && cancelled == Next(s, CancelAll) && Possible(cancelled, steps)
    requires forall k :: 0 <= k < |steps| ==> !steps[k].Submit?
    ensures AllCancelled(Run(cancelled, steps))
  {
    assert Enabled(s, CancelAll);
    NextWhole(s, CancelAll);
    CancelsAll(s, cancelled);
    hide *;
    RunAllCancelled(cancelled, steps);
  }

  lemma CancelsAll(s: Sys, cancelled: Sys)
    requires Whole(s) && Lineaged(s) && cancelled == Next(s, CancelAll)
    ensures AllCancelled(cancelled)
  {
    assert cancelled.reg == s.reg && cancelled.lineage == s.lineage && cancelled.requested == s.requested + UnsettledIds(s.reg);
    hide Next, Fits;
    forall id | id in cancelled.reg.tasks && Unsettled(cancelled.reg, id)
      ensures IsCancelled(cancelled, id)
    {
      assert id in cancelled.lineage[id] * cancelled.requested;
    }
  }

  // ----- a finishing task and its children -----

  /** A task waiting for its children has cancelled every one it still waits for. */
  ghost predicate AskedChildren(s: Sys, id: TaskId) {
    id in s.drivers && s.drivers[id].pc.FinishAsleep? && id in s.reg.tasks ==>
      forall child :: child in Live(s.reg.tasks, id) ==> IsCancelled(s, child)
  }

  /** While it waits, a task gains no child. */
  lemma ChildrenKept(s: Sys, step: Step, id: TaskId)
    requires Whole(s) && Enabled(s, step) && id in s.drivers && s.drivers[id].pc.FinishAsleep?
    requires id in Next(s, step).reg.tasks
    ensures id in s.reg.tasks && Next(s, step).reg.tasks[id].children == s.reg.tasks[id].children
  {
    if Starts(step) {
      StartFitting(s, step);
      hide Next, Enabled, Whole;
    } else if step.SettleTask? {
      SettlesTrimming(s, step);
      AboutToSettle(s, step);
      hide Next, Enabled, Whole;
    } else {
      ChildrenWritten(s, step, id);
    }
  }

  lemma ChildrenWritten(s: Sys, step: Step, id: TaskId)
    requires Enabled(s, step) && !Starts(step) && !step.SettleTask? && id in Next(s, step).reg.tasks
    ensures id in s.reg.tasks && Next(s, step).reg.tasks[id].children == s.reg.tasks[id].children
  {
    if WritesInfo(step) {
      InfoWritten(s, step);
    } else {
      TasksKept(s, step);
    }
    hide Next, Enabled, StateAfter;
  }

  lemma LiveShrinks(s: Sys, step: Step, id: TaskId)
    requires Whole(s) && Enabled(s, step) && Whole(Next(s, step)) && id in s.drivers && s.drivers[id].pc.FinishAsleep?
    requires id in Next(s, step).reg.tasks
    ensures id in s.reg.tasks && Live(Next(s, step).reg.tasks, id) <= Live(s.reg.tasks, id)
  {
    ChildrenKept(s, step, id);
    hide Next, Enabled, Whole, Ended;
    forall child | child in Live(Next(s, step).reg.tasks, id)
      ensures child in Live(s.reg.tasks, id)
    {
      LiveBefore(s, step, id, child);
    }
  }

  lemma LiveBefore(s: Sys, step: Step, id: TaskId, child: TaskId)
    requires Whole(s) && Enabled(s, step) && Whole(Next(s, step)) && id in s.reg.tasks && child in s.reg.tasks[id].children
    requires child in Next(s, step).reg.tasks && !Ended(Next(s, step).reg.tasks[child])
    ensures child in s.reg.tasks && !Ended(s.reg.tasks[child])
  {
    ChildRetained(s, id, child);
    hide Next, Enabled, Whole;
    UnsettledBefore(s, step, child);
  }

  lemma ChildRetained(s: Sys, id: TaskId, child: TaskId)
    requires Whole(s) && id in s.reg.tasks && child in s.reg.tasks[id].children
    ensures child in s.reg.tasks && child in s.drivers
  {
    WholeLinked(s);
    hide Whole;
    ChildLinked(s.reg.tasks, id, child);
    hide Linked;
    RetainedDriven(s, child);
  }

  lemma ChildLinked(tasks: Tasks, id: TaskId, child: TaskId)
    requires Linked(tasks) && id in tasks && child in tasks[id].children
    ensures child in tasks
  {
  }

  lemma WholeLinked(s: Sys)
    requires Whole(s)
    ensures Linked(s.reg.tasks)
  {
  }

  lemma FinishAsks(s: Sys, step: Step)
    requires Lineaged(s) && Linked(s.reg.tasks) && Enabled(s, step) && step.FinishCheck?
    requires forall other :: other in s.reg.tasks ==> other in s.drivers
    ensures AskedChildren(Next(s, step), step.id)
  {
    var t := Next(s, step);
    var id := step.id;
    TokensStep(s, step);
    TasksKept(s, step);
    if t.drivers[id].pc.FinishAsleep? && id in t.reg.tasks {
      assert LiveChildren(s.reg, id) <= t.requested;
      hide Next, Enabled, FinishChecked, Linked;
      forall child | child in Live(t.reg.tasks, id)
        ensures IsCancelled(t, child)
      {
        assert child in LiveChildren(s.reg, id);
        assert LineagedAt(s, child);
        assert child in t.lineage[child] * t.requested;
      }
    }
  }

  lemma NextAsked(s: Sys, step: Step, id: TaskId)
    requires Whole(s) && Lineaged(s) && Enabled(s, step) && AskedChildren(s, id)
    ensures AskedChildren(Next(s, step), id)
  {
    var t := Next(s, step);
    DriverStep(s, step, id);
    TokensStep(s, step);
    NextWhole(s, step);
    WholeLinked(s);
    MoverNamed(step);
    if step.FinishCheck? && step.id == id {
      FinishAsks(s, step);
    } else if id in t.drivers && t.drivers[id].pc.FinishAsleep? && id in t.reg.tasks {
      AsleepBefore(t, s, step, id);
      LiveShrinks(s, step, id);
      if Starts(step) {
        StarterNew(s, step);
      }
      hide Next, Enabled, Whole, DriverAfter, Mover, Lineaged, Linked, TokensAfter;
      forall child | child in Live(t.reg.tasks, id)
        ensures IsCancelled(t, child)
      {
        assert child in s.reg.tasks;
        RetainedDriven(s, child);
        CancelledStays(s, t, step, child);
      }
    }
  }

  lemma AsleepBefore(t: Sys, s: Sys, step: Step, id: TaskId)
    requires DriverAfter(t, s, step, id) && id in t.drivers && t.drivers[id].pc.FinishAsleep?
    requires !(step.FinishCheck? && step.id == id)
    ensures id in s.drivers && s.drivers[id].pc.FinishAsleep?
  {
  }

  /** In every reachable state, a task waiting for its children has cancelled every one it still waits for. */
  lemma {:induction false} RunAsked(s: Sys, steps: seq<Step>, id: TaskId)
    requires Whole(s) && Lineaged(s) && Possible(s, steps) && AskedChildren(s, id)
    ensures AskedChildren(Run(s, steps), id)
    decreases |steps|
  {
    hide Whole, Lineaged, Next, Enabled, AskedChildren;
    if steps != [] {
      NextAsked(s, steps[0], id);
      NextLineaged(s, steps[0]);
      NextWhole(s, steps[0]);
      RunAsked(Next(s, steps[0]), steps[1..], id);
    }
  }
}
