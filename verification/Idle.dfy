/** Whoever waits for the runtime to be idle is let go when it is, and not before. */
module Idle {
  import opened Registry
  import opened Scheduler
  import opened Steps

  /** Every retained task has succeeded, failed or been cancelled. */
  ghost predicate AllSettled(r: Registry) {
    forall id :: id in r.tasks ==>
      r.tasks[id].info.state.Succeeded? || r.tasks[id].info.state.Failed? || r.tasks[id].info.state.Cancelled?
  }

  predicate LetGo(s: Sys, waiter: nat) {
    waiter in s.idlers && s.idlers[waiter].pc.IdleDone?
  }

  /** A look lets the waiter go exactly when every retained task has settled. */
  lemma LookExactly(s: Sys, waiter: nat)
    requires Enabled(s, IdleLook(waiter))
    ensures LetGo(Next(s, IdleLook(waiter)), waiter) <==> AllSettled(s.reg)
    ensures var t := Next(s, IdleLook(waiter)); waiter in t.idlers && (t.idlers[waiter].pc.IdleDone? || t.idlers[waiter].pc.IdleAsleep?)
  {
    if !Busy(s.reg) {
      forall id | id in s.reg.tasks
        ensures s.reg.tasks[id].info.state.Terminal()
      {
        assert Unsettled(s.reg, id) || s.reg.tasks[id].info.state.Terminal();
      }
    }
  }

  lemma LetGoStep(s: Sys, step: Step, waiter: nat)
    requires Enabled(s, step) && LetGo(Next(s, step), waiter)
    ensures LetGo(s, waiter) || (step == IdleLook(waiter) && AllSettled(s.reg))
  {
    hide Next, Enabled, Framed, AllSettled;
    if step.IdleStart? || step.IdleEnable? || step.IdleLook? || step.IdleWake? {
      IdleStep(s, step, waiter);
      if step == IdleLook(waiter) {
        LookExactly(s, waiter);
      }
    } else if step.Cancel? || step.CancelAll? {
      CancelKeepsIdlers(s, step);
    } else if Notifies(step) {
      NotifiedIdlers(s, step, waiter);
    } else {
      Frames(s, step);
      FramedIdlers(Next(s, step), s, step);
    }
  }

  lemma IdleStep(s: Sys, step: Step, waiter: nat)
    requires Enabled(s, step) && LetGo(Next(s, step), waiter)
    requires step.IdleStart? || step.IdleEnable? || step.IdleLook? || step.IdleWake?
    ensures LetGo(s, waiter) || step == IdleLook(waiter)
  {
    hide Busy;
  }

  lemma NotifiedIdlers(s: Sys, step: Step, waiter: nat)
    requires Enabled(s, step) && Notifies(step)
    ensures LetGo(Next(s, step), waiter) <==> LetGo(s, waiter)
  {
  }

  lemma CancelKeepsIdlers(s: Sys, step: Step)
    requires Enabled(s, step) && (step.Cancel? || step.CancelAll?)
    ensures Next(s, step).idlers == s.idlers
  {
    hide Unsettled, UnsettledIds;
  }

  lemma FramedIdlers(t: Sys, s: Sys, step: Step)
    requires Framed(t, s, step) && !Notifies(step) && !step.Cancel? && !step.CancelAll?
    requires !step.IdleStart? && !step.IdleEnable? && !step.IdleLook? && !step.IdleWake?
    ensures t.idlers == s.idlers
  {
  }

  /** Somewhere in a run the waiter looks, and every retained task has settled. */
  ghost predicate FindsSettled(s: Sys, steps: seq<Step>, waiter: nat)
    requires Possible(s, steps)
    decreases |steps|
  {
    steps != [] &&
    ((steps[0] == IdleLook(waiter) && AllSettled(s.reg)) || FindsSettled(Next(s, steps[0]), steps[1..], waiter))
  }

  lemma {:induction false} LetGoRun(s: Sys, steps: seq<Step>, waiter: nat)
    requires Possible(s, steps) && LetGo(Run(s, steps), waiter)
    ensures LetGo(s, waiter) || FindsSettled(s, steps, waiter)
    decreases |steps|
  {
    hide Next, Enabled, LetGo, AllSettled;
    if steps != [] {
      LetGoRun(Next(s, steps[0]), steps[1..], waiter);
      if LetGo(Next(s, steps[0]), waiter) {
        LetGoStep(s, steps[0], waiter);
      }
    }
  }

  /** In every run, a waiter let go had looked when every retained task had settled. */
  lemma LetGoOnlyWhenIdle(cfg: Config, steps: seq<Step>, waiter: nat)
    requires Possible(Initial(cfg), steps) && LetGo(Run(Initial(cfg), steps), waiter)
    ensures FindsSettled(Initial(cfg), steps, waiter)
  {
    assert !LetGo(Initial(cfg), waiter);
    hide *;
    LetGoRun(Initial(cfg), steps, waiter);
  }
}

/** Stopping: cancelled as a whole, the runtime comes to rest whatever its tasks wait for. */
module Stopping {
  import opened Registry
  import opened Scheduler
  import opened Eviction
  import opened Family
  import opened FairAdmission
  import opened Wake
  import opened Cancellation

  /** A cancelled task asleep in its admission wait can leave it. */
  lemma SleeperLeaves(s: Sys, id: TaskId)
    requires Whole(s) && AllCancelled(s) && id in s.drivers && s.drivers[id].pc.Asleep?
    ensures Own(WakeCancelled(id)) && Enabled(s, WakeCancelled(id))
  {
    hide Whole, IsCancelled;
    SleeperUnsettled(s, id);
    assert IsCancelled(s, id);
  }

  lemma SleeperUnsettled(s: Sys, id: TaskId)
    requires Whole(s) && id in s.drivers && s.drivers[id].pc.Asleep?
    ensures id in s.reg.tasks && Unsettled(s.reg, id)
  {
    hide Sound, RootsExact, Fits;
    EndedHasSettled(s.drivers[id].pc, s.reg.tasks[id]);
  }

  /**
    Once everything has been cancelled and no new root is submitted, a runtime with no step of its own left has settled
    every task and let everyone waiting for idleness go, resources on their way and caps of zero or not.
  */
  lemma CancelledComesToRest(cfg: Config, before: seq<Step>, steps: seq<Step>, s: Sys)
    requires Possible(Initial(cfg), before) && Possible(Next(Run(Initial(cfg), before), CancelAll), steps)
    requires forall k :: 0 <= k < |steps| ==> !steps[k].Submit?
    requires s == Run(Next(Run(Initial(cfg), before), CancelAll), steps) && Stuck(s)
    ensures forall id :: id in s.drivers ==> s.drivers[id].pc.Finished?
    ensures !Busy(s.reg)
    ensures forall w :: w in s.idlers ==> s.idlers[w].pc.IdleDone?
  {
    hide Possible, Run, Next, Enabled, Stuck, Fair, Whole, NoneLost, Lineaged, AllCancelled, Own;
    var stopped := Run(Initial(cfg), before);
    AlwaysNoneLost(cfg, before);
    AlwaysLineaged(cfg, before);
    CanCancelAll(stopped);
    CancelAllSticks(stopped, Next(stopped, CancelAll), steps);
    NextKeeps(stopped);
    RunNoneLost(Next(stopped, CancelAll), steps);
    forall id | id in s.drivers
      ensures !s.drivers[id].pc.Asleep?
    {
      if s.drivers[id].pc.Asleep? {
        SleeperLeaves(s, id);
        StuckNot(s, WakeCancelled(id));
      }
    }
    AllSettles(s);
  }

  lemma CanCancelAll(s: Sys)
    ensures Enabled(s, CancelAll)
  {
  }

  lemma NextKeeps(s: Sys)
    requires Fair(s) && Whole(s) && NoneLost(s) && Enabled(s, CancelAll)
    ensures var t := Next(s, CancelAll); Fair(t) && Whole(t) && NoneLost(t)
  {
    hide Fair, Whole, NoneLost, Next, Enabled;
    NextNoneLost(s, CancelAll);
    NextFair(s, CancelAll);
    NextWhole(s, CancelAll);
  }

  lemma StuckNot(s: Sys, step: Step)
    requires Stuck(s) && Own(step)
    ensures !Enabled(s, step)
  {
  }
}
