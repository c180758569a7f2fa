/**
  Coalescing a task's progress: when a report is sent, when it waits, and what the
  timer and the end of the task send for it.
*/
module Throttle {
  import opened Wrappers

  datatype Measure = Indeterminate | Items(done: nat, total: Option<nat>) | Bytes(done: nat, total: Option<nat>)

  /** A phase and a count, of which a task may have either, neither or both. */
  datatype Progress = Progress(phase: Option<string>, measure: Measure)

  const NO_PROGRESS := Progress(None, Indeterminate)

  datatype Throttle = Throttle(lastSent: Option<nat>, pending: bool, flushScheduled: bool)

  const FRESH := Throttle(None, false, false)

  /** `Instant::duration_since`, which never goes below zero. */
  function Since(now: nat, then_: nat): nat {
    if now >= then_ then now - then_ else 0
  }

  predicate Due(t: Throttle, now: nat, interval: nat) {
    t.lastSent.None? || Since(now, t.lastSent.value) >= interval
  }

  /** The throttle afterwards, whether an event goes out, and how long a timer is set for. */
  datatype Reported = Reported(throttle: Throttle, sent: bool, timer: Option<nat>)

  function Report(t: Throttle, now: nat, interval: nat): Reported {
    if Due(t, now, interval) then Reported(t.(lastSent := Some(now), pending := false), true, None)
    else if t.flushScheduled then Reported(t.(pending := true), false, None)
    else
      var waited := Since(now, t.lastSent.value);
      Reported(Throttle(t.lastSent, true, true), false, Some(if interval >= waited then interval - waited else 0))
  }

  /** What a timer does when it fires, the task not having ended. */
  function Flush(t: Throttle, now: nat): Throttle {
    if t.pending then Throttle(Some(now), false, false) else t.(flushScheduled := false)
  }

  // ----- one task's progress over time -----

  datatype Cause = Immediate | Timer | Ending

  datatype Sent = Sent(at: nat, value: Progress, cause: Cause)

  /** One task: its throttle, the deadlines of its timers, and everything it sent, before and after it ended. */
  datatype Line = Line(
    throttle: Throttle,
    progress: Progress,
    ended: bool,
    timers: seq<nat>,
    sent: seq<Sent>,
    afterEnd: seq<Sent>,
    clock: nat)

  datatype Step =
    | Reporting(value: Progress, at: nat)
    | Firing(timer: nat, at: nat)
    | Settling(at: nat)

  function Begin(progress: Progress, clock: nat): Line {
    Line(FRESH, progress, false, [], [], [], clock)
  }

  function Emit(l: Line, at: nat, cause: Cause): Line {
    var event := Sent(at, l.progress, cause);
    if l.ended then l.(afterEnd := l.afterEnd + [event]) else l.(sent := l.sent + [event])
  }

  /** The clock never goes back, and a timer fires no sooner than it was set for, though as much later as it likes. */
  predicate Enabled(l: Line, step: Step) {
    && step.at >= l.clock
    && (step.Firing? ==> step.timer < |l.timers| && step.at >= l.timers[step.timer])
    && (step.Settling? ==> !l.ended)
  }

  function After(l: Line, step: Step, interval: nat): Line
    requires Enabled(l, step)
  {
    var l := l.(clock := step.at);
    match step
    case Reporting(value, at) =>
      if l.ended then l
      else
        var reported := Report(l.throttle, at, interval);
        var l := l.(throttle := reported.throttle, progress := value);
        if reported.sent then Emit(l, at, Immediate)
        else if reported.timer.Some? then l.(timers := l.timers + [at + reported.timer.value])
        else l
    case Firing(timer, at) =>
      var l := l.(timers := l.timers[..timer] + l.timers[timer + 1..]);
      if l.ended then l.(throttle := l.throttle.(flushScheduled := false))
      else
        var flushed := l.(throttle := Flush(l.throttle, at));
        if l.throttle.pending then Emit(flushed, at, Timer) else flushed
    case Settling(at) =>
      var flushed := l.(throttle := l.throttle.(pending := false));
      (if l.throttle.pending then Emit(flushed, at, Ending) else flushed).(ended := true)
  }

  /** All the events the throttle itself let through are before the one the end sends, if any. */
  function Throttled(sent: seq<Sent>): seq<Sent> {
    if sent != [] && sent[|sent| - 1].cause == Ending then sent[..|sent| - 1] else sent
  }

  ghost predicate Spaced(sent: seq<Sent>, interval: nat) {
    && (forall k :: 0 <= k < |sent| ==> sent[k].cause != Ending)
    && (forall k :: 0 <= k < |sent| - 1 ==> sent[k].at <= sent[k + 1].at)
    && (forall k :: 0 <= k < |sent| - 2 ==> sent[k].at + interval <= sent[k + 2].at)
  }

  /** What a timer still to fire means for the spacing of what it may send. */
  ghost predicate TimerAccounted(l: Line, interval: nat) {
    var n := |l.sent|;
    && |l.timers| == (if l.throttle.flushScheduled then 1 else 0)
    && (l.throttle.pending && !l.ended ==> l.throttle.flushScheduled)
    && (l.throttle.flushScheduled && !l.ended && n > 0 && l.timers[0] < l.sent[n - 1].at + interval ==>
          (n >= 2 ==> l.sent[n - 2].at + interval <= l.sent[n - 1].at))
  }

  ghost predicate Inv(l: Line, start: Progress, interval: nat) {
    var n := |l.sent|;
    && l.afterEnd == []
    && Spaced(Throttled(l.sent), interval)
    && (!l.ended ==> Throttled(l.sent) == l.sent)
    && (n > 0 ==> l.sent[n - 1].at <= l.clock)
    && (!l.ended ==> l.throttle.lastSent == if n == 0 then None else Some(l.sent[n - 1].at))
    && TimerAccounted(l, interval)
    && (!l.throttle.pending ==> l.progress == if n == 0 then start else l.sent[n - 1].value)
    && (l.ended ==> !l.throttle.pending)
  }

  lemma SpacedSnoc(sent: seq<Sent>, event: Sent, interval: nat)
    requires Spaced(sent, interval) && event.cause != Ending
    requires sent != [] ==> sent[|sent| - 1].at <= event.at
    requires |sent| >= 2 ==> sent[|sent| - 2].at + interval <= event.at
    ensures Spaced(sent + [event], interval)
  {
  }

  lemma AfterReport(l: Line, start: Progress, interval: nat, value: Progress, at: nat)
    requires Inv(l, start, interval) && Enabled(l, Reporting(value, at))
    ensures Inv(After(l, Reporting(value, at), interval), start, interval)
  {
    if !l.ended {
      var n := |l.sent|;
      if Report(l.throttle, at, interval).sent {
        assert n >= 2 ==> l.sent[n - 2].at <= l.sent[n - 1].at;
        SpacedSnoc(l.sent, Sent(at, value, Immediate), interval);
      }
    }
    hide Spaced;
  }

  lemma AfterFire(l: Line, start: Progress, interval: nat, timer: nat, at: nat)
    requires Inv(l, start, interval) && Enabled(l, Firing(timer, at))
    ensures Inv(After(l, Firing(timer, at), interval), start, interval)
  {
    assert l.timers[..timer] + l.timers[timer + 1..] == [];
    if !l.ended && l.throttle.pending {
      FireSends(l, start, interval, timer, at);
    } else {
      hide Spaced;
    }
  }

  lemma FireSends(l: Line, start: Progress, interval: nat, timer: nat, at: nat)
    requires Inv(l, start, interval) && Enabled(l, Firing(timer, at)) && !l.ended && l.throttle.pending
    ensures Inv(After(l, Firing(timer, at), interval), start, interval)
  {
    assert l.timers[..timer] + l.timers[timer + 1..] == [];
    var n := |l.sent|;
    assert n >= 2 ==> l.sent[n - 2].at <= l.sent[n - 1].at;
    SpacedSnoc(l.sent, Sent(at, l.progress, Timer), interval);
    hide Spaced;
  }

  lemma AfterSettle(l: Line, start: Progress, interval: nat, at: nat)
    requires Inv(l, start, interval) && Enabled(l, Settling(at))
    ensures Inv(After(l, Settling(at), interval), start, interval)
  {
    if l.throttle.pending {
      var all := l.sent + [Sent(at, l.progress, Ending)];
      assert all[..|all| - 1] == l.sent;
    }
  }

  ghost predicate Possible(l: Line, steps: seq<Step>, interval: nat)
    decreases |steps|
  {
    steps == [] || (Enabled(l, steps[0]) && Possible(After(l, steps[0], interval), steps[1..], interval))
  }

  ghost function Run(l: Line, steps: seq<Step>, interval: nat): Line
    requires Possible(l, steps, interval)
    decreases |steps|
  {
    if steps == [] then l else Run(After(l, steps[0], interval), steps[1..], interval)
  }

  lemma AfterKeeps(l: Line, start: Progress, interval: nat, step: Step)
    requires Inv(l, start, interval) && Enabled(l, step)
    ensures Inv(After(l, step, interval), start, interval)
  {
    hide *;
    match step
    case Reporting(value, at) => AfterReport(l, start, interval, value, at);
    case Firing(timer, at) => AfterFire(l, start, interval, timer, at);
    case Settling(at) => AfterSettle(l, start, interval, at);
  }

  lemma {:induction false} RunKeeps(l: Line, start: Progress, steps: seq<Step>, interval: nat)
    requires Inv(l, start, interval) && Possible(l, steps, interval)
    ensures Inv(Run(l, steps, interval), start, interval)
    decreases |steps|
  {
    hide Inv, After, Enabled;
    if steps != [] {
      AfterKeeps(l, start, interval, steps[0]);
      RunKeeps(After(l, steps[0], interval), start, steps[1..], interval);
    }
  }

  /** The first and the last of any three are an interval apart. */
  ghost predicate NoThreeWithin(sent: seq<Sent>, interval: nat) {
    forall i, k :: 0 <= i < i + 2 <= k < |sent| ==> sent[i].at + interval <= sent[k].at
  }

  lemma SpacedApart(sent: seq<Sent>, interval: nat)
    requires Spaced(sent, interval)
    ensures NoThreeWithin(sent, interval)
  {
    forall i, k | 0 <= i < i + 2 <= k < |sent|
      ensures sent[i].at + interval <= sent[k].at
    {
      SpacedOrdered(sent, interval, i + 2, k);
    }
  }

  lemma {:induction false} SpacedOrdered(sent: seq<Sent>, interval: nat, i: nat, k: nat)
    requires Spaced(sent, interval) && i <= k < |sent|
    ensures sent[i].at <= sent[k].at
  {
    if i < k {
      SpacedOrdered(sent, interval, i, k - 1);
    }
  }

  /**
    Whatever is reported when, and however late timers fire: no event follows the end; the last one before it carries the
    final progress; and no window of one interval holds three events besides the one the end sends.
  */
  lemma ThrottledRun(start: Progress, clock: nat, steps: seq<Step>, interval: nat)
    requires Possible(Begin(start, clock), steps, interval)
    ensures var l := Run(Begin(start, clock), steps, interval);
            && l.afterEnd == []
            && (l.ended ==> l.progress == if l.sent == [] then start else l.sent[|l.sent| - 1].value)
            && NoThreeWithin(Throttled(l.sent), interval)
  {
    assert Inv(Begin(start, clock), start, interval);
    RunKeeps(Begin(start, clock), start, steps, interval);
    hide Possible, Run, Spaced;
    SpacedApart(Throttled(Run(Begin(start, clock), steps, interval).sent), interval);
  }

  // ----- one event an interval -----

  /** Each event at least an interval after the one before it. */
  ghost predicate Apart(sent: seq<Sent>, interval: nat) {
    forall k :: 0 <= k < |sent| - 1 ==> sent[k].at + interval <= sent[k + 1].at
  }

  /** A timer fires with something pending before an interval has passed since the last event. */
  predicate FiresEarly(l: Line, step: Step, interval: nat) {
    step.Firing? && !l.ended && l.throttle.pending && !Due(l.throttle, step.at, interval)
  }

  ghost predicate SomeFiresEarly(l: Line, steps: seq<Step>, interval: nat)
    requires Possible(l, steps, interval)
    decreases |steps|
  {
    steps != [] && (FiresEarly(l, steps[0], interval) || SomeFiresEarly(After(l, steps[0], interval), steps[1..], interval))
  }

  lemma ApartSnoc(sent: seq<Sent>, event: Sent, interval: nat)
    ensures Apart(sent + [event], interval) <==>
            Apart(sent, interval) && (sent != [] ==> sent[|sent| - 1].at + interval <= event.at)
  {
    var all := sent + [event];
    assert forall k :: 0 <= k < |sent| ==> all[k] == sent[k];
    if Apart(all, interval) && sent != [] {
      assert all[|sent| - 1].at + interval <= all[|sent| - 1 + 1].at;
    }
  }

  /** What one step adds to what the throttle let through, if anything, and when that is due. */
  predicate Lets(was: seq<Sent>, now: seq<Sent>, step: Step, early: bool, interval: nat) {
    if now == was then !early
    else
      && |now| == |was| + 1 && now == was + [now[|was|]] && now[|was|].at == step.at
      && (early <==> was != [] && step.at < was[|was| - 1].at + interval)
  }

  lemma StepLets(l: Line, start: Progress, step: Step, interval: nat)
    requires Inv(l, start, interval) && Enabled(l, step)
    ensures Lets(Throttled(l.sent), Throttled(After(l, step, interval).sent), step, FiresEarly(l, step, interval), interval)
  {
    hide *;
    UnendedLets(l, start, interval);
    if step.Reporting? {
      ReportLets(l, step, interval);
    } else if step.Firing? {
      FiringLets(l, step, interval);
    } else {
      SettlingLets(l, step, interval);
    }
  }

  /** Until the end everything sent was let through, and the last of it is the last the throttle knows of. */
  ghost predicate LetThrough(l: Line) {
    !l.ended ==>
      && (forall k :: 0 <= k < |l.sent| ==> l.sent[k].cause != Ending)
      && (l.throttle.lastSent == if l.sent == [] then None else Some(l.sent[|l.sent| - 1].at))
      && (l.sent != [] ==> l.sent[|l.sent| - 1].at <= l.clock)
  }

  lemma UnendedLets(l: Line, start: Progress, interval: nat)
    requires Inv(l, start, interval)
    ensures LetThrough(l)
  {
    hide TimerAccounted;
  }

  lemma ReportLets(l: Line, step: Step, interval: nat)
    requires LetThrough(l) && Enabled(l, step) && step.Reporting?
    ensures Lets(Throttled(l.sent), Throttled(After(l, step, interval).sent), step, FiresEarly(l, step, interval), interval)
  {
    var at := step.at;
    assert Throttled(l.sent + [Sent(at, step.value, Immediate)]) == l.sent + [Sent(at, step.value, Immediate)];
  }

  lemma FiringLets(l: Line, step: Step, interval: nat)
    requires LetThrough(l) && Enabled(l, step) && step.Firing?
    ensures Lets(Throttled(l.sent), Throttled(After(l, step, interval).sent), step, FiresEarly(l, step, interval), interval)
  {
    assert Throttled(l.sent + [Sent(step.at, l.progress, Timer)]) == l.sent + [Sent(step.at, l.progress, Timer)];
  }

  lemma SettlingLets(l: Line, step: Step, interval: nat)
    requires LetThrough(l) && Enabled(l, step) && step.Settling?
    ensures Lets(Throttled(l.sent), Throttled(After(l, step, interval).sent), step, FiresEarly(l, step, interval), interval)
  {
    var all := l.sent + [Sent(step.at, l.progress, Ending)];
    assert all[..|all| - 1] == l.sent;
  }

  lemma StepApart(l: Line, start: Progress, step: Step, interval: nat)
    requires Inv(l, start, interval) && Enabled(l, step)
    ensures Apart(Throttled(After(l, step, interval).sent), interval) <==>
            Apart(Throttled(l.sent), interval) && !FiresEarly(l, step, interval)
  {
    StepLets(l, start, step, interval);
    var was, now := Throttled(l.sent), Throttled(After(l, step, interval).sent);
    hide Inv, After, Enabled, Apart, Throttled, FiresEarly;
    if now != was {
      ApartSnoc(was, now[|was|], interval);
    }
  }

  lemma {:induction false} RunApart(l: Line, start: Progress, steps: seq<Step>, interval: nat)
    requires Inv(l, start, interval) && Possible(l, steps, interval)
    ensures Apart(Throttled(Run(l, steps, interval).sent), interval) <==>
            Apart(Throttled(l.sent), interval) && !SomeFiresEarly(l, steps, interval)
    decreases |steps|
  {
    hide Inv, After, Enabled, Apart, Throttled, FiresEarly;
    if steps != [] {
      AfterKeeps(l, start, interval, steps[0]);
      StepApart(l, start, steps[0], interval);
      RunApart(After(l, steps[0], interval), start, steps[1..], interval);
    }
  }

  /**
    One event an interval, the end's aside, is what a run sends exactly when no timer in it fires with something pending
    before an interval has passed since the last event.
  */
  lemma OnePerIntervalExactly(start: Progress, clock: nat, steps: seq<Step>, interval: nat)
    requires Possible(Begin(start, clock), steps, interval)
    ensures Apart(Throttled(Run(Begin(start, clock), steps, interval).sent), interval)
       <==> !SomeFiresEarly(Begin(start, clock), steps, interval)
  {
    assert Inv(Begin(start, clock), start, interval);
    RunApart(Begin(start, clock), start, steps, interval);
  }

  /** A report while a timer is overdue. */
  predicate ReportsLate(l: Line, step: Step) {
    step.Reporting? && !l.ended && exists k :: 0 <= k < |l.timers| && l.timers[k] <= step.at
  }

  ghost predicate SomeReportsLate(l: Line, steps: seq<Step>, interval: nat)
    requires Possible(l, steps, interval)
    decreases |steps|
  {
    steps != [] && (ReportsLate(l, steps[0]) || SomeReportsLate(After(l, steps[0], interval), steps[1..], interval))
  }

  /** The timer is set for the time the next event is due. */
  predicate TimerTimely(l: Line, interval: nat) {
    l.throttle.flushScheduled && !l.ended ==>
      l.throttle.lastSent.Some? && |l.timers| == 1 && l.timers[0] == l.throttle.lastSent.value + interval
  }

  lemma StepTimely(l: Line, start: Progress, step: Step, interval: nat)
    requires Inv(l, start, interval) && Enabled(l, step) && TimerTimely(l, interval) && !ReportsLate(l, step)
    ensures TimerTimely(After(l, step, interval), interval) && !FiresEarly(l, step, interval)
  {
    hide Spaced, Throttled;
    if step.Reporting? && l.throttle.flushScheduled && !l.ended {
      assert l.timers[0] > step.at;
    }
  }

  lemma {:induction false} RunTimely(l: Line, start: Progress, steps: seq<Step>, interval: nat)
    requires Inv(l, start, interval) && Possible(l, steps, interval) && TimerTimely(l, interval)
    requires !SomeReportsLate(l, steps, interval)
    ensures !SomeFiresEarly(l, steps, interval)
    decreases |steps|
  {
    hide Inv, After, Enabled, TimerTimely, ReportsLate, FiresEarly;
    if steps != [] {
      AfterKeeps(l, start, interval, steps[0]);
      StepTimely(l, start, steps[0], interval);
      RunTimely(After(l, steps[0], interval), start, steps[1..], interval);
    }
  }

  /** One event an interval, the end's aside, whenever no report is made while a timer is overdue. */
  lemma OnePerIntervalOnTime(start: Progress, clock: nat, steps: seq<Step>, interval: nat)
    requires Possible(Begin(start, clock), steps, interval) && !SomeReportsLate(Begin(start, clock), steps, interval)
    ensures Apart(Throttled(Run(Begin(start, clock), steps, interval).sent), interval)
  {
    assert Inv(Begin(start, clock), start, interval);
    RunTimely(Begin(start, clock), start, steps, interval);
    OnePerIntervalExactly(start, clock, steps, interval);
  }

  // ----- nothing is held back longer than it need be -----

  /** A report goes out at once exactly when an interval has passed since the last event; otherwise it is held back. */
  lemma SentAtOnceExactly(l: Line, start: Progress, value: Progress, at: nat, interval: nat)
    requires Inv(l, start, interval) && Enabled(l, Reporting(value, at)) && !l.ended
    ensures var after := After(l, Reporting(value, at), interval);
            && after.progress == value
            && if l.sent == [] || l.sent[|l.sent| - 1].at + interval <= at then
                 after.sent == l.sent + [Sent(at, value, Immediate)] && !after.throttle.pending
               else after.sent == l.sent && after.throttle.pending
  {
    hide Spaced, Throttled, TimerAccounted;
  }

  /** What is held back goes out when its timer fires. */
  lemma HeldBackFires(l: Line, start: Progress, at: nat, interval: nat)
    requires Inv(l, start, interval) && l.throttle.pending && !l.ended
    ensures |l.timers| == 1
    ensures Enabled(l, Firing(0, at)) ==>
              After(l, Firing(0, at), interval).sent == l.sent + [Sent(at, l.progress, Timer)]
  {
    hide Spaced, Throttled;
  }

  /** A timer is set for no later than an interval after the last event. */
  predicate TimerSoon(l: Line, interval: nat) {
    l.throttle.flushScheduled && !l.ended ==>
      |l.timers| == 1 && l.sent != [] && l.timers[0] <= l.sent[|l.sent| - 1].at + interval
  }

  lemma StepSoon(l: Line, start: Progress, step: Step, interval: nat)
    requires Inv(l, start, interval) && Enabled(l, step) && TimerSoon(l, interval)
    ensures TimerSoon(After(l, step, interval), interval)
  {
    hide Spaced, Throttled;
  }

  lemma {:induction false} RunSoon(l: Line, start: Progress, steps: seq<Step>, interval: nat)
    requires Inv(l, start, interval) && Possible(l, steps, interval) && TimerSoon(l, interval)
    ensures TimerSoon(Run(l, steps, interval), interval)
    decreases |steps|
  {
    hide Inv, After, Enabled, TimerSoon;
    if steps != [] {
      AfterKeeps(l, start, interval, steps[0]);
      StepSoon(l, start, steps[0], interval);
      RunSoon(After(l, steps[0], interval), start, steps[1..], interval);
    }
  }

  /** In every run, progress held back has a timer set for no later than an interval after the last event. */
  lemma HeldBackBriefly(start: Progress, clock: nat, steps: seq<Step>, interval: nat)
    requires Possible(Begin(start, clock), steps, interval)
    ensures var l := Run(Begin(start, clock), steps, interval);
            l.throttle.pending && !l.ended ==>
              |l.timers| == 1 && l.sent != [] && l.timers[0] <= l.sent[|l.sent| - 1].at + interval
  {
    assert Inv(Begin(start, clock), start, interval);
    RunKeeps(Begin(start, clock), start, steps, interval);
    RunSoon(Begin(start, clock), start, steps, interval);
    hide Possible, Run, Spaced;
  }

  lemma {:induction false} RunThen(l: Line, steps: seq<Step>, step: Step, interval: nat)
    requires Possible(l, steps, interval) && Enabled(Run(l, steps, interval), step)
    ensures Possible(l, steps + [step], interval)
    ensures Run(l, steps + [step], interval) == After(Run(l, steps, interval), step, interval)
    decreases |steps|
  {
    hide Enabled, After;
    var all := steps + [step];
    if steps == [] {
      assert all == [step] && all[1..] == [];
      assert Possible(After(l, step, interval), [], interval);
    } else {
      RunThen(After(l, steps[0], interval), steps[1..], step, interval);
      assert all[1..] == steps[1..] + [step];
    }
  }

  predicate Leads(l: Line, step: Step, next: Line) {
    Enabled(l, step) && After(l, step, 100) == next
  }

  /** A late timer after a due report: two events 30 apart, with an interval of 100. */
  lemma TwoInOneInterval(p: Progress)
    ensures var steps := [Reporting(p, 0), Reporting(p, 50), Reporting(p, 100), Reporting(p, 120), Firing(0, 130)];
            && Possible(Begin(p, 0), steps, 100)
            && Run(Begin(p, 0), steps, 100).sent == [Sent(0, p, Immediate), Sent(100, p, Immediate), Sent(130, p, Timer)]
  {
    var steps := [Reporting(p, 0), Reporting(p, 50), Reporting(p, 100), Reporting(p, 120), Firing(0, 130)];
    var sent0, sent1, sent2 := Sent(0, p, Immediate), Sent(100, p, Immediate), Sent(130, p, Timer);
    var l2 := Line(Throttle(Some(0), true, true), p, false, [100], [sent0], [], 50);
    var l4 := Line(Throttle(Some(100), true, true), p, false, [100], [sent0, sent1], [], 120);
    var l5 := Line(Throttle(Some(130), false, false), p, false, [], [sent0, sent1, sent2], [], 130);
    TimerSet(p, Begin(p, 0), l2);
    DueBeforeTimer(p, l2, l4);
    TimerLate(p, l4, l5);
    assert steps[..0] == [] && Possible(Begin(p, 0), [], 100);
    hide *;
    ExtendsTwice(p, steps, 0, Begin(p, 0), l2);
    ExtendsTwice(p, steps, 2, l2, l4);
    Extends(p, steps, 4, l4, l5);
    assert steps[..5] == steps;
  }

  lemma TimerSet(p: Progress, l: Line, next: Line)
    requires l == Begin(p, 0) && next == Line(Throttle(Some(0), true, true), p, false, [100], [Sent(0, p, Immediate)], [], 50)
    ensures LeadsTwice(l, Reporting(p, 0), Reporting(p, 50), next)
  {
  }

  lemma DueBeforeTimer(p: Progress, l: Line, next: Line)
    requires l == Line(Throttle(Some(0), true, true), p, false, [100], [Sent(0, p, Immediate)], [], 50)
    requires next.sent == [Sent(0, p, Immediate), Sent(100, p, Immediate)]
    requires next == Line(Throttle(Some(100), true, true), p, false, [100], next.sent, [], 120)
    ensures LeadsTwice(l, Reporting(p, 100), Reporting(p, 120), next)
  {
    assert Enabled(l, Reporting(p, 100));
    assert After(l, Reporting(p, 100), 100).sent == next.sent;
  }

  lemma TimerLate(p: Progress, l: Line, next: Line)
    requires l == Line(Throttle(Some(100), true, true), p, false, [100], l.sent, [], 120)
    requires next == Line(Throttle(Some(130), false, false), p, false, [], l.sent + [Sent(130, p, Timer)], [], 130)
    ensures Leads(l, Firing(0, 130), next)
  {
  }

  predicate LeadsTwice(l: Line, first: Step, second: Step, next: Line) {
    Enabled(l, first) && Leads(After(l, first, 100), second, next)
  }

  lemma ExtendsTwice(p: Progress, steps: seq<Step>, n: nat, l: Line, next: Line)
    requires n + 1 < |steps| && Possible(Begin(p, 0), steps[..n], 100) && LeadsTwice(l, steps[n], steps[n + 1], next)
    requires Run(Begin(p, 0), steps[..n], 100) == l
    ensures Possible(Begin(p, 0), steps[..n + 2], 100) && Run(Begin(p, 0), steps[..n + 2], 100) == next
  {
    hide Enabled, After, Possible, Run;
    Extends(p, steps, n, l, After(l, steps[n], 100));
    Extends(p, steps, n + 1, After(l, steps[n], 100), next);
  }

  lemma Extends(p: Progress, steps: seq<Step>, n: nat, l: Line, next: Line)
    requires n < |steps| && Possible(Begin(p, 0), steps[..n], 100) && Leads(l, steps[n], next)
    requires Run(Begin(p, 0), steps[..n], 100) == l
    ensures Possible(Begin(p, 0), steps[..n + 1], 100) && Run(Begin(p, 0), steps[..n + 1], 100) == next
  {
    RunThen(Begin(p, 0), steps[..n], steps[n], 100);
    assert steps[..n] + [steps[n]] == steps[..n + 1];
  }
}
