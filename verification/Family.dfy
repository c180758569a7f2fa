/**
  The tree of tasks and what is kept of it: counts of live children, settled roots
  in the order they settled, and eviction that takes whole settled subtrees.
*/
module Eviction {
  import opened Wrappers
  import opened Registry

  type Tasks = map<TaskId, Entry>

  predicate Ended(e: Entry) {
    e.info.state.Terminal()
  }

  ghost predicate Distinct(ids: seq<TaskId>) {
    forall i, j :: 0 <= i < j < |ids| ==> ids[i] != ids[j]
  }

  ghost predicate Linked(tasks: Tasks) {
    && (forall id :: id in tasks ==> tasks[id].info.id == id && Distinct(tasks[id].children))
    && (forall id :: id in tasks && tasks[id].info.parent.Some? ==>
          var parent := tasks[id].info.parent.value;
          parent in tasks && id in tasks[parent].children && tasks[parent].seq_ < tasks[id].seq_)
    && (forall id, child :: id in tasks && child in tasks[id].children ==>
          child in tasks && tasks[child].info.parent == Some(id))
  }

  /** The children of a task that have not settled. */
  ghost function Live(tasks: Tasks, id: TaskId): set<TaskId>
    requires id in tasks
  {
    set child | child in tasks[id].children && child in tasks && !Ended(tasks[child])
  }

  ghost predicate Counted(tasks: Tasks) {
    forall id :: id in tasks ==> tasks[id].liveChildren == |Live(tasks, id)|
  }

  /** A settled task has no live child. */
  ghost predicate EndedLast(tasks: Tasks) {
    forall id :: id in tasks && Ended(tasks[id]) ==> tasks[id].liveChildren == 0
  }

  ghost predicate Sound(tasks: Tasks) {
    Linked(tasks) && Counted(tasks) && EndedLast(tasks)
  }

  ghost predicate Within(left: Tasks, tasks: Tasks) {
    forall id :: id in left ==> id in tasks && left[id] == tasks[id]
  }

  // ----- one subtree -----

  /** What is gone takes its children with it, and goes only as one of `ids` or as such a child. */
  ghost predicate CutOff(tasks: Tasks, left: Tasks, ids: seq<TaskId>) {
    && Within(left, tasks)
    && (forall id :: id in ids ==> id !in left)
    && (forall id, child :: id in tasks && id !in left && child in tasks[id].children ==> child !in left)
    && (forall id :: id in tasks && id !in left ==> id in ids || HasGoneParent(tasks, left, id))
  }

  ghost predicate HasGoneParent(tasks: Tasks, left: Tasks, id: TaskId) {
    exists parent :: parent in tasks && parent !in left && id in tasks[parent].children
  }

  lemma {:induction false} SubtreeCutOff(tasks: Tasks, id: TaskId)
    ensures CutOff(tasks, RemoveSubtree(tasks, id), [id])
    decreases |tasks|, 0
  {
    if id in tasks {
      var rest := tasks - {id};
      assert tasks.Keys - {id} == rest.Keys;
      AllCutOff(rest, tasks[id].children);
      CutHead(tasks, RemoveAll(rest, tasks[id].children), id);
    }
  }

  lemma CutHead(tasks: Tasks, left: Tasks, id: TaskId)
    requires id in tasks && CutOff(tasks - {id}, left, tasks[id].children)
    ensures CutOff(tasks, left, [id])
  {
    var rest := tasks - {id};
    forall x | x in tasks && x !in left
      ensures x in [id] || HasGoneParent(tasks, left, x)
    {
      if x != id && x !in tasks[id].children {
        var parent :| parent in rest && parent !in left && x in rest[parent].children;
        assert parent in tasks && x in tasks[parent].children;
      }
    }
  }

  lemma {:induction false} AllCutOff(tasks: Tasks, ids: seq<TaskId>)
    ensures CutOff(tasks, RemoveAll(tasks, ids), ids)
    decreases |tasks|, 1 + |ids|
  {
    if ids != [] {
      var mid := RemoveSubtree(tasks, ids[0]);
      SubtreeCutOff(tasks, ids[0]);
      AllCutOff(mid, ids[1..]);
      CutTwice(tasks, mid, RemoveAll(mid, ids[1..]), ids);
    }
  }

  lemma CutTwice(tasks: Tasks, mid: Tasks, left: Tasks, ids: seq<TaskId>)
    requires ids != [] && CutOff(tasks, mid, [ids[0]]) && CutOff(mid, left, ids[1..])
    ensures CutOff(tasks, left, ids)
  {
    forall id | id in tasks && id !in left
      ensures id in ids || HasGoneParent(tasks, left, id)
    {
      if id !in mid {
        if id != ids[0] {
          var parent :| parent in tasks && parent !in mid && id in tasks[parent].children;
          assert parent !in left;
        }
      } else if id !in ids[1..] {
        var parent :| parent in mid && parent !in left && id in mid[parent].children;
        assert parent in tasks && id in tasks[parent].children;
      }
    }
  }

  // ----- a settled root's subtree -----

  /** Everything in a settled root's subtree has settled, and nothing in it but the root is a root. */
  lemma {:induction false} GoneEnded(tasks: Tasks, left: Tasks, root: TaskId, id: TaskId)
    requires Sound(tasks) && CutOff(tasks, left, [root]) && root in tasks && Ended(tasks[root])
    requires id in tasks && id !in left
    ensures Ended(tasks[id]) && (id != root ==> tasks[id].info.parent.Some?)
    decreases tasks[id].seq_
  {
    if id != root {
      var parent :| parent in tasks && parent !in left && id in tasks[parent].children;
      assert tasks[id].info.parent == Some(parent);
      GoneEnded(tasks, left, root, parent);
      assert Live(tasks, parent) == {};
      assert id in Live(tasks, parent) <==> !Ended(tasks[id]);
    }
  }

  lemma LeftLinked(tasks: Tasks, left: Tasks, root: TaskId)
    requires Linked(tasks) && CutOff(tasks, left, [root]) && root in tasks && tasks[root].info.parent.None?
    ensures Linked(left)
  {
    forall id, child | id in left && child in left[id].children
      ensures child in left && left[child].info.parent == Some(id)
    {
      ChildLeft(tasks, left, root, id, child);
    }
    forall id | id in left && left[id].info.parent.Some?
      ensures left[id].info.parent.value in left
    {
      ParentLeft(tasks, left, root, id);
    }
    hide CutOff;
  }

  lemma ParentLeft(tasks: Tasks, left: Tasks, root: TaskId, id: TaskId)
    requires Linked(tasks) && CutOff(tasks, left, [root]) && id in left && left[id].info.parent.Some?
    ensures left[id].info.parent.value in left
  {
  }

  lemma ChildLeft(tasks: Tasks, left: Tasks, root: TaskId, id: TaskId, child: TaskId)
    requires Linked(tasks) && CutOff(tasks, left, [root]) && root in tasks && tasks[root].info.parent.None?
    requires id in left && child in left[id].children
    ensures child in left && left[child].info.parent == Some(id)
  {
    assert tasks[child].info.parent == Some(id);
    forall parent | parent in tasks && child in tasks[parent].children
      ensures parent in left
    {
      assert tasks[child].info.parent == Some(parent);
    }
  }

  lemma LeftCounted(tasks: Tasks, left: Tasks)
    requires Linked(left) && Counted(tasks) && Within(left, tasks)
    ensures Counted(left)
  {
    forall id | id in left
      ensures left[id].liveChildren == |Live(left, id)|
    {
      assert Live(left, id) == Live(tasks, id);
    }
  }

  lemma RootEvicted(tasks: Tasks, root: TaskId)
    requires Sound(tasks) && root in tasks && tasks[root].info.parent.None? && Ended(tasks[root])
    ensures var left := RemoveSubtree(tasks, root);
            && Sound(left) && Within(left, tasks) && root !in left
            && (forall id :: id in tasks && id !in left ==> Ended(tasks[id]) && (id != root ==> tasks[id].info.parent.Some?))
  {
    var left := RemoveSubtree(tasks, root);
    SubtreeCutOff(tasks, root);
    LeftLinked(tasks, left, root);
    LeftCounted(tasks, left);
    assert root in [root];
    hide RemoveSubtree, RemoveAll, Linked, Counted;
    forall id | id in tasks && id !in left
      ensures Ended(tasks[id]) && (id != root ==> tasks[id].info.parent.Some?)
    {
      GoneEnded(tasks, left, root, id);
    }
  }

  // ----- retention -----

  /** `roots` is every settled root, once each. */
  ghost predicate RootsExact(tasks: Tasks, roots: seq<TaskId>) {
    && Distinct(roots)
    && (forall id :: id in roots <==> id in tasks && tasks[id].info.parent.None? && Ended(tasks[id]))
  }

  /** The last `n` of a sequence, or all of it. */
  function LastOf(ids: seq<TaskId>, n: nat): seq<TaskId> {
    if |ids| <= n then ids else ids[|ids| - n..]
  }

  /** What eviction leaves of the tasks: whole subtrees, and only settled ones gone. */
  ghost predicate EvictedFrom(left: Tasks, tasks: Tasks) {
    && Sound(left) && Within(left, tasks)
    && forall id :: id in tasks && id !in left ==> Ended(tasks[id])
  }

  lemma {:induction false} EvictionKeeps(tasks: Tasks, roots: seq<TaskId>, retained: nat)
    requires Sound(tasks) && RootsExact(tasks, roots)
    ensures var (left, kept) := Evicted(tasks, roots, retained);
            EvictedFrom(left, tasks) && RootsExact(left, kept) && kept == LastOf(roots, retained)
    decreases |roots|
  {
    hide Sound, RootsExact, EvictedFrom, RemoveSubtree;
    if |roots| > retained {
      var oldest := roots[0];
      var rest := RemoveSubtree(tasks, oldest);
      OldestEvicted(tasks, roots);
      EvictionKeeps(rest, roots[1..], retained);
      var (left, kept) := Evicted(tasks, roots, retained);
      assert LastOf(roots[1..], retained) == LastOf(roots, retained);
      EvictedTwice(left, rest, tasks);
    } else {
      NoneEvicted(tasks);
    }
  }

  lemma NoneEvicted(tasks: Tasks)
    requires Sound(tasks)
    ensures EvictedFrom(tasks, tasks)
  {
  }

  lemma OldestEvicted(tasks: Tasks, roots: seq<TaskId>)
    requires Sound(tasks) && RootsExact(tasks, roots) && roots != []
    ensures var rest := RemoveSubtree(tasks, roots[0]);
            EvictedFrom(rest, tasks) && Sound(rest) && RootsExact(rest, roots[1..])
  {
    assert roots[0] in roots;
    RootEvicted(tasks, roots[0]);
    hide RemoveSubtree, Sound;
    RestExact(tasks, RemoveSubtree(tasks, roots[0]), roots);
  }

  lemma EvictedTwice(left: Tasks, rest: Tasks, tasks: Tasks)
    requires EvictedFrom(left, rest) && EvictedFrom(rest, tasks)
    ensures EvictedFrom(left, tasks)
  {
  }

  lemma RestExact(tasks: Tasks, rest: Tasks, roots: seq<TaskId>)
    requires roots != [] && RootsExact(tasks, roots) && Within(rest, tasks) && roots[0] !in rest
    requires forall id :: id in tasks && id !in rest ==> id != roots[0] ==> tasks[id].info.parent.Some?
    ensures RootsExact(rest, roots[1..])
  {
    assert forall id :: id in roots <==> id == roots[0] || id in roots[1..];
  }
}

/** The tree over whole runs. */
module Family {
  import opened Wrappers
  import Throttle
  import opened Registry
  import opened Scheduler
  import opened Steps
  import opened Eviction

  /** The states a task may show while its driver is at a place. */
  predicate Shows(pc: Pc, state: TaskState) {
    match pc
    case AtLeave(outcome) => state.Queued? && (outcome.Failed? || outcome.Cancelled?)
    case AtLeaveNotify(outcome) => state.Queued? && (outcome.Failed? || outcome.Cancelled?)
    case InBody => state.Running?
    case AtCancelling => state.Running?
    case InCancelledBody => state.Cancelling?
    case AtSettle(outcome) =>
      outcome.Terminal() && !state.Terminal() && (state.Queued? ==> outcome.Failed? || outcome.Cancelled?)
    case AtSettleNotify => state.Terminal()
    case Finished => state.Terminal()
    case _ => if BeforeBody(pc) then state.Queued? else state.Running? || state.Cancelling?
  }

  /** A task has children only once its body has started, and none still live once it is about to settle. */
  predicate Fits(pc: Pc, e: Entry) {
    && Shows(pc, e.info.state)
    && (BeforeBody(pc) ==> e.children == [])
    && (pc.AtOutcome? || pc.AtSettle? || HasSettled(pc) ==> e.liveChildren == 0)
  }

  /** Every task has its driver, and every driver that has not settled its task. */
  ghost predicate Matched(drivers: map<TaskId, Driver>, tasks: Tasks) {
    && (forall id :: id in tasks ==> id in drivers && Fits(drivers[id].pc, tasks[id]))
    && (forall id :: id in drivers && !HasSettled(drivers[id].pc) ==> id in tasks)
  }

  ghost predicate Below(tasks: Tasks, next: nat) {
    forall id :: id in tasks ==> tasks[id].seq_ < next
  }

  ghost predicate Whole(s: Sys) {
    && Matched(s.drivers, s.reg.tasks)
    && Sound(s.reg.tasks)
    && RootsExact(s.reg.tasks, s.reg.settledRoots)
    && |s.reg.settledRoots| <= s.cfg.retainedRoots
    && Below(s.reg.tasks, s.reg.nextSeq)
  }

  // ----- steps that write no task -----

  /** Nothing a driver does between writes stops its place from fitting its task. */
  lemma DriverFits(step: Step, was: Driver, now: Driver, e: Entry)
    requires Fits(was.pc, e) && Places(step, was.pc) && Goes(step, was, now) && Mover(step).Some?
    requires !WritesTasks(step)
    requires now.pc.AtOutcome? ==> e.liveChildren == 0
    requires step.Conclude? ==> step.outcome.Terminal()
    requires e.children == [] ==> e.liveChildren == 0
    ensures Fits(now.pc, e) && HasSettled(now.pc) == HasSettled(was.pc)
  {
  }

  lemma CheckedToSettle(s: Sys, step: Step)
    requires Enabled(s, step)
    ensures step.Conclude? ==> step.outcome.Terminal()
    ensures var t := Next(s, step);
            step.FinishCheck? ==>
              step.id in t.drivers && (t.drivers[step.id].pc.AtOutcome? && step.id in s.reg.tasks ==> s.reg.tasks[step.id].liveChildren == 0)
  {
    hide LiveChildren, IsCancelled;
    if !step.FinishCheck? {
      hide Next;
    }
  }

  lemma ChildlessNoneLive(tasks: Tasks)
    requires Counted(tasks)
    ensures forall id :: id in tasks && tasks[id].children == [] ==> tasks[id].liveChildren == 0
  {
    forall id | id in tasks && tasks[id].children == []
      ensures tasks[id].liveChildren == 0
    {
      assert Live(tasks, id) == {};
    }
  }

  lemma StayingKeeps(s: Sys, step: Step)
    requires Whole(s) && Enabled(s, step) && !WritesTasks(step)
    ensures Matched(Next(s, step).drivers, s.reg.tasks)
  {
    ChildlessNoneLive(s.reg.tasks);
    assert !Starts(step);
    hide Next, Enabled, Fits, Sound, RootsExact, WritesTasks, HasSettled;
    forall id | id in s.reg.tasks
      ensures id in Next(s, step).drivers && Fits(Next(s, step).drivers[id].pc, s.reg.tasks[id])
    {
      StayingFits(s, step, id);
    }
    forall id | id in Next(s, step).drivers && !HasSettled(Next(s, step).drivers[id].pc)
      ensures id in s.reg.tasks
    {
      StayingSettled(s, step, id);
    }
  }

  lemma StayingFits(s: Sys, step: Step, id: TaskId)
    requires Enabled(s, step) && !WritesTasks(step) && id in s.reg.tasks && id in s.drivers
    requires Fits(s.drivers[id].pc, s.reg.tasks[id]) && (s.reg.tasks[id].children == [] ==> s.reg.tasks[id].liveChildren == 0)
    ensures id in Next(s, step).drivers && Fits(Next(s, step).drivers[id].pc, s.reg.tasks[id])
  {
    DriverStep(s, step, id);
    CheckedToSettle(s, step);
    MoverNamed(step);
    hide Next, Enabled, Places, Goes, Mover, Fits;
    if Mover(step) == Some(id) {
      DriverFits(step, s.drivers[id], Next(s, step).drivers[id], s.reg.tasks[id]);
    }
  }

  /** A driver not settled after a step that starts no one was not settled before it. */
  lemma StayingSettled(s: Sys, step: Step, id: TaskId)
    requires Enabled(s, step) && !Starts(step) && id in Next(s, step).drivers && !HasSettled(Next(s, step).drivers[id].pc)
    ensures id in s.drivers && !HasSettled(s.drivers[id].pc)
  {
    DriverStep(s, step, id);
    hide Next, Enabled, Places, Goes, Mover;
    if Mover(step) == Some(id) && HasSettled(s.drivers[id].pc) {
      SettledStays(step, s.drivers[id], Next(s, step).drivers[id]);
    }
  }

  lemma SettledStays(step: Step, was: Driver, now: Driver)
    requires HasSettled(was.pc) && Places(step, was.pc) && Goes(step, was, now) && Mover(step).Some? && !Starts(step)
    ensures HasSettled(now.pc)
  {
  }

  // ----- steps that write a task's state or progress -----

  predicate WritesInfo(step: Step) {
    step.NoteQueued? || step.Launch? || step.NoteCancelling? || step.ReportProgress? || step.FlushProgress?
  }

  predicate SameShape(e: Entry, was: Entry) {
    && e.seq_ == was.seq_ && e.children == was.children && e.liveChildren == was.liveChildren
    && e.info.id == was.info.id && e.info.parent == was.info.parent && e.info.settled == was.info.settled
    && e.info.cls == was.info.cls && e.info.submitted == was.info.submitted
  }

  /** The state such a step leaves its task in. */
  predicate StateAfter(step: Step, now: TaskState, was: TaskState) {
    match step
    case NoteQueued(_) => now.Queued?
    case Launch(_) => now == Running
    case NoteCancelling(_) => now == Cancelling
    case _ => now == was
  }

  ghost predicate OneWritten(tasks: Tasks, was: Tasks, step: Step)
    requires WritesInfo(step)
  {
    && tasks.Keys == was.Keys
    && (forall id :: id in was && id != step.id ==> tasks[id] == was[id])
    && (step.id in was ==> SameShape(tasks[step.id], was[step.id]) && StateAfter(step, tasks[step.id].info.state, was[step.id].info.state))
  }

  lemma InfoWritten(s: Sys, step: Step)
    requires Enabled(s, step) && WritesInfo(step)
    ensures OneWritten(Next(s, step).reg.tasks, s.reg.tasks, step)
    ensures Next(s, step).reg.settledRoots == s.reg.settledRoots
  {
    hide IsCancelled;
    if step.ReportProgress? || step.FlushProgress? {
      ProgressWritten(s, step);
    }
  }

  lemma ProgressWritten(s: Sys, step: Step)
    requires Enabled(s, step) && (step.ReportProgress? || step.FlushProgress?)
    ensures OneWritten(Next(s, step).reg.tasks, s.reg.tasks, step)
    ensures Next(s, step).reg.settledRoots == s.reg.settledRoots
  {
    hide ProgressReported, ProgressFlushed, OnlyProgress;
    match step
    case ReportProgress(id, progress, now) =>
      ReportShape(s.reg, id, progress, now, s.cfg.progressInterval);
      OnlyProgressWritten(Next(s, step).reg, s.reg, step);
    case FlushProgress(id, _, now) =>
      FlushShape(s.reg, id, now);
      OnlyProgressWritten(Next(s, step).reg, s.reg, step);
  }

  lemma OnlyProgressWritten(r: Registry, was: Registry, step: Step)
    requires (step.ReportProgress? || step.FlushProgress?) && OnlyProgress(r, was, step.id)
    ensures OneWritten(r.tasks, was.tasks, step) && r.settledRoots == was.settledRoots
  {
    hide SameShape;
  }

  /** A change to one task's progress and throttle and nothing else. */
  ghost predicate OnlyProgress(r: Registry, was: Registry, id: TaskId) {
    && r.settledRoots == was.settledRoots && r.tasks.Keys == was.tasks.Keys
    && (forall other :: other in was.tasks && other != id ==> r.tasks[other] == was.tasks[other])
    && (id in was.tasks ==> SameShape(r.tasks[id], was.tasks[id]) && r.tasks[id].info.state == was.tasks[id].info.state)
  }

  lemma ReportShape(r: Registry, id: TaskId, progress: Throttle.Progress, now: nat, interval: nat)
    ensures OnlyProgress(ProgressReported(r, id, progress, now, interval).0, r, id)
  {
    hide Throttle.Report;
  }

  lemma FlushShape(r: Registry, id: TaskId, now: nat)
    ensures OnlyProgress(ProgressFlushed(r, id, now).0, r, id)
  {
    hide Throttle.Flush;
  }

  lemma ShapeKept(tasks: Tasks, was: Tasks, roots: seq<TaskId>, next: nat)
    requires Sound(was) && RootsExact(was, roots) && Below(was, next)
    requires tasks.Keys == was.Keys
    requires forall id :: id in was ==> SameShape(tasks[id], was[id]) && Ended(tasks[id]) == Ended(was[id])
    ensures Sound(tasks) && RootsExact(tasks, roots) && Below(tasks, next)
  {
    ShapeLinked(tasks, was);
    forall id | id in tasks
      ensures tasks[id].liveChildren == |Live(tasks, id)|
    {
      ShapeLive(tasks, was, id);
    }
    ShapeListed(tasks, was, roots, next);
    hide Linked, EndedLast, RootsExact, Below, SameShape, Live;
  }

  lemma ShapeLinked(tasks: Tasks, was: Tasks)
    requires Linked(was) && tasks.Keys == was.Keys
    requires forall id :: id in was ==> SameShape(tasks[id], was[id])
    ensures Linked(tasks)
  {
    forall id | id in was
      ensures tasks[id].children == was[id].children && tasks[id].seq_ == was[id].seq_
      ensures tasks[id].info.parent == was[id].info.parent && tasks[id].info.id == was[id].info.id
    {
    }
    hide SameShape;
  }

  lemma ShapeLive(tasks: Tasks, was: Tasks, id: TaskId)
    requires id in was && tasks.Keys == was.Keys
    requires forall id :: id in was ==> SameShape(tasks[id], was[id]) && Ended(tasks[id]) == Ended(was[id])
    ensures Live(tasks, id) == Live(was, id) && tasks[id].liveChildren == was[id].liveChildren
  {
    hide Ended;
  }

  lemma ShapeListed(tasks: Tasks, was: Tasks, roots: seq<TaskId>, next: nat)
    requires EndedLast(was) && RootsExact(was, roots) && Below(was, next) && tasks.Keys == was.Keys
    requires forall id :: id in was ==> SameShape(tasks[id], was[id]) && Ended(tasks[id]) == Ended(was[id])
    ensures EndedLast(tasks) && RootsExact(tasks, roots) && Below(tasks, next)
  {
    hide Ended;
  }

  /** A place fits what it is written there. */
  lemma WrittenFits(step: Step, was: Driver, now: Driver, e: Entry, wasE: Entry)
    requires WritesInfo(step) && Fits(was.pc, wasE) && Places(step, was.pc)
    requires if Mover(step).Some? then Goes(step, was, now) else now.pc == was.pc
    requires SameShape(e, wasE) && StateAfter(step, e.info.state, wasE.info.state)
    ensures Fits(now.pc, e) && HasSettled(now.pc) == HasSettled(was.pc) && Ended(e) == Ended(wasE)
  {
  }

  lemma WritingKeeps(s: Sys, step: Step)
    requires Whole(s) && Enabled(s, step) && WritesInfo(step)
    ensures Whole(Next(s, step))
  {
    InfoWritten(s, step);
    NextSeqKept(s, step);
    SameConfig(s, step);
    MoverOfWrite(step);
    hide Next, Enabled, Fits, Sound, RootsExact, StateAfter, SameShape, Ended, Below, HasSettled, WritesInfo, Mover;
    forall id | id in s.reg.tasks
      ensures WrittenAt(Next(s, step), s, id)
    {
      WritingFits(s, step, id);
    }
    forall id | id in Next(s, step).drivers && !HasSettled(Next(s, step).drivers[id].pc)
      ensures id in Next(s, step).reg.tasks
    {
      StayingSettled(s, step, id);
    }
    AllWritten(Next(s, step), s);
  }

  lemma SameConfig(s: Sys, step: Step)
    requires Enabled(s, step)
    ensures Next(s, step).cfg == s.cfg
  {
    OthersStay(s, step);
    hide Next, Enabled;
  }

  /** A task before and after its entry was written, or another's. */
  ghost predicate WrittenAt(t: Sys, s: Sys, id: TaskId)
    requires id in s.reg.tasks
  {
    && id in t.reg.tasks && id in t.drivers
    && Fits(t.drivers[id].pc, t.reg.tasks[id])
    && SameShape(t.reg.tasks[id], s.reg.tasks[id]) && Ended(t.reg.tasks[id]) == Ended(s.reg.tasks[id])
  }

  lemma WritingFits(s: Sys, step: Step, id: TaskId)
    requires Enabled(s, step) && WritesInfo(step) && id in s.reg.tasks && id in s.drivers
    requires Fits(s.drivers[id].pc, s.reg.tasks[id]) && OneWritten(Next(s, step).reg.tasks, s.reg.tasks, step)
    ensures WrittenAt(Next(s, step), s, id)
  {
    DriverStep(s, step, id);
    MoverOfWrite(step);
    hide Next, Enabled, Places, Mover, Fits, OneWritten, DriverAfter, WrittenAt;
    WrittenMoves(Next(s, step), s, step, id);
  }

  lemma WrittenMoves(t: Sys, s: Sys, step: Step, id: TaskId)
    requires WritesInfo(step) && id in s.reg.tasks && id in s.drivers && DriverAfter(t, s, step, id)
    requires Fits(s.drivers[id].pc, s.reg.tasks[id]) && OneWritten(t.reg.tasks, s.reg.tasks, step)
    requires (Mover(step) == Some(step.id) || (Mover(step).None? && forall pc :: Places(step, pc))) && !Starts(step)
    ensures WrittenAt(t, s, id)
  {
    hide Places, Goes, Mover, Fits, SameShape, StateAfter, Ended;
    if id == step.id {
      WrittenFits(step, s.drivers[id], t.drivers[id], t.reg.tasks[id], s.reg.tasks[id]);
    } else {
      SameShapeItself(s.reg.tasks[id]);
    }
  }

  lemma AllWritten(t: Sys, s: Sys)
    requires Whole(s) && t.cfg == s.cfg && t.reg.settledRoots == s.reg.settledRoots && t.reg.nextSeq == s.reg.nextSeq
    requires t.reg.tasks.Keys == s.reg.tasks.Keys
    requires forall id :: id in s.reg.tasks ==> WrittenAt(t, s, id)
    requires forall id :: id in t.drivers && !HasSettled(t.drivers[id].pc) ==> id in t.reg.tasks
    ensures Whole(t)
  {
    hide Fits, Sound, RootsExact, Below, SameShape, Ended, HasSettled;
    forall id | id in s.reg.tasks
      ensures id in t.drivers && Fits(t.drivers[id].pc, t.reg.tasks[id])
      ensures SameShape(t.reg.tasks[id], s.reg.tasks[id]) && Ended(t.reg.tasks[id]) == Ended(s.reg.tasks[id])
    {
      assert WrittenAt(t, s, id);
    }
    ShapeKept(t.reg.tasks, s.reg.tasks, s.reg.settledRoots, s.reg.nextSeq);
  }

  lemma MoverOfWrite(step: Step)
    requires WritesInfo(step)
    ensures (Mover(step) == Some(step.id) || (Mover(step).None? && forall pc :: Places(step, pc))) && !Starts(step)
  {
  }

  lemma SameShapeItself(e: Entry)
    ensures SameShape(e, e)
  {
  }

  // ----- a new task -----

  /** One more task, childless, the last of its parent's children if it has a parent. */
  ghost predicate Grown(tasks: Tasks, was: Tasks, parent: Option<TaskId>, id: TaskId) {
    && id !in was && tasks.Keys == was.Keys + {id}
    && (parent.Some? ==> parent.value in was)
    && (forall other :: other in was && parent != Some(other) ==> tasks[other] == was[other])
    && (parent.Some? ==>
          tasks[parent.value] == was[parent.value].(children := was[parent.value].children + [id],
                                                    liveChildren := was[parent.value].liveChildren + 1))
    && tasks[id].info.id == id && tasks[id].info.parent == parent && tasks[id].info.state == Queued(None)
    && tasks[id].children == [] && tasks[id].liveChildren == 0
  }

  function ParentOf(step: Step): Option<TaskId> {
    if step.Spawn? then Some(step.parent) else None
  }

  lemma StartedGrown(s: Sys, step: Step)
    requires Enabled(s, step) && Starts(step) && step.id !in s.reg.tasks
    requires step.Spawn? ==> step.parent in s.reg.tasks
    ensures var t := Next(s, step);
            && Grown(t.reg.tasks, s.reg.tasks, ParentOf(step), step.id)
            && t.reg.settledRoots == s.reg.settledRoots && t.reg.nextSeq == s.reg.nextSeq + 1
            && t.reg.tasks[step.id].seq_ == s.reg.nextSeq
  {
    StarterStarts(s, step);
    hide Next, Enabled, TicketFor, Enqueued;
  }

  lemma GrownLinked(tasks: Tasks, was: Tasks, parent: Option<TaskId>, id: TaskId)
    requires Linked(was) && Grown(tasks, was, parent, id) && Below(was, tasks[id].seq_)
    ensures Linked(tasks)
  {
    forall other | other in was
      ensures GrownAt(tasks, was, parent, id, other) && Distinct(tasks[other].children)
    {
      GrownChildren(tasks, was, parent, id, other);
    }
    GrownLeaf(tasks, was, parent, id);
    hide Grown, Distinct;
    GrownLinks(tasks, was, parent, id);
  }

  lemma GrownLeaf(tasks: Tasks, was: Tasks, parent: Option<TaskId>, id: TaskId)
    requires Grown(tasks, was, parent, id)
    ensures id !in was && id in tasks && tasks.Keys == was.Keys + {id} && Distinct(tasks[id].children)
    ensures tasks[id].info.id == id && tasks[id].info.parent == parent && (forall child :: child !in tasks[id].children)
    ensures parent.Some? ==> parent.value in was
  {
  }

  lemma GrownLinks(tasks: Tasks, was: Tasks, parent: Option<TaskId>, id: TaskId)
    requires Linked(was) && id !in was && id in tasks && tasks.Keys == was.Keys + {id} && Below(was, tasks[id].seq_)
    requires Distinct(tasks[id].children) && tasks[id].info.id == id && tasks[id].info.parent == parent
    requires forall child :: child !in tasks[id].children
    requires parent.Some? ==> parent.value in was
    requires forall other :: other in was ==> GrownAt(tasks, was, parent, id, other) && Distinct(tasks[other].children)
    ensures Linked(tasks)
  {
    hide Distinct;
    if parent.Some? {
      assert GrownAt(tasks, was, parent, id, parent.value);
    }
  }

  /** How a task other than the new one stands afterwards. */
  ghost predicate GrownAt(tasks: Tasks, was: Tasks, parent: Option<TaskId>, id: TaskId, other: TaskId)
    requires other in was
  {
    && other in tasks && tasks[other].info == was[other].info && tasks[other].seq_ == was[other].seq_
    && forall child :: child in tasks[other].children <==> child in was[other].children || (parent == Some(other) && child == id)
  }

  lemma GrownChildren(tasks: Tasks, was: Tasks, parent: Option<TaskId>, id: TaskId, other: TaskId)
    requires Linked(was) && Grown(tasks, was, parent, id) && other in was
    ensures GrownAt(tasks, was, parent, id, other) && Distinct(tasks[other].children)
  {
    assert id !in was[other].children;
  }

  lemma GrownCounted(tasks: Tasks, was: Tasks, parent: Option<TaskId>, id: TaskId)
    requires Linked(was) && Counted(was) && Grown(tasks, was, parent, id)
    ensures Counted(tasks)
  {
    forall other | other in tasks
      ensures tasks[other].liveChildren == |Live(tasks, other)|
    {
      if other == id {
        assert Live(tasks, id) == {};
      } else {
        GrownLive(tasks, was, parent, id, other);
      }
    }
  }

  lemma GrownLive(tasks: Tasks, was: Tasks, parent: Option<TaskId>, id: TaskId, other: TaskId)
    requires Linked(was) && Grown(tasks, was, parent, id) && other in was && was[other].liveChildren == |Live(was, other)|
    ensures tasks[other].liveChildren == |Live(tasks, other)|
  {
    GrownInfos(tasks, was, parent, id);
    GrownChildren(tasks, was, parent, id, other);
    OwnChildren(was, other);
    GrownCount(tasks, was, parent, id, other);
    hide Linked, Grown;
    LiveGrows(tasks, was, parent, id, other);
  }

  lemma GrownCount(tasks: Tasks, was: Tasks, parent: Option<TaskId>, id: TaskId, other: TaskId)
    requires Grown(tasks, was, parent, id) && other in was
    ensures other in tasks && tasks[other].liveChildren == was[other].liveChildren + if parent == Some(other) then 1 else 0
  {
  }

  lemma LiveGrows(tasks: Tasks, was: Tasks, parent: Option<TaskId>, id: TaskId, other: TaskId)
    requires other in was && id !in was && id in tasks && !Ended(tasks[id]) && GrownAt(tasks, was, parent, id, other)
    requires forall x :: x in was ==> x in tasks && tasks[x].info == was[x].info
    requires forall child :: child in was[other].children ==> child in was
    ensures |Live(tasks, other)| == |Live(was, other)| + if parent == Some(other) then 1 else 0
  {
    hide Ended;
    forall child | child in was
      ensures Ended(tasks[child]) == Ended(was[child])
    {
      SameEnded(tasks[child], was[child]);
    }
    if parent == Some(other) {
      assert Live(tasks, other) == Live(was, other) + {id};
    } else {
      assert Live(tasks, other) == Live(was, other);
    }
  }

  lemma SameEnded(e: Entry, was: Entry)
    requires e.info == was.info
    ensures Ended(e) == Ended(was)
  {
  }

  lemma GrownInfos(tasks: Tasks, was: Tasks, parent: Option<TaskId>, id: TaskId)
    requires Grown(tasks, was, parent, id)
    ensures forall x :: x in was ==> x in tasks && tasks[x].info == was[x].info
    ensures id !in was && id in tasks && !Ended(tasks[id])
  {
  }

  lemma OwnChildren(tasks: Tasks, id: TaskId)
    requires Linked(tasks) && id in tasks
    ensures forall child :: child in tasks[id].children ==> child in tasks
  {
  }

  lemma GrownEndedLast(tasks: Tasks, was: Tasks, parent: Option<TaskId>, id: TaskId, roots: seq<TaskId>)
    requires EndedLast(was) && RootsExact(was, roots) && Grown(tasks, was, parent, id)
    requires parent.Some? ==> !Ended(was[parent.value])
    ensures EndedLast(tasks) && RootsExact(tasks, roots)
  {
  }

  lemma RunningFits(pc: Pc, e: Entry, was: Entry)
    requires BodyRuns(pc) && Fits(pc, was) && e.info == was.info
    ensures Fits(pc, e) && !Ended(was) && !HasSettled(pc)
  {
  }

  lemma GrownBelow(tasks: Tasks, was: Tasks, parent: Option<TaskId>, id: TaskId, next: nat)
    requires Grown(tasks, was, parent, id) && Below(was, next) && tasks[id].seq_ == next
    ensures Below(tasks, next + 1)
  {
  }

  lemma GrownFits(tasks: Tasks, was: Tasks, parent: Option<TaskId>, id: TaskId)
    requires Grown(tasks, was, parent, id)
    ensures Fits(AtEnter, tasks[id])
  {
  }

  lemma StartKeeps(s: Sys, step: Step)
    requires Whole(s) && Enabled(s, step) && Starts(step)
    ensures Whole(Next(s, step))
  {
    hide Next, Enabled, Matched, Linked, Counted, EndedLast, RootsExact, Below, Grown;
    var t, id, parent := Next(s, step), step.id, ParentOf(step);
    StartFitting(s, step);
    GrownLinked(t.reg.tasks, s.reg.tasks, parent, id);
    GrownCounted(t.reg.tasks, s.reg.tasks, parent, id);
    GrownEndedLast(t.reg.tasks, s.reg.tasks, parent, id, s.reg.settledRoots);
    GrownBelow(t.reg.tasks, s.reg.tasks, parent, id, s.reg.nextSeq);
    StartMatched(s, step);
    OthersStay(s, step);
  }

  lemma StartFitting(s: Sys, step: Step)
    requires Matched(s.drivers, s.reg.tasks) && Enabled(s, step) && Starts(step)
    ensures var t, parent := Next(s, step), ParentOf(step);
            && Grown(t.reg.tasks, s.reg.tasks, parent, step.id)
            && t.reg.settledRoots == s.reg.settledRoots && t.reg.nextSeq == s.reg.nextSeq + 1
            && t.reg.tasks[step.id].seq_ == s.reg.nextSeq
            && (parent.Some? ==> BodyRuns(s.drivers[parent.value].pc) && !Ended(s.reg.tasks[parent.value]))
  {
    StarterStarts(s, step);
    hide Next, Enabled, Started, TicketFor, Grown;
    if step.Spawn? {
      RunningFits(s.drivers[step.parent].pc, s.reg.tasks[step.parent], s.reg.tasks[step.parent]);
    }
    StartedGrown(s, step);
  }

  lemma StartMatched(s: Sys, step: Step)
    requires Matched(s.drivers, s.reg.tasks) && Enabled(s, step) && Starts(step)
    ensures Matched(Next(s, step).drivers, Next(s, step).reg.tasks)
  {
    OthersStay(s, step);
    StartEnters(s, step);
    StartFitting(s, step);
    hide *;
    MatchedGrows(Next(s, step), s, step);
  }

  lemma MatchedGrows(t: Sys, s: Sys, step: Step)
    requires Matched(s.drivers, s.reg.tasks) && Starts(step) && OneMoves(s, t, step) && StarterEnters(t, s, step)
    requires Grown(t.reg.tasks, s.reg.tasks, ParentOf(step), step.id)
    requires ParentOf(step).Some? ==>
               BodyRuns(s.drivers[ParentOf(step).value].pc) && !Ended(s.reg.tasks[ParentOf(step).value])
    ensures Matched(t.drivers, t.reg.tasks)
  {
    GrownFits(t.reg.tasks, s.reg.tasks, ParentOf(step), step.id);
    hide Fits, Mover, HasSettled, ParentOf, Starts;
    forall other | other in t.reg.tasks && other != step.id
      ensures other in t.drivers && Fits(t.drivers[other].pc, t.reg.tasks[other])
    {
      OtherFits(t, s, step, other);
    }
    NewDrivers(t, s, step);
  }

  lemma OtherFits(t: Sys, s: Sys, step: Step, other: TaskId)
    requires Matched(s.drivers, s.reg.tasks) && Starts(step) && OneMoves(s, t, step) && StarterEnters(t, s, step)
    requires Grown(t.reg.tasks, s.reg.tasks, ParentOf(step), step.id) && other in t.reg.tasks && other != step.id
    requires ParentOf(step).Some? ==>
               BodyRuns(s.drivers[ParentOf(step).value].pc) && !Ended(s.reg.tasks[ParentOf(step).value])
    ensures other in t.drivers && Fits(t.drivers[other].pc, t.reg.tasks[other])
  {
    hide Fits, Mover, HasSettled, ParentOf;
    assert Untouched(s.drivers[other], t.drivers[other]);
    if ParentOf(step) == Some(other) {
      RunningFits(s.drivers[other].pc, t.reg.tasks[other], s.reg.tasks[other]);
    }
  }

  lemma NewDrivers(t: Sys, s: Sys, step: Step)
    requires Matched(s.drivers, s.reg.tasks) && Starts(step) && OneMoves(s, t, step) && StarterEnters(t, s, step)
    requires Grown(t.reg.tasks, s.reg.tasks, ParentOf(step), step.id)
    ensures forall other :: other in t.drivers && !HasSettled(t.drivers[other].pc) ==> other in t.reg.tasks
  {
    hide Fits, ParentOf;
  }

  // ----- a task settling -----

  /** The same but for the state and the time settled, and no progress held back. */
  predicate Flushed(e: Entry, was: Entry) {
    && e.info == was.info.(state := e.info.state, settled := e.info.settled)
    && e.throttle == was.throttle.(pending := false)
  }

  /** One task's entry ended and nothing else. */
  ghost predicate EndedOne(tasks: Tasks, was: Tasks, id: TaskId) {
    && id in was && tasks.Keys == was.Keys
    && (forall other :: other in was && other != id ==> tasks[other] == was[other])
    && tasks[id].children == was[id].children && tasks[id].liveChildren == was[id].liveChildren
    && tasks[id].seq_ == was[id].seq_ && tasks[id].info.id == was[id].info.id && tasks[id].info.parent == was[id].info.parent
    && Flushed(tasks[id], was[id])
    && Ended(tasks[id])
  }

  lemma EndedLinked(tasks: Tasks, was: Tasks, id: TaskId)
    requires Linked(was) && EndedOne(tasks, was, id)
    ensures Linked(tasks)
  {
    forall other | other in was
      ensures tasks[other].children == was[other].children && tasks[other].seq_ == was[other].seq_
      ensures tasks[other].info.parent == was[other].info.parent && tasks[other].info.id == was[other].info.id
    {
    }
    hide EndedOne;
  }

  /** The parent's live children lose the one that ended; everyone else's stay. */
  lemma EndedLive(tasks: Tasks, was: Tasks, id: TaskId, other: TaskId)
    requires Linked(was) && EndedOne(tasks, was, id) && other in was
    ensures Live(tasks, other) == if was[id].info.parent == Some(other) then Live(was, other) - {id} else Live(was, other)
    ensures was[id].info.parent == Some(other) && !Ended(was[id]) ==> id in Live(was, other)
  {
  }

  lemma RootEnds(tasks: Tasks, was: Tasks, id: TaskId, roots: seq<TaskId>)
    requires Sound(was) && RootsExact(was, roots) && EndedOne(tasks, was, id) && !Ended(was[id])
    requires was[id].info.parent.None? && was[id].liveChildren == 0
    ensures Sound(tasks) && RootsExact(tasks, roots + [id])
  {
    EndedLinked(tasks, was, id);
    RootCounted(tasks, was, id);
    RootListed(tasks, was, id, roots);
    hide Linked, Counted, EndedLast, RootsExact, EndedOne;
  }

  lemma RootCounted(tasks: Tasks, was: Tasks, id: TaskId)
    requires Linked(was) && Counted(was) && EndedOne(tasks, was, id) && was[id].info.parent.None?
    ensures Counted(tasks)
  {
    forall other | other in tasks
      ensures tasks[other].liveChildren == |Live(tasks, other)|
    {
      EndedLive(tasks, was, id, other);
      hide Linked, Live;
    }
  }

  lemma RootListed(tasks: Tasks, was: Tasks, id: TaskId, roots: seq<TaskId>)
    requires EndedLast(was) && RootsExact(was, roots) && EndedOne(tasks, was, id) && !Ended(was[id])
    requires was[id].info.parent.None? && was[id].liveChildren == 0
    ensures EndedLast(tasks) && RootsExact(tasks, roots + [id])
  {
    assert id !in roots;
  }

  /** The parent's count was above zero: taking one from it does not stop at zero. */
  lemma ChildEnds(tasks: Tasks, was: Tasks, id: TaskId, roots: seq<TaskId>)
    requires Sound(was) && RootsExact(was, roots) && EndedOne(tasks, was, id) && !Ended(was[id])
    requires was[id].info.parent.Some? && was[id].liveChildren == 0
    ensures var parent := was[id].info.parent.value;
            var left := WithoutChild(tasks, parent);
            && parent in was && parent != id && was[parent].liveChildren > 0
            && left == tasks[parent := was[parent].(liveChildren := was[parent].liveChildren - 1)]
            && Sound(left) && RootsExact(left, roots)
  {
    var parent := was[id].info.parent.value;
    EndedLinked(tasks, was, id);
    EndedLive(tasks, was, id, parent);
    var left := WithoutChild(tasks, parent);
    assert was[parent].liveChildren > 0 && parent != id && tasks[parent] == was[parent];
    assert left == tasks[parent := was[parent].(liveChildren := was[parent].liveChildren - 1)];
    assert |Live(tasks, parent)| == |Live(was, parent)| - 1;
    CountMoved(left, tasks, was, id, parent);
    OneCountLinked(left, tasks, parent);
    ChildListed(left, tasks, was, id, parent, roots);
    hide Linked, Counted, Live, WithoutChild, EndedLast, RootsExact, EndedOne;
  }

  lemma ChildListed(left: Tasks, tasks: Tasks, was: Tasks, id: TaskId, parent: TaskId, roots: seq<TaskId>)
    requires EndedLast(was) && RootsExact(was, roots) && EndedOne(tasks, was, id)
    requires was[id].info.parent == Some(parent) && was[id].liveChildren == 0
    requires parent in tasks && parent != id && tasks[parent] == was[parent] && was[parent].liveChildren > 0
    requires left == tasks[parent := was[parent].(liveChildren := was[parent].liveChildren - 1)]
    ensures EndedLast(left) && RootsExact(left, roots)
  {
    assert !Ended(was[parent]);
  }

  lemma CountMoved(left: Tasks, tasks: Tasks, was: Tasks, id: TaskId, parent: TaskId)
    requires Linked(was) && Counted(was) && EndedOne(tasks, was, id) && was[id].info.parent == Some(parent)
    requires parent in tasks && was[parent].liveChildren > 0 && |Live(tasks, parent)| == was[parent].liveChildren - 1
    requires left == tasks[parent := was[parent].(liveChildren := was[parent].liveChildren - 1)] && tasks[parent] == was[parent]
    ensures Counted(left)
  {
    forall other | other in left
      ensures left[other].liveChildren == |Live(left, other)|
    {
      EndedLive(tasks, was, id, other);
      OneCountLive(left, tasks, parent, other);
      hide Live, Linked;
    }
  }

  lemma OneCountLive(left: Tasks, tasks: Tasks, parent: TaskId, other: TaskId)
    requires parent in tasks && other in tasks && parent in left && left == tasks[parent := left[parent]]
    requires left[parent] == tasks[parent].(liveChildren := left[parent].liveChildren)
    ensures Live(left, other) == Live(tasks, other)
  {
  }

  lemma OneCountLinked(left: Tasks, tasks: Tasks, parent: TaskId)
    requires Linked(tasks) && parent in tasks && parent in left && left == tasks[parent := left[parent]]
    requires left[parent] == tasks[parent].(liveChildren := left[parent].liveChildren)
    ensures Linked(left)
  {
    forall id | id in tasks
      ensures left[id].children == tasks[id].children && left[id].seq_ == tasks[id].seq_ && left[id].info == tasks[id].info
    {
    }
    SameLinks(left, tasks);
  }

  lemma SameLinks(tasks: Tasks, was: Tasks)
    requires Linked(was) && tasks.Keys == was.Keys
    requires forall id :: id in was ==>
               tasks[id].children == was[id].children && tasks[id].seq_ == was[id].seq_ && tasks[id].info == was[id].info
    ensures Linked(tasks)
  {
  }

  /** What the registry is once a task has settled. */
  ghost predicate Ending(t: Sys, s: Sys, id: TaskId, ended: Tasks) {
    && EndedOne(ended, s.reg.tasks, id)
    && t.reg.nextSeq == s.reg.nextSeq
    && match s.reg.tasks[id].info.parent
       case Some(parent) => t.reg.tasks == WithoutChild(ended, parent) && t.reg.settledRoots == s.reg.settledRoots
       case None => (t.reg.tasks, t.reg.settledRoots) == Evicted(ended, s.reg.settledRoots + [id], s.cfg.retainedRoots)
  }

  lemma SettledEnding(s: Sys, step: Step) returns (ended: Tasks)
    requires Enabled(s, step) && step.SettleTask? && step.id in s.reg.tasks && s.drivers[step.id].pc.outcome.Terminal()
    ensures Ending(Next(s, step), s, step.id, ended)
    ensures ended[step.id].info.state == s.drivers[step.id].pc.outcome && ended[step.id].info.settled == Some(step.at)
  {
    var d, e := s.drivers[step.id], s.reg.tasks[step.id];
    ended := s.reg.tasks[step.id := EndedEntry(e, d.pc.outcome, step.at)];
    hide WithoutChild, Evicted;
  }

  /** The task about to settle is retained, unsettled, and has no live child. */
  lemma AboutToSettle(s: Sys, step: Step)
    requires Matched(s.drivers, s.reg.tasks) && Enabled(s, step) && step.SettleTask?
    ensures step.id in s.reg.tasks && s.drivers[step.id].pc.AtSettle? && s.drivers[step.id].pc.outcome.Terminal()
    ensures !Ended(s.reg.tasks[step.id]) && s.reg.tasks[step.id].liveChildren == 0
  {
  }

  /** What stays is what was, but for the task that settled and its parent's count. */
  ghost predicate Trimmed(tasks: Tasks, was: Tasks, id: TaskId, outcome: TaskState) {
    && (forall other :: other in tasks ==> other in was && tasks[other].seq_ == was[other].seq_)
    && (forall other :: other in was && other !in tasks ==> other == id || Ended(was[other]))
    && (id in tasks ==> tasks[id].info.state == outcome && outcome.Terminal() && tasks[id].liveChildren == 0)
    && (id in tasks && id in was ==> tasks[id].info.parent == was[id].info.parent && Flushed(tasks[id], was[id]))
    && (forall other :: other in tasks && other != id ==>
          && tasks[other].info == was[other].info && tasks[other].children == was[other].children
          && tasks[other].throttle == was[other].throttle
          && (was[other].liveChildren == 0 ==> tasks[other].liveChildren == 0))
  }

  lemma SettlingTrims(t: Sys, s: Sys, id: TaskId, ended: Tasks)
    requires Sound(s.reg.tasks) && RootsExact(s.reg.tasks, s.reg.settledRoots) && Ending(t, s, id, ended)
    requires !Ended(s.reg.tasks[id]) && s.reg.tasks[id].liveChildren == 0
    ensures Sound(t.reg.tasks) && RootsExact(t.reg.tasks, t.reg.settledRoots) && Trimmed(t.reg.tasks, s.reg.tasks, id, ended[id].info.state)
    ensures id in t.reg.tasks ==> t.reg.tasks[id].info == ended[id].info
    ensures t.reg.settledRoots == if s.reg.tasks[id].info.parent.Some? then s.reg.settledRoots
                                  else LastOf(s.reg.settledRoots + [id], s.cfg.retainedRoots)
  {
    if s.reg.tasks[id].info.parent.Some? {
      ChildEnds(ended, s.reg.tasks, id, s.reg.settledRoots);
      ChildTrims(t.reg.tasks, ended, s.reg.tasks, id);
    } else {
      RootEnds(ended, s.reg.tasks, id, s.reg.settledRoots);
      EvictionKeeps(ended, s.reg.settledRoots + [id], s.cfg.retainedRoots);
      RootTrims(t.reg.tasks, ended, s.reg.tasks, id);
    }
    hide Sound, RootsExact, WithoutChild, Evicted, LastOf, EndedOne, Trimmed;
  }

  lemma ChildTrims(tasks: Tasks, ended: Tasks, was: Tasks, id: TaskId)
    requires EndedOne(ended, was, id) && was[id].info.parent.Some? && was[id].liveChildren == 0
    requires was[id].info.parent.value in was && was[id].info.parent.value != id && was[was[id].info.parent.value].liveChildren > 0
    requires tasks == WithoutChild(ended, was[id].info.parent.value)
    ensures Trimmed(tasks, was, id, ended[id].info.state) && (id in tasks ==> tasks[id].info == ended[id].info)
  {
  }

  lemma RootTrims(tasks: Tasks, ended: Tasks, was: Tasks, id: TaskId)
    requires EndedOne(ended, was, id) && EvictedFrom(tasks, ended) && was[id].liveChildren == 0
    ensures Trimmed(tasks, was, id, ended[id].info.state) && (id in tasks ==> tasks[id].info == ended[id].info)
  {
  }

  lemma TrimmedFits(pc: Pc, e: Entry, was: Entry)
    requires Fits(pc, was) && e.info == was.info && e.children == was.children
    requires was.liveChildren == 0 ==> e.liveChildren == 0
    ensures Fits(pc, e)
  {
  }

  lemma EndedHasSettled(pc: Pc, e: Entry)
    requires Fits(pc, e)
    ensures Ended(e) <==> HasSettled(pc)
    ensures Ended(e) && e.liveChildren == 0 ==> forall now: Pc :: now.AtSettleNotify? && e.children == [] ==> Fits(now, e)
  {
  }

  lemma SettleKeeps(s: Sys, step: Step)
    requires Whole(s) && Enabled(s, step) && step.SettleTask?
    ensures Whole(Next(s, step))
    ensures Next(s, step).reg.settledRoots
         == if step.id in s.reg.tasks && s.reg.tasks[step.id].info.parent.None?
            then LastOf(s.reg.settledRoots + [step.id], s.cfg.retainedRoots) else s.reg.settledRoots
  {
    var t, id := Next(s, step), step.id;
    AboutToSettle(s, step);
    var ended := SettledEnding(s, step);
    SettlingTrims(t, s, id, ended);
    SettleMatched(s, step, ended[id].info.state);
    TrimmedBelow(t.reg.tasks, s.reg.tasks, id, ended[id].info.state, s.reg.nextSeq);
    MoverNamed(step);
    NextSeqKept(s, step);
    OthersStay(s, step);
    hide Next, Enabled, Matched, Sound, RootsExact, Ending, Below, Trimmed;
  }

  lemma TrimmedBelow(tasks: Tasks, was: Tasks, id: TaskId, outcome: TaskState, next: nat)
    requires Trimmed(tasks, was, id, outcome) && Below(was, next)
    ensures Below(tasks, next)
  {
  }

  lemma SettleMatched(s: Sys, step: Step, outcome: TaskState)
    requires Matched(s.drivers, s.reg.tasks) && Enabled(s, step) && step.SettleTask?
    requires Trimmed(Next(s, step).reg.tasks, s.reg.tasks, step.id, outcome)
    ensures Matched(Next(s, step).drivers, Next(s, step).reg.tasks)
  {
    hide Next, Enabled, Matched, Trimmed;
    AboutToSettle(s, step);
    OthersStay(s, step);
    MoverGoes(s, step);
    MoverNamed(step);
    TrimmedMatched(s.drivers, Next(s, step).drivers, s.reg.tasks, Next(s, step).reg.tasks, step.id, outcome);
  }

  lemma TrimmedMatched(was: map<TaskId, Driver>, drivers: map<TaskId, Driver>, before: Tasks, tasks: Tasks, id: TaskId,
                       outcome: TaskState)
    requires Matched(was, before) && Trimmed(tasks, before, id, outcome) && id in was && drivers.Keys == was.Keys
    requires drivers[id].pc == AtSettleNotify
    requires forall other :: other in was && other != id ==> Untouched(was[other], drivers[other])
    ensures Matched(drivers, tasks)
  {
    forall other | other in tasks
      ensures Fits(drivers[other].pc, tasks[other])
    {
      if other != id {
        TrimmedFits(was[other].pc, tasks[other], before[other]);
      }
    }
    forall other | other in drivers && !HasSettled(drivers[other].pc)
      ensures other in tasks
    {
      if other !in tasks {
        EndedHasSettled(was[other].pc, before[other]);
      }
    }
  }

  // ----- whole runs -----

  lemma NextWhole(s: Sys, step: Step)
    requires Whole(s) && Enabled(s, step)
    ensures Whole(Next(s, step))
  {
    if Starts(step) {
      StartKeeps(s, step);
    } else if step.SettleTask? {
      SettleKeeps(s, step);
    } else if WritesInfo(step) {
      WritingKeeps(s, step);
    } else {
      StayingKeeps(s, step);
      TasksKept(s, step);
      OthersStay(s, step);
      NextSeqKept(s, step);
      hide Next, Enabled, Matched, Sound, RootsExact, Below;
    }
  }

  /** The root a step settles, if it settles one. */
  function RootSettled(s: Sys, step: Step): seq<TaskId> {
    if step.SettleTask? && step.id in s.reg.tasks && s.reg.tasks[step.id].info.parent.None? then [step.id] else []
  }

  ghost function RootsSettled(s: Sys, steps: seq<Step>): seq<TaskId>
    requires Possible(s, steps)
    decreases |steps|
  {
    if steps == [] then [] else RootSettled(s, steps[0]) + RootsSettled(Next(s, steps[0]), steps[1..])
  }

  lemma NextRoots(s: Sys, step: Step)
    requires Whole(s) && Enabled(s, step)
    ensures Next(s, step).reg.settledRoots == LastOf(s.reg.settledRoots + RootSettled(s, step), s.cfg.retainedRoots)
  {
    if step.SettleTask? {
      SettleKeeps(s, step);
    } else if Starts(step) {
      StartFitting(s, step);
    } else if WritesInfo(step) {
      InfoWritten(s, step);
    } else {
      TasksKept(s, step);
    }
    hide Next, Enabled, Whole;
    assert |s.reg.settledRoots| <= s.cfg.retainedRoots by { RootsWithin(s); }
    assert s.reg.settledRoots + [] == s.reg.settledRoots;
  }

  lemma RootsWithin(s: Sys)
    requires Whole(s)
    ensures |s.reg.settledRoots| <= s.cfg.retainedRoots
  {
  }

  lemma LastOfLast(kept: seq<TaskId>, more: seq<TaskId>, n: nat)
    ensures LastOf(LastOf(kept, n) + more, n) == LastOf(kept + more, n)
  {
  }

  /** The tree stays whole through any run, and the settled roots kept are the last to have settled, in that order. */
  lemma {:induction false} RunWhole(s: Sys, steps: seq<Step>)
    requires Whole(s) && Possible(s, steps)
    ensures var t := Run(s, steps);
            Whole(t) && t.reg.settledRoots == LastOf(s.reg.settledRoots + RootsSettled(s, steps), s.cfg.retainedRoots)
    decreases |steps|
  {
    hide Whole, Next, Enabled, LastOf, RootSettled;
    if steps == [] {
      NothingSettled(s);
    } else {
      var t := Next(s, steps[0]);
      NextWhole(s, steps[0]);
      NextRoots(s, steps[0]);
      OthersStay(s, steps[0]);
      RunWhole(t, steps[1..]);
      LastOfLast(s.reg.settledRoots + RootSettled(s, steps[0]), RootsSettled(t, steps[1..]), s.cfg.retainedRoots);
      assert s.reg.settledRoots + RootSettled(s, steps[0]) + RootsSettled(t, steps[1..])
          == s.reg.settledRoots + RootsSettled(s, steps);
    }
  }

  lemma NothingSettled(s: Sys)
    requires Whole(s)
    ensures s.reg.settledRoots == LastOf(s.reg.settledRoots + [], s.cfg.retainedRoots)
  {
    assert s.reg.settledRoots + [] == s.reg.settledRoots;
  }

  lemma AlwaysWhole(cfg: Config, steps: seq<Step>)
    requires Possible(Initial(cfg), steps)
    ensures var t := Run(Initial(cfg), steps);
            Whole(t) && t.reg.settledRoots == LastOf(RootsSettled(Initial(cfg), steps), cfg.retainedRoots)
  {
    assert Whole(Initial(cfg));
    RunWhole(Initial(cfg), steps);
    assert [] + RootsSettled(Initial(cfg), steps) == RootsSettled(Initial(cfg), steps);
  }

  /** Settling a child takes one from a count that is above zero. */
  lemma CountNeverSaturates(s: Sys, step: Step)
    requires Whole(s) && Enabled(s, step) && step.SettleTask?
    ensures step.id in s.reg.tasks
    ensures var parent := s.reg.tasks[step.id].info.parent;
            parent.Some? ==>
              && parent.value in s.reg.tasks && parent.value in Next(s, step).reg.tasks
              && Next(s, step).reg.tasks[parent.value].liveChildren + 1 == s.reg.tasks[parent.value].liveChildren
  {
    AboutToSettle(s, step);
    var ended := SettledEnding(s, step);
    hide Next, Enabled, Sound, RootsExact;
    if s.reg.tasks[step.id].info.parent.Some? {
      ChildEnds(ended, s.reg.tasks, step.id, s.reg.settledRoots);
    }
  }
}
