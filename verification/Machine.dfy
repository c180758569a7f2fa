/** One machine's task list as the terminal client holds it: kept sorted, and settled tasks shown for a while. */
module MachineTasks {
  import opened Wrappers
  import opened Throttle

  datatype Status =
    | Queued(onResource: bool)
    | Running
    | Cancelling
    | Succeeded
    | Failed(error: string)
    | Cancelled
  {
    predicate Terminal() {
      Succeeded? || Failed? || Cancelled?
    }
  }

  datatype TaskView = TaskView(
    id: string,
    parent: Option<string>,
    kind: string,
    subject: seq<(string, string)>,
    status: Status,
    phase: Option<string>,
    measure: Measure,
    submitted: int)

  datatype Update = Snapshot(tasks: seq<TaskView>) | Changed(task: TaskView)

  type Tasks = seq<TaskView>
  type Times = map<string, nat>

  /** Milliseconds a settled task is still shown. */
  const SETTLED_LINGER: nat := 5000

  // ----- lists of tasks -----

  ghost predicate Unique(tasks: Tasks) {
    forall i, j :: 0 <= i < j < |tasks| ==> tasks[i].id != tasks[j].id
  }

  ghost predicate OldestFirst(tasks: Tasks) {
    forall i, j :: 0 <= i < j < |tasks| ==> tasks[i].submitted <= tasks[j].submitted
  }

  predicate Holds(tasks: Tasks, id: string) {
    exists i :: 0 <= i < |tasks| && tasks[i].id == id
  }

  /** The first task with an id. */
  function Find(tasks: Tasks, id: string): (found: Option<TaskView>)
    ensures found.Some? <==> Holds(tasks, id)
    ensures found.Some? ==> found.value in tasks && found.value.id == id
  {
    if tasks == [] then None
    else if tasks[0].id == id then Some(tasks[0])
    else
      assert forall i :: 0 < i < |tasks| ==> tasks[i] == tasks[1..][i - 1];
      Find(tasks[1..], id)
  }

  /** Into a sorted list, after everything submitted no later. */
  function InsertLast(tasks: Tasks, task: TaskView): Tasks {
    if tasks == [] || tasks[|tasks| - 1].submitted <= task.submitted then tasks + [task]
    else InsertLast(tasks[..|tasks| - 1], task) + [tasks[|tasks| - 1]]
  }

  /** The stable sort by submission time. */
  function Sorted(tasks: Tasks): Tasks {
    if tasks == [] then [] else InsertLast(Sorted(tasks[..|tasks| - 1]), tasks[|tasks| - 1])
  }

  /** Those submitted at one time, in order. */
  function At(tasks: Tasks, submitted: int): Tasks {
    if tasks == [] then []
    else At(tasks[..|tasks| - 1], submitted) + if tasks[|tasks| - 1].submitted == submitted then [tasks[|tasks| - 1]] else []
  }

  lemma {:induction false} InsertLastSorts(tasks: Tasks, task: TaskView)
    requires OldestFirst(tasks)
    ensures OldestFirst(InsertLast(tasks, task))
    ensures multiset(InsertLast(tasks, task)) == multiset(tasks) + multiset{task}
    ensures forall other :: other in InsertLast(tasks, task) <==> other == task || other in tasks
  {
    if tasks != [] && tasks[|tasks| - 1].submitted > task.submitted {
      var init, last := tasks[..|tasks| - 1], tasks[|tasks| - 1];
      assert tasks == init + [last];
      InsertLastSorts(init, task);
      hide InsertLast;
      SnocOldest(InsertLast(init, task), last);
    }
  }

  lemma SnocOldest(tasks: Tasks, last: TaskView)
    requires OldestFirst(tasks) && forall other :: other in tasks ==> other.submitted <= last.submitted
    ensures OldestFirst(tasks + [last])
  {
  }

  lemma {:induction false} InsertLastStable(tasks: Tasks, task: TaskView, submitted: int)
    requires OldestFirst(tasks)
    ensures At(InsertLast(tasks, task), submitted) == At(tasks, submitted) + if task.submitted == submitted then [task] else []
  {
    if tasks == [] || tasks[|tasks| - 1].submitted <= task.submitted {
      assert (tasks + [task])[..|tasks|] == tasks;
    } else {
      var init, last := tasks[..|tasks| - 1], tasks[|tasks| - 1];
      InsertLastStable(init, task, submitted);
      assert (InsertLast(init, task) + [last])[..|InsertLast(init, task)|] == InsertLast(init, task);
    }
  }

  /** The sort keeps every task, orders them by submission, and keeps the order of those submitted together. */
  lemma {:induction false} SortedStable(tasks: Tasks)
    ensures OldestFirst(Sorted(tasks)) && multiset(Sorted(tasks)) == multiset(tasks)
    ensures forall submitted :: At(Sorted(tasks), submitted) == At(tasks, submitted)
  {
    if tasks != [] {
      var init, last := tasks[..|tasks| - 1], tasks[|tasks| - 1];
      assert tasks == init + [last];
      SortedStable(init);
      InsertLastSorts(Sorted(init), last);
      forall submitted
        ensures At(Sorted(tasks), submitted) == At(tasks, submitted)
      {
        InsertLastStable(Sorted(init), last, submitted);
      }
    }
  }

  lemma SameIds(tasks: Tasks, others: Tasks)
    requires multiset(tasks) == multiset(others)
    ensures forall task :: task in tasks <==> task in others
    ensures forall id :: Holds(tasks, id) <==> Holds(others, id)
  {
    assert forall task :: task in tasks <==> task in multiset(tasks);
    assert forall task :: task in others <==> task in multiset(others);
    forall id
      ensures Holds(tasks, id) <==> Holds(others, id)
    {
      HoldsIn(tasks, id);
      HoldsIn(others, id);
    }
  }

  lemma HoldsIn(tasks: Tasks, id: string)
    ensures Holds(tasks, id) <==> exists task :: task in tasks && task.id == id
  {
    if task :| task in tasks && task.id == id {
      var i :| 0 <= i < |tasks| && tasks[i] == task;
    }
  }

  lemma {:induction false} UniqueByCount(tasks: Tasks, others: Tasks)
    requires Unique(tasks) && multiset(tasks) == multiset(others)
    ensures Unique(others)
  {
    forall i, j | 0 <= i < j < |others|
      ensures others[i].id != others[j].id
    {
      if others[i].id == others[j].id {
        TwiceIn(others, i, j);
        assert others[i] in multiset(tasks) && others[j] in multiset(tasks);
        var a :| 0 <= a < |tasks| && tasks[a] == others[i];
        var b :| 0 <= b < |tasks| && tasks[b] == others[j];
        assert a == b;
        OnceIn(tasks, a);
      }
    }
  }

  lemma TwiceIn(tasks: Tasks, i: nat, j: nat)
    requires i < j < |tasks|
    ensures tasks[i] == tasks[j] ==> multiset(tasks)[tasks[i]] >= 2
  {
    assert tasks == tasks[..i] + [tasks[i]] + tasks[i + 1..j] + [tasks[j]] + tasks[j + 1..];
  }

  lemma OnceIn(tasks: Tasks, i: nat)
    requires Unique(tasks) && i < |tasks|
    ensures multiset(tasks)[tasks[i]] == 1
  {
    assert tasks == tasks[..i] + [tasks[i]] + tasks[i + 1..];
    assert tasks[i] !in tasks[..i] && tasks[i] !in tasks[i + 1..];
  }

  // ----- what is shown -----

  datatype View = View(tasks: Tasks, settledAt: Times)

  /** Whether a settled task has been shown long enough. */
  predicate Past(settledAt: Times, id: string, now: nat) {
    id in settledAt && Since(now, settledAt[id]) >= SETTLED_LINGER
  }

  function Unexpired(tasks: Tasks, settledAt: Times, now: nat): Tasks {
    if tasks == [] then []
    else
      var init, last := Unexpired(tasks[..|tasks| - 1], settledAt, now), tasks[|tasks| - 1];
      if Past(settledAt, last.id, now) then init else init + [last]
  }

  function Expired(v: View, now: nat): View {
    var left := Unexpired(v.tasks, v.settledAt, now);
    View(left, map id | id in v.settledAt && Holds(left, id) :: v.settledAt[id])
  }

  /** What a snapshot makes of one of its tasks: unsettled, settled since some time, or settled unseen and not shown. */
  datatype Verdict = Unsettled | Lingers(since: nat) | Unseen

  function Judged(v: View, task: TaskView, now: nat): Verdict {
    if !task.status.Terminal() then Unsettled
    else match Find(v.tasks, task.id)
      case None => Unseen
      case Some(known) =>
        if task.id in v.settledAt then Lingers(v.settledAt[task.id])
        else if !known.status.Terminal() then Lingers(now)
        else Unseen
  }

  function TakenAfter(v: View, taken: View, task: TaskView, now: nat): View {
    match Judged(v, task, now)
    case Unsettled => taken.(tasks := taken.tasks + [task])
    case Lingers(since) => View(taken.tasks + [task], taken.settledAt[task.id := since])
    case Unseen => taken
  }

  function Taken(v: View, snapshot: Tasks, now: nat): View {
    if snapshot == [] then View([], map[])
    else TakenAfter(v, Taken(v, snapshot[..|snapshot| - 1], now), snapshot[|snapshot| - 1], now)
  }

  /** The first task with this one's id replaced by it, or it at the end. */
  function Put(tasks: Tasks, task: TaskView): Tasks {
    if tasks == [] then [task]
    else if tasks[0].id == task.id then [task] + tasks[1..]
    else [tasks[0]] + Put(tasks[1..], task)
  }

  function Replaced(v: View, task: TaskView, now: nat): View {
    var settledAt :=
      if !task.status.Terminal() then v.settledAt - {task.id}
      else if task.id in v.settledAt then v.settledAt
      else v.settledAt[task.id := now];
    View(Put(v.tasks, task), settledAt)
  }

  function Updated(v: View, update: Update, now: nat): View {
    match update
    case Snapshot(tasks) => Taken(v, tasks, now)
    case Changed(task) => Replaced(v, task, now)
  }

  function Applied(v: View, update: Update, now: nat): View {
    var updated := Updated(v, update, now);
    Expired(updated.(tasks := Sorted(updated.tasks)), now)
  }

  /** The times kept are those of the settled tasks held. */
  ghost predicate Timed(v: View) {
    forall id :: id in v.settledAt <==> exists i :: 0 <= i < |v.tasks| && v.tasks[i].id == id && v.tasks[i].status.Terminal()
  }

  ghost predicate Kept(v: View) {
    Unique(v.tasks) && Timed(v)
  }

  ghost predicate Valid(v: View) {
    Kept(v) && OldestFirst(v.tasks)
  }

  // ----- what each step keeps -----

  lemma SnocUnique(tasks: Tasks, last: TaskView)
    requires Unique(tasks) && !Holds(tasks, last.id)
    ensures Unique(tasks + [last])
  {
  }

  lemma InitParts(tasks: Tasks)
    requires tasks != []
    ensures var init, last := tasks[..|tasks| - 1], tasks[|tasks| - 1];
            && tasks == init + [last]
            && (Unique(tasks) ==> Unique(init) && !Holds(init, last.id))
            && (OldestFirst(tasks) ==> OldestFirst(init) && forall other :: other in init ==> other.submitted <= last.submitted)
            && (forall task :: task in tasks <==> task in init || task == last)
  {
    var init, last := tasks[..|tasks| - 1], tasks[|tasks| - 1];
    assert tasks == init + [last];
  }

  lemma {:induction false} UnexpiredKeeps(tasks: Tasks, settledAt: Times, now: nat)
    ensures var left := Unexpired(tasks, settledAt, now);
            && (forall task :: task in left <==> task in tasks && !Past(settledAt, task.id, now))
            && (Unique(tasks) ==> Unique(left))
            && (OldestFirst(tasks) ==> OldestFirst(left))
  {
    if tasks != [] {
      var init, last := tasks[..|tasks| - 1], tasks[|tasks| - 1];
      UnexpiredKeeps(init, settledAt, now);
      InitParts(tasks);
      var left := Unexpired(init, settledAt, now);
      HoldsIn(left, last.id);
      HoldsIn(init, last.id);
      hide Past, Holds;
      if Unique(tasks) {
        SnocUnique(left, last);
      }
      if OldestFirst(tasks) {
        SnocOldest(left, last);
      }
    }
  }

  /** In a list without repeats, an id is held by one task. */
  lemma HeldOnce(tasks: Tasks, task: TaskView, other: TaskView)
    requires Unique(tasks) && task in tasks && other in tasks && task.id == other.id
    ensures task == other
  {
  }

  lemma TimedIn(v: View, id: string)
    ensures (exists i :: 0 <= i < |v.tasks| && v.tasks[i].id == id && v.tasks[i].status.Terminal())
       <==> exists task :: task in v.tasks && task.id == id && task.status.Terminal()
  {
    if task :| task in v.tasks && task.id == id && task.status.Terminal() {
      var i :| 0 <= i < |v.tasks| && v.tasks[i] == task;
    }
  }

  /** A task whose time is kept is held settled, and the other way round. */
  lemma TimedTask(v: View, task: TaskView)
    requires Kept(v) && task in v.tasks
    ensures task.id in v.settledAt <==> task.status.Terminal()
  {
    TimedIn(v, task.id);
    if task.id in v.settledAt {
      var other :| other in v.tasks && other.id == task.id && other.status.Terminal();
      HeldOnce(v.tasks, task, other);
    }
  }

  /** Expiry drops the settled tasks whose time is up, and nothing else. */
  lemma ExpiredKeeps(v: View, now: nat)
    requires Valid(v)
    ensures Valid(Expired(v, now))
    ensures forall task :: task in Expired(v, now).tasks <==>
              task in v.tasks && !(task.status.Terminal() && task.id in v.settledAt && Since(now, v.settledAt[task.id]) >= SETTLED_LINGER)
    ensures forall id :: id in Expired(v, now).settledAt ==> id in v.settledAt && Expired(v, now).settledAt[id] == v.settledAt[id]
  {
    UnexpiredKeeps(v.tasks, v.settledAt, now);
    forall task | task in v.tasks
      ensures task.id in v.settledAt <==> task.status.Terminal()
    {
      TimedTask(v, task);
    }
    var left := Expired(v, now);
    forall id
      ensures id in left.settledAt <==> exists i :: 0 <= i < |left.tasks| && left.tasks[i].id == id && left.tasks[i].status.Terminal()
    {
      TimedIn(left, id);
      HoldsIn(left.tasks, id);
    }
  }

  /** A snapshot taken whole but for the settled tasks never seen running, a time kept for each settled one taken. */
  ghost predicate TakenFrom(taken: View, v: View, snapshot: Tasks, now: nat) {
    && Unique(taken.tasks)
    && (forall task :: task in taken.tasks <==> task in snapshot && !Judged(v, task, now).Unseen?)
    && (forall task :: task in taken.tasks && task.status.Terminal() ==>
          task.id in taken.settledAt && Judged(v, task, now) == Lingers(taken.settledAt[task.id]))
    && (forall id :: id in taken.settledAt ==> exists task :: task in taken.tasks && task.id == id && task.status.Terminal())
  }

  lemma {:induction false} TakenKeeps(v: View, snapshot: Tasks, now: nat)
    requires Unique(snapshot)
    ensures TakenFrom(Taken(v, snapshot, now), v, snapshot, now)
  {
    if snapshot != [] {
      var init, last := snapshot[..|snapshot| - 1], snapshot[|snapshot| - 1];
      InitParts(snapshot);
      TakenKeeps(v, init, now);
      hide TakenFrom, TakenAfter, Judged;
      TakenOne(v, Taken(v, init, now), init, last, now);
    }
  }

  lemma JudgedKinds(v: View, task: TaskView, now: nat)
    ensures Judged(v, task, now).Unsettled? <==> !task.status.Terminal()
  {
  }

  lemma TakenOne(v: View, before: View, init: Tasks, last: TaskView, now: nat)
    requires TakenFrom(before, v, init, now) && !Holds(init, last.id)
    ensures TakenFrom(TakenAfter(v, before, last, now), v, init + [last], now)
  {
    JudgedKinds(v, last, now);
    HoldsIn(before.tasks, last.id);
    HoldsIn(init, last.id);
    var taken := TakenAfter(v, before, last, now);
    if Judged(v, last, now).Unseen? {
      hide Judged, Holds, Unique;
      assert TakenFrom(taken, v, init + [last], now);
    } else {
      SnocUnique(before.tasks, last);
      assert taken.tasks == before.tasks + [last];
      hide Judged, Holds, Unique;
      TakenTimes(v, before, taken, last, now);
      assert TakenFrom(taken, v, init + [last], now);
    }
  }

  lemma TakenTimes(v: View, before: View, taken: View, last: TaskView, now: nat)
    requires taken == TakenAfter(v, before, last, now) && taken.tasks == before.tasks + [last]
    requires Judged(v, last, now).Unsettled? <==> !last.status.Terminal()
    requires forall task :: task in before.tasks ==> task.id != last.id
    requires forall task :: task in before.tasks && task.status.Terminal() ==>
               task.id in before.settledAt && Judged(v, task, now) == Lingers(before.settledAt[task.id])
    requires forall id :: id in before.settledAt ==> exists task :: task in before.tasks && task.id == id && task.status.Terminal()
    requires !Judged(v, last, now).Unseen?
    ensures forall task :: task in taken.tasks && task.status.Terminal() ==>
              task.id in taken.settledAt && Judged(v, task, now) == Lingers(taken.settledAt[task.id])
    ensures forall id :: id in taken.settledAt ==> exists task :: task in taken.tasks && task.id == id && task.status.Terminal()
  {
    hide Judged;
    forall id | id in taken.settledAt
      ensures exists task :: task in taken.tasks && task.id == id && task.status.Terminal()
    {
      if id in before.settledAt {
        var task :| task in before.tasks && task.id == id && task.status.Terminal();
        assert task in taken.tasks;
      } else {
        assert last in taken.tasks;
      }
    }
  }

  lemma {:induction false} PutKeeps(tasks: Tasks, task: TaskView)
    requires Unique(tasks)
    ensures Unique(Put(tasks, task))
    ensures forall other :: other in Put(tasks, task) <==> other == task || (other in tasks && other.id != task.id)
  {
    if tasks != [] {
      assert tasks == [tasks[0]] + tasks[1..];
      if tasks[0].id != task.id {
        PutKeeps(tasks[1..], task);
        var rest := Put(tasks[1..], task);
        assert forall other :: other in rest ==> other.id != tasks[0].id;
      }
    }
  }

  lemma ReplacedKeeps(v: View, task: TaskView, now: nat)
    requires Kept(v)
    ensures Kept(Replaced(v, task, now))
  {
    var w := Replaced(v, task, now);
    PutKeeps(v.tasks, task);
    forall id
      ensures id in w.settledAt <==> exists i :: 0 <= i < |w.tasks| && w.tasks[i].id == id && w.tasks[i].status.Terminal()
    {
      TimedIn(w, id);
      TimedIn(v, id);
    }
  }

  lemma TakenKept(v: View, snapshot: Tasks, now: nat)
    requires Unique(snapshot)
    ensures Kept(Taken(v, snapshot, now))
  {
    var w := Taken(v, snapshot, now);
    TakenKeeps(v, snapshot, now);
    hide Taken, Judged;
    forall id
      ensures id in w.settledAt <==> exists i :: 0 <= i < |w.tasks| && w.tasks[i].id == id && w.tasks[i].status.Terminal()
    {
      TimedIn(w, id);
    }
  }

  lemma SortingKeeps(v: View)
    requires Kept(v)
    ensures Valid(v.(tasks := Sorted(v.tasks)))
    ensures forall task :: task in Sorted(v.tasks) <==> task in v.tasks
  {
    var w := v.(tasks := Sorted(v.tasks));
    SortedStable(v.tasks);
    hide Sorted;
    UniqueByCount(v.tasks, w.tasks);
    SameIds(w.tasks, v.tasks);
    forall id
      ensures id in w.settledAt <==> exists i :: 0 <= i < |w.tasks| && w.tasks[i].id == id && w.tasks[i].status.Terminal()
    {
      TimedIn(w, id);
      TimedIn(v, id);
    }
  }

  /** Snapshots name each task once. */
  ghost predicate WellFormed(update: Update) {
    update.Snapshot? ==> Unique(update.tasks)
  }

  lemma UpdatedKept(v: View, update: Update, now: nat)
    requires Valid(v) && WellFormed(update)
    ensures Kept(Updated(v, update, now))
  {
    match update
    case Snapshot(tasks) => TakenKept(v, tasks, now);
    case Changed(task) => ReplacedKeeps(v, task, now);
  }

  /** Ids stay unique, tasks sorted by submission, and times kept for exactly the settled tasks held. */
  lemma AppliedValid(v: View, update: Update, now: nat)
    requires Valid(v) && WellFormed(update)
    ensures Valid(Applied(v, update, now))
  {
    hide *;
    UpdatedKept(v, update, now);
    var updated := Updated(v, update, now);
    SortingKeeps(updated);
    ExpiredKeeps(updated.(tasks := Sorted(updated.tasks)), now);
    assert Applied(v, update, now) == Expired(updated.(tasks := Sorted(updated.tasks)), now) by { AppliedIs(v, update, now); }
  }

  lemma AppliedIs(v: View, update: Update, now: nat)
    ensures var updated := Updated(v, update, now);
            Applied(v, update, now) == Expired(updated.(tasks := Sorted(updated.tasks)), now)
  {
  }

  // ----- what is shown, and for how long -----

  /** No unsettled task is ever dropped by expiry. */
  lemma UnsettledNeverExpires(v: View, task: TaskView, now: nat)
    requires Valid(v) && task in v.tasks && !task.status.Terminal()
    ensures task in Expired(v, now).tasks
  {
    ExpiredKeeps(v, now);
    hide Expired;
  }

  ghost predicate HeldUnsettled(tasks: Tasks, id: string) {
    exists known :: known in tasks && known.id == id && !known.status.Terminal()
  }

  ghost predicate HeldSettled(tasks: Tasks, id: string) {
    exists known :: known in tasks && known.id == id && known.status.Terminal()
  }

  /**
    What a snapshot leaves shown, of the list held before it. Its unsettled tasks; of its settled ones those held unsettled,
    as settled now, and those held settled, with the time they had, until their linger is over. A settled task not held is
    not shown, nor is anything that is not in the snapshot.
  */
  lemma SnapshotShows(v: View, snapshot: Tasks, now: nat, task: TaskView)
    requires Valid(v) && Unique(snapshot)
    ensures var after, id := Applied(v, Snapshot(snapshot), now), task.id;
            && (task !in snapshot ==> task !in after.tasks)
            && (task in snapshot && !task.status.Terminal() ==> task in after.tasks)
            && (task in snapshot && task.status.Terminal() && HeldUnsettled(v.tasks, id) ==>
                  task in after.tasks && id in after.settledAt && after.settledAt[id] == now)
            && (task in snapshot && task.status.Terminal() && HeldSettled(v.tasks, id) ==>
                  && id in v.settledAt
                  && (task in after.tasks <==> Since(now, v.settledAt[id]) < SETTLED_LINGER)
                  && (task in after.tasks ==> id in after.settledAt && after.settledAt[id] == v.settledAt[id]))
            && (task in snapshot && task.status.Terminal() && !HeldUnsettled(v.tasks, id) && !HeldSettled(v.tasks, id) ==>
                  task !in after.tasks)
  {
    SnapshotVerdicts(v, snapshot, now, task);
    hide Applied, Judged, Unique, OldestFirst, Timed;
    if HeldUnsettled(v.tasks, task.id) {
      var known :| known in v.tasks && known.id == task.id && !known.status.Terminal();
      JudgedHeld(v, task, now, known);
    } else if HeldSettled(v.tasks, task.id) {
      var known :| known in v.tasks && known.id == task.id && known.status.Terminal();
      JudgedHeld(v, task, now, known);
    } else {
      JudgedUnheld(v, task, now);
    }
    SinceItself(now);
  }

  lemma SinceItself(now: nat)
    ensures Since(now, now) < SETTLED_LINGER
  {
  }

  lemma JudgedHeld(v: View, task: TaskView, now: nat, known: TaskView)
    requires Kept(v) && known in v.tasks && known.id == task.id
    ensures !task.status.Terminal() ==> Judged(v, task, now).Unsettled?
    ensures task.status.Terminal() ==>
              (known.status.Terminal() <==> task.id in v.settledAt)
              && Judged(v, task, now) == Lingers(if known.status.Terminal() then v.settledAt[task.id] else now)
    ensures known.status.Terminal() <==> HeldSettled(v.tasks, task.id)
    ensures !known.status.Terminal() <==> HeldUnsettled(v.tasks, task.id)
  {
    TimedTask(v, known);
    HoldsIn(v.tasks, task.id);
    forall other | other in v.tasks && other.id == task.id
      ensures other == known
    {
      HeldOnce(v.tasks, known, other);
    }
    hide Unique, Timed;
  }

  lemma JudgedUnheld(v: View, task: TaskView, now: nat)
    requires !HeldUnsettled(v.tasks, task.id) && !HeldSettled(v.tasks, task.id)
    ensures Judged(v, task, now) == if task.status.Terminal() then Unseen else Unsettled
  {
    HoldsIn(v.tasks, task.id);
  }

  lemma SnapshotVerdicts(v: View, snapshot: Tasks, now: nat, task: TaskView)
    requires Valid(v) && Unique(snapshot)
    ensures var after := Applied(v, Snapshot(snapshot), now);
            && (task in after.tasks <==>
                  task in snapshot
                  && match Judged(v, task, now)
                     case Unsettled => true
                     case Lingers(since) => Since(now, since) < SETTLED_LINGER
                     case Unseen => false)
            && (task in after.tasks && task.status.Terminal() ==>
                  task.id in after.settledAt && Judged(v, task, now) == Lingers(after.settledAt[task.id]))
  {
    TakenKeeps(v, snapshot, now);
    TakenKept(v, snapshot, now);
    var taken := Taken(v, snapshot, now);
    SortingKeeps(taken);
    ExpiredKeeps(taken.(tasks := Sorted(taken.tasks)), now);
    JudgedKinds(v, task, now);
    AppliedIs(v, Snapshot(snapshot), now);
    if task in Applied(v, Snapshot(snapshot), now).tasks {
      TimedTask(Applied(v, Snapshot(snapshot), now), task);
    }
    assert Updated(v, Snapshot(snapshot), now) == taken;
    hide Applied, Expired, Sorted, Taken, Judged, Unique, OldestFirst, Since, Timed;
  }

  datatype Event = Applies(update: Update, now: nat) | Expires(now: nat)

  function Step(v: View, event: Event): View {
    match event
    case Applies(update, now) => Applied(v, update, now)
    case Expires(now) => Expired(v, now)
  }

  function Steps(v: View, events: seq<Event>): View
    decreases |events|
  {
    if events == [] then v else Steps(Step(v, events[0]), events[1..])
  }

  ghost predicate Accepted(event: Event) {
    event.Applies? ==> WellFormed(event.update)
  }

  lemma StepValid(v: View, event: Event)
    requires Valid(v) && Accepted(event)
    ensures Valid(Step(v, event))
  {
    hide Valid, Expired, Applied;
    match event
    case Applies(update, now) => AppliedValid(v, update, now);
    case Expires(now) => ExpiredKeeps(v, now);
  }

  /** For every run of snapshots, changes and expiries, the list stays valid. */
  lemma {:induction false} StepsValid(v: View, events: seq<Event>)
    requires Valid(v) && forall k :: 0 <= k < |events| ==> Accepted(events[k])
    ensures Valid(Steps(v, events))
    decreases |events|
  {
    hide Valid, Step, Accepted;
    if events != [] {
      StepValid(v, events[0]);
      StepsValid(Step(v, events[0]), events[1..]);
    }
  }

  /** The event says nothing of a task but, in snapshots, that it has settled. */
  ghost predicate OnlyRepeats(event: Event, id: string) {
    event.Applies? ==>
      match event.update
      case Snapshot(tasks) => forall task :: task in tasks && task.id == id ==> task.status.Terminal()
      case Changed(task) => task.id != id
  }

  /** Shown still, and since no other time; or shown no longer. */
  ghost predicate LingersSince(v: View, id: string, since: nat) {
    if id in v.settledAt then v.settledAt[id] == since else !Holds(v.tasks, id)
  }

  lemma ExpiryLingers(v: View, now: nat, id: string, since: nat)
    requires Valid(v) && LingersSince(v, id, since)
    ensures LingersSince(Expired(v, now), id, since)
    ensures Since(now, since) >= SETTLED_LINGER ==> !Holds(Expired(v, now).tasks, id)
  {
    ExpiredKeeps(v, now);
    HoldsIn(v.tasks, id);
    HoldsIn(Expired(v, now).tasks, id);
    forall task | task in v.tasks && task.id == id
      ensures task.status.Terminal() && id in v.settledAt && v.settledAt[id] == since
    {
      TimedTask(v, task);
    }
    forall task | task in Expired(v, now).tasks && task.id == id
      ensures id in Expired(v, now).settledAt
    {
      TimedTask(Expired(v, now), task);
    }
    hide Expired, Unique, Holds, Timed;
  }

  lemma SnapshotLingers(v: View, snapshot: Tasks, now: nat, id: string, since: nat)
    requires Valid(v) && Unique(snapshot) && LingersSince(v, id, since)
    requires forall task :: task in snapshot && task.id == id ==> task.status.Terminal()
    ensures LingersSince(Taken(v, snapshot, now), id, since)
  {
    var taken := Taken(v, snapshot, now);
    TakenKeeps(v, snapshot, now);
    HoldsIn(taken.tasks, id);
    hide Taken, Unique, OldestFirst, Timed, Holds;
    if id in taken.settledAt {
      var task :| task in taken.tasks && task.id == id && task.status.Terminal();
      assert Judged(v, task, now) == Lingers(taken.settledAt[id]);
    }
  }

  lemma ChangeLingers(v: View, task: TaskView, now: nat, id: string, since: nat)
    requires Valid(v) && LingersSince(v, id, since) && task.id != id
    ensures LingersSince(Replaced(v, task, now), id, since)
  {
    PutKeeps(v.tasks, task);
    HoldsIn(v.tasks, id);
    HoldsIn(Put(v.tasks, task), id);
    hide Put, Holds;
  }

  lemma SortLingers(v: View, id: string, since: nat)
    requires Kept(v) && LingersSince(v, id, since)
    ensures LingersSince(v.(tasks := Sorted(v.tasks)), id, since)
  {
    SortingKeeps(v);
    HoldsIn(v.tasks, id);
    HoldsIn(Sorted(v.tasks), id);
    hide Sorted, Holds, Kept, Valid;
  }

  lemma StepLingers(v: View, event: Event, id: string, since: nat)
    requires Valid(v) && Accepted(event) && OnlyRepeats(event, id) && LingersSince(v, id, since)
    ensures LingersSince(Step(v, event), id, since)
    ensures Since(event.now, since) >= SETTLED_LINGER ==> !Holds(Step(v, event).tasks, id)
  {
    match event {
      case Expires(now) =>
        ExpiryLingers(v, now, id, since);
      case Applies(update, now) =>
        UpdatedKept(v, update, now);
        var updated := Updated(v, update, now);
        match update {
          case Snapshot(tasks) => SnapshotLingers(v, tasks, now, id, since);
          case Changed(task) => ChangeLingers(v, task, now, id, since);
        }
        assert LingersSince(updated, id, since);
        hide Updated, LingersSince, Valid, Expired, Kept, Taken, Replaced;
        SortLingers(updated, id, since);
        SortingKeeps(updated);
        ExpiryLingers(updated.(tasks := Sorted(updated.tasks)), now, id, since);
    }
  }

  /**
    A settled task is shown for its linger and no longer: however often snapshots repeat it, its time does not move, and
    once it is gone they do not bring it back.
  */
  lemma {:induction false} LingersOnce(v: View, events: seq<Event>, id: string, since: nat)
    requires Valid(v) && LingersSince(v, id, since)
    requires forall k :: 0 <= k < |events| ==> Accepted(events[k]) && OnlyRepeats(events[k], id)
    ensures LingersSince(Steps(v, events), id, since)
    ensures events != [] && Since(events[|events| - 1].now, since) >= SETTLED_LINGER ==> !Holds(Steps(v, events).tasks, id)
    decreases |events|
  {
    hide Valid, LingersSince, Step, Accepted, OnlyRepeats, Holds, Since;
    if events != [] {
      assert Accepted(events[0]) && OnlyRepeats(events[0], id);
      StepLingers(v, events[0], id, since);
      StepValid(v, events[0]);
      LingersOnce(Step(v, events[0]), events[1..], id, since);
    }
  }

  /** Since when a changed task counts as settled. */
  function SettledSince(v: View, task: TaskView, now: nat): nat {
    if task.id in v.settledAt then v.settledAt[task.id] else now
  }

  /** What a change leaves in a list before the sort and expiry. */
  lemma ReplacedIs(v: View, task: TaskView, now: nat)
    requires Valid(v)
    ensures var w := Replaced(v, task, now);
            && (forall other :: other in w.tasks <==> other == task || (other in v.tasks && other.id != task.id))
            && (task.id in w.settledAt <==> task.status.Terminal())
            && (task.status.Terminal() ==> w.settledAt[task.id] == SettledSince(v, task, now))
            && (forall id :: id != task.id ==>
                  (id in w.settledAt <==> id in v.settledAt) && (id in v.settledAt ==> w.settledAt[id] == v.settledAt[id]))
  {
    PutKeeps(v.tasks, task);
  }

  /**
    What a change leaves shown. The changed task stays, as settled since it was first seen settled if it is still held, and
    goes if that was a linger ago or more; one settled and no longer held is shown again, its linger starting now. Of the
    others only settled ones go, and only those whose linger is over.
  */
  lemma ChangeRestarts(v: View, task: TaskView, now: nat)
    requires Valid(v)
    ensures var after, since := Applied(v, Changed(task), now), SettledSince(v, task, now);
            && (task in after.tasks <==> !(task.status.Terminal() && Since(now, since) >= SETTLED_LINGER))
            && (forall other :: other in after.tasks && other.id == task.id ==> other == task)
            && (task in after.tasks && task.status.Terminal() ==> task.id in after.settledAt && after.settledAt[task.id] == since)
            && (!Holds(v.tasks, task.id) && task.status.Terminal() ==> since == now && task in after.tasks)
    ensures forall other: TaskView :: other.id != task.id ==>
              (other in Applied(v, Changed(task), now).tasks <==>
               other in v.tasks
               && !(other.status.Terminal() && other.id in v.settledAt && Since(now, v.settledAt[other.id]) >= SETTLED_LINGER))
  {
    hide *;
    ReplacedIs(v, task, now);
    ReplacedShown(v, task, now);
    var after := Applied(v, Changed(task), now);
    if task in after.tasks {
      assert Kept(after) by { ValidKept(after); }
      TimedTask(after, task);
    }
    SettledOrNow(v, task, now);
  }

  lemma ValidKept(v: View)
    requires Valid(v)
    ensures Kept(v)
  {
  }

  lemma ReplacedShown(v: View, task: TaskView, now: nat)
    requires Valid(v)
    ensures var replaced, after := Replaced(v, task, now), Applied(v, Changed(task), now);
            && Valid(after)
            && (forall other :: other in after.tasks <==>
                  && other in replaced.tasks
                  && !(other.status.Terminal() && other.id in replaced.settledAt && Since(now, replaced.settledAt[other.id]) >= SETTLED_LINGER))
            && (forall id :: id in after.settledAt ==> id in replaced.settledAt && after.settledAt[id] == replaced.settledAt[id])
  {
    var replaced := Replaced(v, task, now);
    ReplacedKeeps(v, task, now);
    SortingKeeps(replaced);
    var sorted := replaced.(tasks := Sorted(replaced.tasks));
    ExpiredKeeps(sorted, now);
    AppliedIs(v, Changed(task), now);
    assert Updated(v, Changed(task), now) == replaced;
    hide Applied, Expired, Sorted, Replaced, Unique, OldestFirst, Timed, Since;
  }

  lemma SettledOrNow(v: View, task: TaskView, now: nat)
    requires Valid(v)
    ensures !Holds(v.tasks, task.id) ==> SettledSince(v, task, now) == now
    ensures task.id in v.settledAt ==> SettledSince(v, task, now) == v.settledAt[task.id]
    ensures Since(now, now) < SETTLED_LINGER
  {
    if !Holds(v.tasks, task.id) {
      UnheldUntimed(v, task.id);
    }
    hide Timed;
  }

  lemma UnheldUntimed(v: View, id: string)
    requires Kept(v) && !Holds(v.tasks, id)
    ensures id !in v.settledAt
  {
  }

  // ----- the order of what is shown -----

  /** Some of a list, in its order. */
  predicate Subsequence(part: Tasks, whole: Tasks) {
    part == []
    || (whole != []
        && var init, last := whole[..|whole| - 1], whole[|whole| - 1];
           Subsequence(part, init) || (part[|part| - 1] == last && Subsequence(part[..|part| - 1], init)))
  }

  /** What a snapshot leaves is in the snapshot's order, until it is sorted, and what expiry leaves in the list's. */
  lemma {:induction false} InOrderTaken(v: View, snapshot: Tasks, now: nat)
    ensures Subsequence(Taken(v, snapshot, now).tasks, snapshot)
  {
    if snapshot != [] {
      InOrderTaken(v, snapshot[..|snapshot| - 1], now);
    }
  }

  lemma {:induction false} InOrderExpired(v: View, now: nat)
    ensures Subsequence(Expired(v, now).tasks, v.tasks)
    decreases |v.tasks|
  {
    if v.tasks != [] {
      InOrderExpired(v.(tasks := v.tasks[..|v.tasks| - 1]), now);
    }
  }

  /** A changed task takes the place of the one it replaces, or the last; no other task moves. */
  lemma {:induction false} ChangedInPlace(tasks: Tasks, task: TaskView)
    ensures var put := Put(tasks, task);
            && |put| == |tasks| + (if Holds(tasks, task.id) then 0 else 1)
            && (forall i :: 0 <= i < |tasks| ==> put[i].id == tasks[i].id && (tasks[i].id != task.id ==> put[i] == tasks[i]))
            && (!Holds(tasks, task.id) ==> put[|tasks|] == task)
  {
    if tasks != [] && tasks[0].id != task.id {
      ChangedInPlace(tasks[1..], task);
      assert forall i :: 0 < i < |tasks| ==> tasks[i] == tasks[1..][i - 1];
      if Holds(tasks, task.id) {
        var i :| 0 <= i < |tasks| && tasks[i].id == task.id;
        assert tasks[1..][i - 1].id == task.id;
      }
    } else if tasks != [] {
      assert Holds(tasks, task.id);
    }
  }

  // ----- the machine itself -----

  class Machine {
    var tasks: Tasks
    var settledAt: Times

    function Shown(): View
      reads this
    {
      View(tasks, settledAt)
    }

    constructor ()
      ensures Shown() == View([], map[]) && Valid(Shown())
    {
      tasks, settledAt := [], map[];
    }

    method Apply(update: Update, now: nat)
      requires Valid(Shown()) && WellFormed(update)
      modifies this
      ensures Shown() == Applied(old(Shown()), update, now)
      ensures Valid(Shown())
    {
      AppliedValid(Shown(), update, now);
      match update {
        case Snapshot(snapshot) => TakeSnapshot(snapshot, now);
        case Changed(task) => TakeChange(task, now);
      }
      tasks := Sorted(tasks);
      Expire(now);
    }

    method TakeSnapshot(snapshot: Tasks, now: nat)
      modifies this
      ensures Shown() == Taken(old(Shown()), snapshot, now)
    {
      ghost var v := Shown();
      var kept: Tasks, times: Times := [], map[];
      var i := 0;
      while i < |snapshot|
        invariant 0 <= i <= |snapshot|
        invariant View(kept, times) == Taken(v, snapshot[..i], now)
        invariant Shown() == v
      {
        var task := snapshot[i];
        assert snapshot[..i + 1][..i] == snapshot[..i];
        i := i + 1;
        if task.status.Terminal() {
          var known := Find(tasks, task.id);
          if known.Some? && task.id in settledAt {
            times := times[task.id := settledAt[task.id]];
          } else if known.Some? && !known.value.status.Terminal() {
            times := times[task.id := now];
          } else {
            continue;
          }
        }
        kept := kept + [task];
      }
      assert snapshot[..i] == snapshot;
      tasks, settledAt := kept, times;
    }

    method TakeChange(task: TaskView, now: nat)
      modifies this
      ensures Shown() == Replaced(old(Shown()), task, now)
    {
      if task.status.Terminal() {
        if task.id !in settledAt {
          settledAt := settledAt[task.id := now];
        }
      } else {
        settledAt := settledAt - {task.id};
      }
      var i := 0;
      while i < |tasks| && tasks[i].id != task.id
        invariant 0 <= i <= |tasks|
        invariant Put(tasks, task) == tasks[..i] + Put(tasks[i..], task)
      {
        assert tasks[i..][1..] == tasks[i + 1..];
        i := i + 1;
      }
      if i < |tasks| {
        assert tasks[i := task] == tasks[..i] + ([task] + tasks[i..][1..]);
        tasks := tasks[i := task];
      } else {
        tasks := tasks + [task];
      }
    }

    method Expire(now: nat)
      modifies this
      ensures Shown() == Expired(old(Shown()), now)
    {
      var left: Tasks := [];
      var i := 0;
      while i < |tasks|
        invariant 0 <= i <= |tasks|
        invariant left == Unexpired(tasks[..i], settledAt, now)
        invariant Shown() == old(Shown())
      {
        var task := tasks[i];
        assert tasks[..i + 1][..i] == tasks[..i];
        if task.id !in settledAt || Since(now, settledAt[task.id]) < SETTLED_LINGER {
          left := left + [task];
        }
        i := i + 1;
      }
      assert tasks[..i] == tasks;
      tasks := left;
      settledAt := map id | id in settledAt && Holds(tasks, id) :: settledAt[id];
    }
  }
}
