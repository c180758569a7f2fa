/** The task runtime's shared state, and what each of its lock sections does to it. */
module Registry {
  import opened Wrappers
  import opened Throttle

  type TaskId = nat
  type ResourceId = nat

  datatype AdmissionClass = Interactive | Transfer | Background

  datatype TaskState =
    | Queued(waitingOn: Option<ResourceId>)
    | Running
    | Cancelling
    | Succeeded
    | Failed(error: string)
    | Cancelled
  {
    predicate Terminal() {
      Succeeded? || Failed? || Cancelled?
    }
  }

  datatype ResourceState = Pending | Ready | Closing | Gone

  datatype Scope = Scope(cls: AdmissionClass, resource: Option<ResourceId>)

  datatype TaskInfo = TaskInfo(
    id: TaskId,
    parent: Option<TaskId>,
    cls: AdmissionClass,
    submitted: int,
    settled: Option<int>,
    state: TaskState,
    progress: Progress)

  datatype TaskEvent =
    | Submitted(info: TaskInfo)
    | StateChanged(task: TaskId, state: TaskState)
    | Progressed(task: TaskId, progress: Progress)
  {
    function TaskOf(): TaskId {
      if Submitted? then info.id else task
    }
  }

  datatype Config = Config(
    interactiveCap: Option<nat>,
    transferCap: Option<nat>,
    backgroundCap: Option<nat>,
    retainedRoots: nat,
    progressInterval: nat)
  {
    function Cap(cls: AdmissionClass): Option<nat> {
      match cls
      case Interactive => interactiveCap
      case Transfer => transferCap
      case Background => backgroundCap
    }
  }

  datatype Entry = Entry(seq_: nat, info: TaskInfo, children: seq<TaskId>, liveChildren: nat, throttle: Throttle)

  datatype Registry = Registry(
    nextSeq: nat,
    tasks: map<TaskId, Entry>,
    settledRoots: seq<TaskId>,
    resources: map<ResourceId, ResourceState>,
    admitted: map<Scope, nat>,
    queues: map<Scope, set<nat>>)

  datatype Admission = Admit | Wait(on: Option<ResourceId>) | Refuse(error: string)

  datatype Ticket = Ticket(seq_: nat, scope: Scope, queued: bool)

  // ----- admission -----

  function AdmittedTo(r: Registry, scope: Scope): nat {
    if scope in r.admitted then r.admitted[scope] else 0
  }

  function QueueOf(r: Registry, scope: Scope): set<nat> {
    if scope in r.queues then r.queues[scope] else {}
  }

  /** `seq_` is the smallest number in its queue. */
  ghost predicate First(queue: set<nat>, seq_: nat) {
    seq_ in queue && forall other :: other in queue ==> seq_ <= other
  }

  /** The first requirement that is not ready decides. */
  function Requirements(r: Registry, requires_: seq<ResourceId>): Admission {
    if requires_ == [] then Admit
    else if requires_[0] !in r.resources then Refuse("a resource this task requires does not exist")
    else match r.resources[requires_[0]]
      case Ready => Requirements(r, requires_[1..])
      case Gone => Refuse("a resource this task requires is gone")
      case _ => Wait(Some(requires_[0]))
  }

  ghost function AdmissionOf(r: Registry, requires_: seq<ResourceId>, ticket: Ticket, cap: Option<nat>): Admission {
    var required := Requirements(r, requires_);
    if required != Admit || cap.None? then required
    else if AdmittedTo(r, ticket.scope) < cap.value && First(QueueOf(r, ticket.scope), ticket.seq_) then Admit
    else Wait(None)
  }

  function Dequeued(r: Registry, ticket: Ticket): Registry {
    if ticket.scope !in r.queues then r
    else
      var queue := r.queues[ticket.scope] - {ticket.seq_};
      r.(queues := if queue == {} then r.queues - {ticket.scope} else r.queues[ticket.scope := queue])
  }

  function AdmittedInto(r: Registry, ticket: Ticket): Registry {
    Dequeued(r.(admitted := r.admitted[ticket.scope := AdmittedTo(r, ticket.scope) + 1]), ticket)
  }

  function Enqueued(r: Registry, ticket: Ticket): Registry {
    r.(queues := r.queues[ticket.scope := QueueOf(r, ticket.scope) + {ticket.seq_}])
  }

  /** `saturating_sub(1)`. */
  function LessOne(n: nat): nat {
    if n == 0 then 0 else n - 1
  }

  function SlotGivenBack(r: Registry, scope: Scope): Registry {
    if scope in r.admitted then r.(admitted := r.admitted[scope := LessOne(r.admitted[scope])]) else r
  }

  // ----- tasks -----

  function WithChild(tasks: map<TaskId, Entry>, parent: TaskId, child: TaskId): map<TaskId, Entry> {
    if parent !in tasks then tasks
    else tasks[parent := tasks[parent].(children := tasks[parent].children + [child],
                                        liveChildren := tasks[parent].liveChildren + 1)]
  }

  function NewInfo(id: TaskId, parent: Option<TaskId>, cls: AdmissionClass, submitted: int): TaskInfo {
    TaskInfo(id, parent, cls, submitted, None, Queued(None), NO_PROGRESS)
  }

  function TicketFor(r: Registry, cfg: Config, parent: Option<TaskId>, cls: AdmissionClass, requires_: seq<ResourceId>): Ticket {
    Ticket(r.nextSeq, Scope(cls, if requires_ == [] then None else Some(requires_[0])),
           parent.None? && cfg.Cap(cls).Some?)
  }

  function Started(r: Registry, id: TaskId, parent: Option<TaskId>, cls: AdmissionClass, ticket: Ticket, submitted: int): Registry {
    var queued := if ticket.queued then Enqueued(r, ticket) else r;
    var tasks := if parent.Some? then WithChild(r.tasks, parent.value, id) else r.tasks;
    queued.(nextSeq := r.nextSeq + 1,
            tasks := tasks[id := Entry(r.nextSeq, NewInfo(id, parent, cls, submitted), [], 0, FRESH)])
  }

  function WithState(r: Registry, id: TaskId, state: TaskState): Registry
    requires id in r.tasks
  {
    r.(tasks := r.tasks[id := r.tasks[id].(info := r.tasks[id].info.(state := state))])
  }

  function StateSet(r: Registry, id: TaskId, state: TaskState): (Registry, seq<TaskEvent>) {
    if id in r.tasks then (WithState(r, id, state), [StateChanged(id, state)]) else (r, [])
  }

  function SetQueued(r: Registry, id: TaskId, waitingOn: Option<ResourceId>): (Registry, seq<TaskEvent>) {
    if id in r.tasks && r.tasks[id].info.state != Queued(waitingOn) then StateSet(r, id, Queued(waitingOn)) else (r, [])
  }

  /** A task and everything below it, gone. */
  function RemoveSubtree(tasks: map<TaskId, Entry>, id: TaskId): (left: map<TaskId, Entry>)
    ensures left.Keys <= tasks.Keys && |left| <= |tasks|
    decreases |tasks|, 0
  {
    if id !in tasks then tasks
    else
      assert tasks.Keys - {id} == (tasks - {id}).Keys;
      RemoveAll(tasks - {id}, tasks[id].children)
  }

  function RemoveAll(tasks: map<TaskId, Entry>, ids: seq<TaskId>): (left: map<TaskId, Entry>)
    ensures left.Keys <= tasks.Keys && |left| <= |tasks|
    decreases |tasks|, 1 + |ids|
  {
    if ids == [] then tasks else RemoveAll(RemoveSubtree(tasks, ids[0]), ids[1..])
  }

  /** The oldest settled roots go, with their subtrees, until few enough are left. */
  function Evicted(tasks: map<TaskId, Entry>, roots: seq<TaskId>, retained: nat): (map<TaskId, Entry>, seq<TaskId>)
    decreases |roots|
  {
    if |roots| <= retained then (tasks, roots) else Evicted(RemoveSubtree(tasks, roots[0]), roots[1..], retained)
  }

  function WithoutChild(tasks: map<TaskId, Entry>, parent: TaskId): map<TaskId, Entry> {
    if parent !in tasks then tasks
    else tasks[parent := tasks[parent].(liveChildren := LessOne(tasks[parent].liveChildren))]
  }

  /** The entry of a task that has ended, its last progress sent. */
  function EndedEntry(e: Entry, state: TaskState, now: int): Entry {
    e.(info := e.info.(state := state, settled := Some(now)), throttle := e.throttle.(pending := false))
  }

  function Settled(r: Registry, id: TaskId, state: TaskState, now: int, retained: nat): (Registry, seq<TaskEvent>) {
    if id !in r.tasks then (r, [])
    else
      var e := r.tasks[id];
      var tasks := r.tasks[id := EndedEntry(e, state, now)];
      var events := (if e.throttle.pending then [Progressed(id, e.info.progress)] else []) + [StateChanged(id, state)];
      if e.info.parent.Some? then (r.(tasks := WithoutChild(tasks, e.info.parent.value)), events)
      else
        var (left, roots) := Evicted(tasks, r.settledRoots + [id], retained);
        (r.(tasks := left, settledRoots := roots), events)
  }

  function ProgressReported(r: Registry, id: TaskId, progress: Progress, now: nat, interval: nat)
    : (Registry, seq<TaskEvent>, Option<nat>)
  {
    if id !in r.tasks || r.tasks[id].info.state.Terminal() then (r, [], None)
    else
      var e := r.tasks[id];
      var reported := Report(e.throttle, now, interval);
      (r.(tasks := r.tasks[id := e.(info := e.info.(progress := progress), throttle := reported.throttle)]),
       if reported.sent then [Progressed(id, progress)] else [],
       reported.timer)
  }

  function ProgressFlushed(r: Registry, id: TaskId, now: nat): (Registry, seq<TaskEvent>) {
    if id !in r.tasks then (r, [])
    else
      var e := r.tasks[id];
      if e.throttle.pending && !e.info.state.Terminal() then
        (r.(tasks := r.tasks[id := e.(throttle := Flush(e.throttle, now))]), [Progressed(id, e.info.progress)])
      else (r.(tasks := r.tasks[id := e.(throttle := e.throttle.(flushScheduled := false))]), [])
  }

  function ResourceSet(r: Registry, id: ResourceId, state: ResourceState): Registry {
    if id in r.resources then r.(resources := r.resources[id := state]) else r
  }

  function ResourceAdded(r: Registry, id: ResourceId, state: ResourceState): Registry {
    r.(resources := r.resources[id := state])
  }
}

/** The registry itself, updated in place; every method is one lock section. */
module Runtime {
  import opened Wrappers
  import opened Throttle
  import opened Registry

  class Runtime {
    const config: Config
    var nextSeq: nat
    var tasks: map<TaskId, Entry>
    var settledRoots: seq<TaskId>
    var resources: map<ResourceId, ResourceState>
    var admitted: map<Scope, nat>
    var queues: map<Scope, set<nat>>
    /** Everything sent on the event channel. */
    var events: seq<TaskEvent>

    function View(): Registry
      reads this
    {
      Registry(nextSeq, tasks, settledRoots, resources, admitted, queues)
    }

    constructor (config: Config)
      ensures View() == Registry(0, map[], [], map[], map[], map[]) && events == [] && this.config == config
    {
      this.config := config;
      nextSeq, tasks, settledRoots, resources, admitted, queues, events := 0, map[], [], map[], map[], map[], [];
    }

    method Send(event: TaskEvent)
      modifies this`events
      ensures events == old(events) + [event]
    {
      events := events + [event];
    }

    method Start(id: TaskId, parent: Option<TaskId>, cls: AdmissionClass, requires_: seq<ResourceId>, submitted: int)
      returns (ticket: Ticket)
      requires id !in tasks
      modifies this
      ensures ticket == TicketFor(old(View()), config, parent, cls, requires_)
      ensures View() == Started(old(View()), id, parent, cls, ticket, submitted)
      ensures events == old(events) + [Submitted(NewInfo(id, parent, cls, submitted))]
    {
      var scope := Scope(cls, if requires_ == [] then None else Some(requires_[0]));
      var queued := parent.None? && config.Cap(cls).Some?;
      var info := NewInfo(id, parent, cls, submitted);
      ticket := Ticket(nextSeq, scope, queued);
      nextSeq := nextSeq + 1;
      if queued {
        queues := queues[scope := (if scope in queues then queues[scope] else {}) + {ticket.seq_}];
      }
      if parent.Some? && parent.value in tasks {
        var entry := tasks[parent.value];
        tasks := tasks[parent.value := entry.(children := entry.children + [id], liveChildren := entry.liveChildren + 1)];
      }
      tasks := tasks[id := Entry(ticket.seq_, info, [], 0, FRESH)];
      Send(Submitted(info));
    }

    /** The loop over what a task requires, then its place in its scope. */
    method CheckAdmission(requires_: seq<ResourceId>, ticket: Ticket, cap: Option<nat>) returns (admission: Admission)
      ensures admission == AdmissionOf(View(), requires_, ticket, cap)
    {
      var i := 0;
      assert requires_[0..] == requires_;
      while i < |requires_|
        invariant 0 <= i <= |requires_|
        invariant Requirements(View(), requires_) == Requirements(View(), requires_[i..])
        decreases |requires_| - i
      {
        var resource := requires_[i];
        assert requires_[i..][1..] == requires_[i + 1..];
        if resource !in resources {
          return Refuse("a resource this task requires does not exist");
        }
        match resources[resource] {
          case Ready =>
          case Gone => return Refuse("a resource this task requires is gone");
          case _ => return Wait(Some(resource));
        }
        i := i + 1;
      }
      if cap.None? {
        return Admit;
      }
      var count := if ticket.scope in admitted then admitted[ticket.scope] else 0;
      var first := SmallestOf(if ticket.scope in queues then queues[ticket.scope] else {});
      if count < cap.value && first == Some(ticket.seq_) {
        return Admit;
      }
      return Wait(None);
    }

    /** `BTreeSet::first`. */
    method SmallestOf(queue: set<nat>) returns (first: Option<nat>)
      ensures first.None? <==> queue == {}
      ensures first.Some? ==> First(queue, first.value)
    {
      var rest := queue;
      ghost var seen: set<nat> := {};
      first := None;
      while rest != {}
        invariant queue == seen + rest
        invariant if first.Some? then First(seen, first.value) else seen == {}
        decreases |rest|
      {
        var n :| n in rest;
        rest, seen := rest - {n}, seen + {n};
        first := if first.None? || n < first.value then Some(n) else first;
      }
    }

    method Dequeue(ticket: Ticket)
      modifies this`queues
      ensures View() == Dequeued(old(View()), ticket)
    {
      if ticket.scope in queues {
        var queue := queues[ticket.scope] - {ticket.seq_};
        queues := queues[ticket.scope := queue];
        if queue == {} {
          queues := queues - {ticket.scope};
          assert queues == old(queues) - {ticket.scope};
        }
      }
    }

    /** One turn of the admission loop: the check, and taking the place it found, under one lock. */
    method TryAdmit(requires_: seq<ResourceId>, ticket: Ticket) returns (decision: Admission)
      modifies this
      ensures decision == AdmissionOf(old(View()), requires_, ticket, if ticket.queued then config.Cap(ticket.scope.cls) else None)
      ensures View() == if ticket.queued && decision == Admit then AdmittedInto(old(View()), ticket) else old(View())
      ensures events == old(events)
    {
      decision := CheckAdmission(requires_, ticket, if ticket.queued then config.Cap(ticket.scope.cls) else None);
      if ticket.queued && decision == Admit {
        admitted := admitted[ticket.scope := (if ticket.scope in admitted then admitted[ticket.scope] else 0) + 1];
        Dequeue(ticket);
      }
    }

    method DropSlot(scope: Scope)
      modifies this`admitted
      ensures View() == SlotGivenBack(old(View()), scope)
    {
      if scope in admitted {
        admitted := admitted[scope := if admitted[scope] == 0 then 0 else admitted[scope] - 1];
      }
    }

    method SetState(id: TaskId, state: TaskState)
      modifies this`tasks, this`events
      ensures View() == StateSet(old(View()), id, state).0
      ensures events == old(events) + StateSet(old(View()), id, state).1
    {
      if id in tasks {
        tasks := tasks[id := tasks[id].(info := tasks[id].info.(state := state))];
        Send(StateChanged(id, state));
      }
    }

    method SetQueuedOn(id: TaskId, waitingOn: Option<ResourceId>)
      modifies this`tasks, this`events
      ensures View() == SetQueued(old(View()), id, waitingOn).0
      ensures events == old(events) + SetQueued(old(View()), id, waitingOn).1
    {
      if id in tasks && tasks[id].info.state != Queued(waitingOn) {
        SetState(id, Queued(waitingOn));
      }
    }

    method RemoveSubtreeAt(id: TaskId)
      modifies this`tasks
      ensures tasks == RemoveSubtree(old(tasks), id)
      decreases |tasks|, 0
    {
      if id in tasks {
        var entry := tasks[id];
        assert (tasks - {id}).Keys == tasks.Keys - {id};
        tasks := tasks - {id};
        RemoveEach(entry.children);
      }
    }

    method RemoveEach(ids: seq<TaskId>)
      modifies this`tasks
      ensures tasks == RemoveAll(old(tasks), ids)
      decreases |tasks|, 1 + |ids|
    {
      if ids != [] {
        RemoveSubtreeAt(ids[0]);
        RemoveEach(ids[1..]);
      }
    }

    method Settle(id: TaskId, state: TaskState, now: int)
      modifies this
      ensures View() == Settled(old(View()), id, state, now, config.retainedRoots).0
      ensures events == old(events) + Settled(old(View()), id, state, now, config.retainedRoots).1
    {
      if id !in tasks {
        return;
      }
      var entry := tasks[id];
      if entry.throttle.pending {
        Send(Progressed(id, entry.info.progress));
      }
      tasks := tasks[id := EndedEntry(entry, state, now)];
      Send(StateChanged(id, state));
      if entry.info.parent.Some? {
        var parent := entry.info.parent.value;
        if parent in tasks {
          tasks := tasks[parent := tasks[parent].(liveChildren := LessOne(tasks[parent].liveChildren))];
        }
      } else {
        settledRoots := settledRoots + [id];
        ghost var all, roots := tasks, settledRoots;
        while |settledRoots| > config.retainedRoots
          invariant Evicted(all, roots, config.retainedRoots) == Evicted(tasks, settledRoots, config.retainedRoots)
          invariant nextSeq == old(nextSeq) && resources == old(resources) && admitted == old(admitted)
          invariant queues == old(queues)
          modifies this`settledRoots, this`tasks
        {
          var oldest := settledRoots[0];
          settledRoots := settledRoots[1..];
          RemoveSubtreeAt(oldest);
        }
      }
    }

    method ReportProgress(id: TaskId, progress: Progress, now: nat) returns (timer: Option<nat>)
      modifies this`tasks, this`events
      ensures var (after, sent, wait) := ProgressReported(old(View()), id, progress, now, config.progressInterval);
              View() == after && events == old(events) + sent && timer == wait
    {
      if id !in tasks || tasks[id].info.state.Terminal() {
        return None;
      }
      var entry := tasks[id].(info := tasks[id].info.(progress := progress));
      var last := entry.throttle.lastSent;
      if last.None? || Since(now, last.value) >= config.progressInterval {
        tasks := tasks[id := entry.(throttle := entry.throttle.(lastSent := Some(now), pending := false))];
        Send(Progressed(id, progress));
        return None;
      }
      var scheduled := entry.throttle.flushScheduled;
      tasks := tasks[id := entry.(throttle := entry.throttle.(pending := true, flushScheduled := true))];
      timer := None;
      if !scheduled {
        var waited := Since(now, last.value);
        timer := Some(if config.progressInterval >= waited then config.progressInterval - waited else 0);
      }
    }

    method FlushProgress(id: TaskId, now: nat)
      modifies this`tasks, this`events
      ensures View() == ProgressFlushed(old(View()), id, now).0
      ensures events == old(events) + ProgressFlushed(old(View()), id, now).1
    {
      if id !in tasks {
        return;
      }
      var entry := tasks[id].(throttle := tasks[id].throttle.(flushScheduled := false));
      if entry.throttle.pending && !entry.info.state.Terminal() {
        tasks := tasks[id := entry.(throttle := entry.throttle.(pending := false, lastSent := Some(now)))];
        Send(Progressed(id, entry.info.progress));
      } else {
        tasks := tasks[id := entry];
      }
    }

    method SetResource(id: ResourceId, state: ResourceState)
      modifies this`resources
      ensures View() == ResourceSet(old(View()), id, state)
    {
      if id in resources {
        resources := resources[id := state];
      }
    }

    /** Whether any task has not settled. */
    method Busy() returns (busy: bool)
      ensures busy <==> exists id :: id in tasks && !tasks[id].info.state.Terminal()
    {
      busy := exists id :: id in tasks && !tasks[id].info.state.Terminal();
    }
  }
}
