# A verified model of a file-peeker's core

This Dafny project models the parts of a terminal and desktop file browser, and of the server it works through, in which
state is updated in place by several actors, and proves what those parts are meant to keep. To verify:
`dafny verify dfyconfig.toml`.

## What is modelled

- **The server's runtime** (`Throttle.dfy`, `Registry.dfy`, `TaskProgress.dfy`, `Scheduler.dfy`, `Steps.dfy`,
  `FairAdmission.dfy`, `Family.dfy`, `Published.dfy`, `Lifecycle.dfy`, `Cancellation.dfy`, `Wake.dfy`, `Record.dfy`,
  `Places.dfy`, `Asked.dfy`, `Idle.dfy`). `Registry` says what
  each section under the registry's lock does to the registry; the class in `Runtime` does it in place and is proved against
  it. `Scheduler` is the whole: one driver per submitted piece of work, each with a place in its code, the registry they
  share, callers waiting for idleness, cancellation tokens, progress timers, and `notify_waiters`, which is a step of its own
  after the lock section that made it due. A step is one lock section, one notification or one wake-up, in any order the
  places allow. The modules after it prove invariants of every run, all from one set of frame lemmas (`Steps`);
  `TaskProgress` that every run takes each piece of work along a run of the coalescing line in `Throttle`; and `Wake` that a
  runtime left with nothing to do has nothing left undone. `Record`, `Places`, `Asked` and `Idle` say in terms of the steps
  alone what the others keep in terms of tickets, queues and tokens: what each task shows, who holds a place and in what
  order, who is cancelled and who is not, when a caller of `idle` returns, and that a cancelled runtime comes to rest.
- **The watch stream** (`Watch.dfy`): one forwarder interleaved with that runtime, with a bounded event log it may lag
  behind, and the quiet it can always come to.
- **The client's list** (`Machine.dfy`): what one machine's pane shows, and for how long.
- **The streaming tree** (`BrowserTree.dfy`, `BrowserState.dfy`, `BrowserRun.dfy`, `Tree.dfy`, `Window.dfy`,
  `BrowserContext.dfy`): the flat pre-order rows with cached insertion points, proved in place against an ordered forest; the
  filter's window over the rows; and the context that decides which listing events count.
- **Escaped paths** (`PathString.dfy`), with UTF-8 taken from section 4 of RFC 3629.
- **Smaller cores**: the explicit-stack directory walk (`Walk.dfy`), the file published whole or not at all
  (`WriteFile.dfy`), the framing of a write request (`RequestStream.dfy`), dates and sizes (`Calendar.dfy`), and quoting for a
  POSIX shell (`ShellQuote.dfy`).

`Wrappers.dfy` holds `Option` and `Result`.

## Assumptions

- A body's context does not outlive the body: children are spawned and progress reported only while it runs.
- Bodies are arbitrary: they spawn, report, and end at any time with any outcome; one ends as cancelled only if its token is.
- Clocks are parameters. The one progress is reported and flushed by never runs backwards, and a progress timer fires no
  sooner than it was set for, and as late as it likes.
- The event channel is a log of which a subscriber keeps a position; a subscriber further behind than the buffer, whatever
  its size, learns only that it missed events.
- Each awaited filesystem operation happens at once or not at all, and other actors neither use the partial file's name while
  it is in use nor write into the file it names.
- A name's match with a filter's text, and a path's place under a directory, are arbitrary predicates.
- Snapshots name each piece of work once.

## Where code and documents disagree

The model follows the code. For each of these there is a lemma with an input that shows the difference, and one that says
exactly when the document is right.

- `src/path_string.rs:31-33` and `195-199` say decoding accepts only canonical strings. It accepts `%C3%A9`, which decodes to
  the bytes of `é` (`PathString.AcceptedIsNotCanonical`); an accepted string is canonical exactly when no run of hex escapes
  in it spells out a character (`PathString.CanonicalExactly`).
- `src/task/mod.rs:204-205` promises at most one `Progressed` event per interval. A timer that fires late may closely follow
  an event sent because it was due (`Throttle.TwoInOneInterval`). One per interval is kept by a run exactly when no timer in
  it does so (`Throttle.OnePerIntervalExactly`, and of tasks `TaskProgress.TaskApartExactly`), and by every run in which
  nothing is reported while a timer is overdue (`Throttle.OnePerIntervalOnTime`); two in any interval is the bound always
  (`Throttle.ThrottledRun`, `TaskProgress.TaskThrottled`).
- `docs/task-pipeline.md:170-171` says queued work that is cancelled settles without running. The token is looked at only
  while asleep (`src/task/runtime.rs:489-494`), so it may be admitted first, run and succeed (`Lifecycle.CancelledYetRuns`).
  Not woken by a notification afterwards, it runs exactly when it had its place already, or its check still before it and
  that check admits it (`Lifecycle.CancelledRunsExactly`); in general, exactly when some check admits it
  (`Lifecycle.RanExactly`).
- `old/src/browser/tree.rs:205-208` expects a row without children. Stepping into a failed directory
  (`old/src/tui/browser_context.rs:535-547`) may pass one that kept some (`BrowserRun.ReopenedWithChildren`); the
  placements stay right exactly when the row is childless, not loading and not at the depth limit
  (`BrowserState.BeginKeepsPlacedExactly`).
- `old/src/browser/window.rs:78-80` says a non-empty filtered list has a match. The scope's row is shown without one
  (`BrowserWindow.ShownWithoutMatch`); the claim fails exactly when that row is there and nothing hits, and never without a
  scope (`BrowserWindow.MatchToLandOn`).
- `old/src/browser/value.rs:51-52` says a time before 1970 is floored. Its fraction of a second is dropped towards 1970, so
  in the last second before a minute it shows as that minute (`DisplayedValue.LastSecondShowsNextMinute`), and only then
  (`DisplayedValue.ModifiedExactly`).

## Model

| member | source | states |
|---|---|---|
| `Wake.AlwaysNoneLost` | src/task/runtime.rs:444-532 | In every reachable state a driver asleep in its admission wait or waiting for its children, or a caller waiting for idleness, whose condition already holds has been notified, or someone still owes a notification |
| `Wake.NextNoneLost` | src/task/runtime.rs:456-494 | Each step keeps that: a step either notifies, leaves a notification owed, or meets no sleeper's condition |
| `Wake.NothingStuck` | src/task/runtime.rs:444-525 | When the runtime has no step of its own left, every body over, no resource an unsettled task requires still pending or closing and the cap of no unsettled task's class zero, every task has settled and everyone waiting for idleness has been let go |
| `Wake.NeverStuck` | src/task/runtime.rs:174-191 | The same of every state reachable from the empty runtime |
| `Wake.NoWaiter` | src/task/runtime.rs:478-482 | In such a state no one waits for a place: whoever is first in a queue with room would have been woken |
| `Wake.NoFinisher` | src/task/runtime.rs:500-525 | In such a state no one waits for children: the youngest waiter would have a live child younger still |
| `Idle.LookExactly` | src/task/runtime.rs:174-191 | A caller of `idle` that looks is let go exactly when every retained task has succeeded, failed or been cancelled |
| `Idle.LetGoOnlyWhenIdle` | src/task/runtime.rs:174-191 | In every run, whoever was let go had looked at a moment when all of them had |
| `Stopping.CancelledComesToRest` | docs/task-pipeline.md:164-173 | Cancelled as a whole and given no new root, a runtime with no step of its own left has settled every task and let every caller of `idle` go, whatever resources are on their way |
| `Places.AtMostCap` | src/task/runtime.rs:20-62 | In every run at most a class's cap of the roots of that class and one first requirement are past admission with their place not given back |
| `Places.InTurn` | src/task/runtime.rs:444-475 | Once one such root has its place or has run, none of them submitted before it is still in line |
| `Places.CheckExactly` | src/task/runtime.rs:591-634 | What a check finds, from the steps so far: with every requirement ready a task goes on, but a root of a capped class only if a place is free among its kind and none of them is in line before it, so a child or a root of an uncapped class never waits for one; else the first requirement not ready is waited for, or refuses the task if gone or unknown |
| `Places.WaitShown` | src/task/runtime.rs:534-545 | Going to sleep, a task shows what its check found it waits for, and tells of it when it did not show it already |
| `Record.AlwaysAsSaid` | src/task/runtime.rs:324-369 | In every reachable state each retained task shows its parent, class and times as its start and settling gave them and the progress it last reported; each driver requires and queues for what its start said; each resource is in the state it was last put in; and each submission told of is of a task as started |
| `Record.EndIsLast` | src/task/runtime.rs:555-572 | In every run's log a task's end comes once, after its last progress and after everything else that is said of it |
| `Record.NextCaused` | src/task/runtime.rs:534-572 | Each event says what the step that sent it did, of the task it did it to |
| `Record.CanStart` | src/task/runtime.rs:324-369 | Anyone can start a root of any class and requirements at any time, and a body a child: it is retained, queued, and its parent's last child |
| `Record.BodyCan` | src/task/runtime.rs:406-423 | A body can report from the last time on and end, and be told of its cancellation once cancelled |
| `Record.CallersCan` | src/task/runtime.rs:152-233 | Whoever holds the runtime can cancel, add and set resources and wait for idleness at any time |
| `FairAdmission.AlwaysFair` | src/task/runtime.rs:591-634 | In every reachable state a scope's count is the number of slots held there and within its cap, its queue is exactly its live unadmitted roots, and places went in submission order |
| `FairAdmission.NextFair` | src/task/runtime.rs:346-352 | Every step of every task keeps that |
| `FairAdmission.AdmittedInTurn` | src/task/runtime.rs:624-633 | Whoever is admitted was submitted before everyone still queued in its scope and after everyone admitted there, and had room |
| `FairAdmission.NeverSaturates` | src/task/runtime.rs:675-685 | Giving a slot back takes exactly one from a count above zero; the saturating subtraction never saturates |
| `Family.AlwaysWhole` | src/task/runtime.rs:555-588 | In every reachable state tasks and drivers correspond, the tree is closed under parents and children, each live count is the number of unsettled children, the settled roots are exactly the retained settled roots, at most as many as are to be retained, and are the last of all the roots settled, in settle order |
| `Family.NextWhole` | src/task/runtime.rs:353-369 | Every step keeps the tree so |
| `Family.RunWhole` | src/task/runtime.rs:579-584 | From any such state, the settled roots after a run are the last of those before it and those the run settled |
| `Family.CountNeverSaturates` | src/task/runtime.rs:574-577 | A child settles only under a retained parent that counts it live, so that subtraction never saturates either |
| `Family.NextRoots` | src/task/runtime.rs:578-585 | One step changes the settled roots only by settling a root, which goes last, the oldest going if there are too many |
| `Eviction.EvictionKeeps` | src/task/runtime.rs:578-585 | Eviction removes whole subtrees, only settled tasks, and leaves the newest settled roots |
| `Eviction.RootEvicted` | src/task/runtime.rs:654-660 | Removing a settled root's subtree leaves the tree closed and counted, and takes no unsettled task and no other root |
| `Eviction.SubtreeCutOff` | src/task/runtime.rs:654-660 | What is removed takes its children with it, and is the task itself or a child of something removed |
| `Eviction.GoneEnded` | src/task/runtime.rs:654-660 | Everything in a settled root's subtree has settled |
| `Cancellation.AlwaysSubtreeEnded` | src/task/runtime.rs:500-501 | In every reachable state everything below a settled task has settled |
| `Cancellation.LineageExact` | src/task/runtime.rs:143-150 | The tokens above a task's are exactly those of the tasks it descends from |
| `Cancellation.AlwaysLineaged` | src/task/runtime.rs:143-150 | So it is in every reachable state |
| `Cancellation.CancelReaches` | src/task/runtime.rs:155-162 | After a task is cancelled, in every later state everything below it is cancelled, children spawned later included |
| `Cancellation.CancelAllSticks` | src/task/runtime.rs:165-172 | After everything is cancelled, while no new root is submitted every unsettled task stays cancelled |
| `Cancellation.RunAsked` | src/task/runtime.rs:500-525 | A task waiting for its children has cancelled every child it still waits for, throughout the run |
| `Asked.CancelsExactly` | src/task/runtime.rs:155-172 | After any step a task there already is cancelled exactly if it was, or if the step cancels it or a task it descends from: the one named if unsettled, every unsettled one, or a finishing task's unsettled children |
| `Asked.CancelledOnlyIfAsked` | src/task/runtime.rs:155-172 | In every run a task is cancelled only if it or a task above it was named, was there when everything was cancelled, or is a child whose parent's finishing cancelled its children |
| `Asked.ShownOnlyIfAsked` | src/task/runtime.rs:406-440 | So no run shows a task cancelling or cancelled that no one asked to cancel |
| `Lifecycle.AlwaysForward` | src/task/runtime.rs:534-588 | Every task's history is queued states, then at most one each of running, cancelling and an end, nothing after it; the registry stands where the history does |
| `Lifecycle.AlwaysRecorded` | src/task/runtime.rs:534-588 | The registry and the event log agree on every task in every reachable state |
| `Lifecycle.OrderedMeans` | src/task/runtime.rs:386-440 | Such a history never goes back, stays only while queued, and has nothing after an end |
| `Lifecycle.RanExactly` | src/task/runtime.rs:476-495 | A settled task had run exactly when some admission check of it found it could be admitted, cancelled or not |
| `Lifecycle.CancelledWaitNeverRuns` | src/task/runtime.rs:489-494 | Once the admission wait has ended by cancellation the task never runs, and can only settle cancelled |
| `Lifecycle.AsleepUnlessWoken` | src/task/runtime.rs:489-494 | A task asleep in its admission wait that no notification wakes never runs, and can only settle cancelled |
| `Lifecycle.CancelledYetRuns` | docs/task-pipeline.md:169-172 | The document's claim that a cancelled queued task settles without running fails: submitted, cancelled before its first check, admitted, it runs and, told of the cancellation or not, settles with any outcome |
| `Lifecycle.CancelledRunsExactly` | docs/task-pipeline.md:169-172 | A task cancelled before it has run, and not woken by a notification afterwards, has run by the time it settles exactly when it had a place already, or had its check still before it and that check admits it |
| `Lifecycle.RunGaveUp` | src/task/runtime.rs:395-404 | A task refused or cancelled in its wait settles with that outcome and no other, and never runs |
| `Lifecycle.SilentAfterEnd` | src/task/runtime.rs:555-572 | Once a task has settled, no event of it is sent again, progress included |
| `Published.NextTold` | src/task/runtime.rs:534-588 | Every step's events tell of every change it makes, but for progress still held back, and only a launch tells of a task running |
| `Throttle.ThrottledRun` | src/task/runtime.rs:253-308 | For any report times and any late timers: no event follows the end, the last one carries the final progress, and no three events but the one the end sends lie within one interval |
| `Throttle.SentAtOnceExactly` | src/task/runtime.rs:260-276 | A report goes out at once exactly when an interval has passed since the last event, and is held back otherwise |
| `Throttle.HeldBackFires` | src/task/runtime.rs:294-308 | What is held back has a timer, and goes out when it fires |
| `Throttle.HeldBackBriefly` | src/task/runtime.rs:277-291 | That timer is set for no later than an interval after the last event |
| `Throttle.OnePerIntervalExactly` | src/task/mod.rs:204-205 | The document's one event an interval holds of a whole run, its end aside, exactly when no timer in it fires with something pending before an interval has passed since the last event |
| `Throttle.OnePerIntervalOnTime` | src/task/mod.rs:204-205 | It holds of every run in which no report is made while a timer is overdue |
| `Throttle.TwoInOneInterval` | src/task/mod.rs:204-205 | The witness: two events 30 apart with an interval of 100 |
| `TaskProgress.ReportFollows` | src/task/runtime.rs:253-291 | Reporting does to a task's entry what a report does to the throttled line, and sends what the line sends |
| `TaskProgress.FlushFollows` | src/task/runtime.rs:294-308 | So does a timer firing |
| `TaskProgress.NextAlong` | src/task/runtime.rs:253-308 | Every step of the runtime is at most one move of any one task's line, sends what that move sends, and leaves the entry and its timers as the line has them |
| `TaskProgress.RunAlong` | src/task/runtime.rs:253-308 | So every run of the runtime is, for each task, a run of its line |
| `TaskProgress.TaskThrottled` | src/task/runtime.rs:253-308 | In every run no three progress events of a task but the one its end sends lie within one interval, and the last shows what the registry holds unless some is held back, and then the task is unsettled and a timer of it still to fire |
| `TaskProgress.TaskApartExactly` | src/task/mod.rs:204-205 | Any two of them are an interval apart exactly when no timer of the task fires too early, and so whenever it never reports while a timer of it is overdue |
| `TaskProgress.SendsAreLogged` | src/task/runtime.rs:253-308 | Those events are the ones the event log shows, in its order |
| `Runtime.Runtime.constructor` | src/task/runtime.rs:125-135 | The registry begins empty |
| `Runtime.Runtime.Start` | src/task/runtime.rs:346-372 | The lock section of a start does what the specification of one does, and sends `Submitted` |
| `Runtime.Runtime.CheckAdmission` | src/task/runtime.rs:591-634 | The loop over the requirements and the place in the queue decide as the specification does |
| `Runtime.Runtime.SmallestOf` | src/task/runtime.rs:625-628 | The first of a queue is its smallest number |
| `Runtime.Runtime.TryAdmit` | src/task/runtime.rs:463-475 | The check and the taking of the place are one change of the registry |
| `Runtime.Runtime.Dequeue` | src/task/runtime.rs:645-652 | A number leaves its queue, and an empty queue its map |
| `Runtime.Runtime.DropSlot` | src/task/runtime.rs:675-684 | A slot's drop takes one from its scope's count |
| `Runtime.Runtime.SetState` | src/task/runtime.rs:547-553 | The new state is set and told |
| `Runtime.Runtime.SetQueuedOn` | src/task/runtime.rs:534-545 | What a queued task waits on is set and told only when it differs |
| `Runtime.Runtime.RemoveSubtreeAt` | src/task/runtime.rs:654-660 | The recursive removal in place removes what the specification removes |
| `Runtime.Runtime.RemoveEach` | src/task/runtime.rs:656-658 | And so the loop over the children |
| `Runtime.Runtime.Settle` | src/task/runtime.rs:555-586 | Settling in place: flush, end, parent's count or retention, as specified |
| `Runtime.Runtime.ReportProgress` | src/task/runtime.rs:253-291 | Reporting in place, and how long its timer is set for |
| `Runtime.Runtime.FlushProgress` | src/task/runtime.rs:294-308 | The timer's flush in place |
| `Runtime.Runtime.SetResource` | src/task/runtime.rs:225-233 | A resource's state changes if it exists |
| `Runtime.Runtime.Busy` | src/task/runtime.rs:181-186 | Idleness is that no task is unsettled |
| `Watch.Converges` | src/server/attach.rs:105-161 | However runtime and watcher interleave and however often it lags, once the events are received and no progress is held back, what it sent last of a retained task is what the task is |
| `Quiet.CanBeQuiet` | src/server/attach.rs:105-153 | From wherever runtime and watcher have got to, while the stream is open, they can go on to that: a timer is there to send what is held back, and the watcher catches up |
| `Watch.AnswersEvent` | src/server/attach.rs:114-152 | Each event within the buffer is answered with its task as it is by then, one evicted since excepted; further behind, a snapshot is sent instead |
| `Watch.NeverBackwards` | src/server/attach.rs:101-104 | Whatever part of the channel the client has taken in, its copy of a task never moves backwards in its lifecycle |
| `Watch.NextWatched` | src/server/attach.rs:114-152 | Every step of the runtime or the watcher leaves each difference covered by an event to come, a snapshot to come or held-back progress, and nothing sent ahead of the registry |
| `Watch.RunWatched` | src/server/attach.rs:105-153 | And so does every run |
| `Watch.LastIsWhole` | src/server/attach.rs:94-99 | The last event of a closing stream shows every retained task as it is, and no other |
| `Watch.ClosesWhole` | src/server/attach.rs:94-99 | A watcher listening when the server closes ends with such a snapshot; a client can leave at any time |
| `Watch.ToldCovers` | src/server/attach.rs:127-135 | A task changed by a step has an event to come or progress held back |
| `MachineTasks.StepsValid` | src/tui/app.rs:349-401 | For every run of snapshots without repeats, changes and expiries, ids stay unique, tasks sorted by submission, and times kept for exactly the settled tasks held |
| `MachineTasks.AppliedValid` | src/tui/app.rs:349-389 | So one update leaves them |
| `MachineTasks.ExpiredKeeps` | src/tui/app.rs:391-401 | Expiry drops exactly the settled tasks whose linger is over, and keeps the times of the rest |
| `MachineTasks.UnsettledNeverExpires` | src/tui/app.rs:391-401 | An unsettled task is never dropped by expiry |
| `MachineTasks.SnapshotShows` | src/tui/app.rs:351-374 | After a snapshot its unsettled tasks are shown; of its settled ones those held unsettled, as settled now, and those held settled, with their time until the linger is over; none not held, and nothing else |
| `MachineTasks.LingersOnce` | src/tui/app.rs:356-367 | However often snapshots repeat a settled task, its time does not move, it is gone once its linger is over, and they do not bring it back |
| `MachineTasks.ChangeRestarts` | src/tui/app.rs:349-401 | After a whole update by a change: the changed task is shown unless it has been settled for the linger, its time kept if it was held and now if it was gone, and of the others only settled ones past their linger have gone |
| `MachineTasks.SortedStable` | src/tui/app.rs:387 | The sort keeps every task, orders them, and keeps the order of those submitted together |
| `MachineTasks.ChangedInPlace` | src/tui/app.rs:375-385 | A changed task takes the place of the one it replaces, or the last; no other task moves |
| `MachineTasks.InOrderTaken` | src/tui/app.rs:351-374 | What a snapshot leaves is in its order, until sorted |
| `MachineTasks.InOrderExpired` | src/tui/app.rs:391-401 | What expiry leaves is in the order it was in |
| `MachineTasks.Machine.constructor` | src/tui/app.rs:127-142 | A machine begins with no tasks |
| `MachineTasks.Machine.Apply` | src/tui/app.rs:349-389 | The update in place is the specified one and keeps the list valid |
| `MachineTasks.Machine.TakeSnapshot` | src/tui/app.rs:351-374 | The loop over a snapshot |
| `MachineTasks.Machine.TakeChange` | src/tui/app.rs:375-385 | The search and replacement of one task |
| `MachineTasks.Machine.Expire` | src/tui/app.rs:391-401 | The two retentions |
| `PathString.RoundTrip` | src/path_string.rs:73-150 | Decoding undoes escaping, for every byte string |
| `PathString.Injective` | src/path_string.rs:73-100 | No two byte strings escape alike |
| `PathString.EscapedIsUtf8` | src/path_string.rs:73-100 | The escape of any bytes is UTF-8, by section 4 of RFC 3629 |
| `PathString.Escape` | src/path_string.rs:73-100 | The loop over valid runs and errors computes the escape |
| `PathString.PushValid` | src/path_string.rs:103-113 | The split at markers doubles every marker of a run |
| `PathString.Unescape` | src/path_string.rs:116-150 | The index loop decodes, or finds the first error, as specified |
| `PathString.EscapedAtSeparator` | src/path_string.rs:26-28 | Escaping distributes over a separator |
| `PathString.JoinEscaped` | src/path_string.rs:243-249 | Joining escaped halves is escaping the joined path |
| `PathString.JoinSeparatesOnce` | src/path_string.rs:243-249 | One separator comes between a path and a name, whether or not the path ends in it, and none after no path |
| `PathString.UnescapedAtSeparator` | old/src/host_path.rs:200-214 | A string is accepted exactly when both sides of a separator in it are, and decodes to their join: cutting at separators never cuts an escape |
| `PathString.CanonicalExactly` | src/path_string.rs:195-199 | An accepted string is the escape of what it decodes to exactly when no run of hex escapes in it spells out a character |
| `PathString.EscapedIsCanonical` | src/path_string.rs:31-33 | On the image of the escape, it always is |
| `PathString.AcceptedIsNotCanonical` | src/path_string.rs:31-33 | The document's claim that decoding accepts only canonical strings fails on `%C3%A9` |
| `Utf8.InvalidAfter` | src/path_string.rs:76-86 | No character starts where the longest valid prefix ends |
| `Utf8.CharsExactly` | src/path_string.rs:76-86 | What is taken for a character is exactly the encoding, by section 3 of RFC 3629, of a number that is no surrogate and not above U+10FFFF |
| `PathString.TextReadsAsItself` | src/path_string.rs:18-24 | The escape of UTF-8 is itself with its percent signs doubled |
| `PathString.StrayByteReadsAsHex` | src/path_string.rs:18-24 | A byte outside UTF-8 is a percent sign and two upper-case digits |
| `PathString.EscapedSeparators` | src/path_string.rs:26-28 | The escape of a name holds no separator unless the name does |
| `PathString.StopsExactly` | src/path_string.rs:116-150 | Decoding stops at the first percent sign neither doubled nor starting the escape of a byte from 0x80 on, with the error for what is wrong there, and otherwise goes on |
| `BrowserRun.RunRepresents` | old/src/browser/tree.rs:125-233 | After every legal run of listings, expansions and collapses, the rows are the flattening of the ordered tree the same run builds, and the placements are right |
| `BrowserRun.RunHolds` | old/src/browser/tree.rs:125-233 | Each opened directory holds exactly the groups of its own request, in the order they came, however directories interleave |
| `BrowserRun.LateLeavesNoTrace` | old/src/tui/browser_context.rs:865-870 | What arrives for a request no longer in flight changes nothing in the whole run |
| `BrowserRun.NextRepresents` | old/src/browser/tree.rs:125-233 | One operation on the rows is that operation on the tree |
| `BrowserState.InsertionKeepsPlaced` | old/src/browser/tree.rs:251-262 | Shifting the cached insertion points after an insertion leaves each at the end of its row's subtree, though none is recomputed |
| `BrowserState.RemovalKeepsPlaced` | old/src/browser/tree.rs:267-281 | And so after a removal |
| `BrowserState.LastShiftNeverTaken` | old/src/browser/tree.rs:276-280 | The last branch of the shift after a removal is never taken |
| `BrowserState.BeginKeepsPlacedExactly` | old/src/browser/tree.rs:205-208 | Beginning an expansion keeps the placements right exactly when the row is childless, not loading and not at the depth limit |
| `BrowserRun.ReopenedWithChildren` | old/src/tui/browser_context.rs:535-547 | From an empty root, for any names: a directory is listed, opened, given a child and fails; expanded again as stepping into it does, its next group lands ahead of that child |
| `BrowserState.SelectionFollowsRow` | old/src/browser/tree.rs:167-171 | A group lands without moving the selection to another row |
| `BrowserState.SubtreeEndEnds` | old/src/browser/tree.rs:235-241 | The scan for a subtree's end finds where its rows stop being deeper |
| `BrowserForest.GrowIsInsertion` | old/src/browser/tree.rs:162-180 | Adding a group to a directory of the tree is inserting its rows at that subtree's end |
| `BrowserForest.SettleIsUpdate` | old/src/browser/tree.rs:182-191 | Settling a request is changing its one row |
| `BrowserForest.OpenIsUpdate` | old/src/browser/tree.rs:199-213 | Opening a directory is changing its one row |
| `BrowserForest.CloseIsRemoval` | old/src/browser/tree.rs:216-233 | Closing a directory is removing the rows of its subtree |
| `BrowserTree.Tree.constructor` | old/src/browser/tree.rs:51-59 | A tree begins with no rows |
| `BrowserTree.Tree.ExtendRoot` | old/src/browser/tree.rs:125-140 | Root entries in place, selection and placements as specified |
| `BrowserTree.Tree.FinishRoot` | old/src/browser/tree.rs:142-148 | The status, and the selection clamped |
| `BrowserTree.Tree.ExpandingPath` | old/src/browser/tree.rs:152-155 | The path of the row a request fills, if it is in flight |
| `BrowserTree.Tree.ExtendChild` | old/src/browser/tree.rs:162-180 | A group spliced in, and the tree it leaves |
| `BrowserTree.Tree.FinishChild` | old/src/browser/tree.rs:182-191 | A request over, and the tree it leaves |
| `BrowserTree.Tree.BeginExpansion` | old/src/browser/tree.rs:199-213 | A row marked loading; under a new request the tree stays valid exactly when the row was childless, not loading and not at the depth limit |
| `BrowserTree.Tree.Reroot` | old/src/browser/tree.rs:67-71 | Another root: no rows, nothing selected, loading |
| `BrowserTree.Tree.Collapse` | old/src/browser/tree.rs:216-233 | A subtree drained, the requests dropped reported, and the tree it leaves |
| `BrowserTree.Tree.DropRequests` | old/src/browser/tree.rs:218-229 | Exactly the requests in flight among the closing rows are dropped, in row order |
| `BrowserTree.Tree.PlacementsAfterInsertion` | old/src/browser/tree.rs:251-262 | The loop over the placements |
| `BrowserTree.Tree.PlacementsAfterRemoval` | old/src/browser/tree.rs:267-281 | The loop over the placements |
| `BrowserWindow.Window` | old/src/browser/tree.rs:300-341 | The rows emitted are in increasing order exactly the hits, the scope's row and their ancestors, each once, and `matches` counts the hits |
| `BrowserWindow.WindowShows` | old/src/browser/tree.rs:300-341 | The hits are the rows in scope, the scope's own excepted, whose names have the text in them, if there is one |
| `BrowserWindow.PartitionPoint` | old/src/browser/window.rs:96-98 | The binary search finds the first position not before a row |
| `BrowserWindow.PositionOf` | old/src/browser/window.rs:56-61 | It agrees with a linear search for the first row at or after the one asked for |
| `BrowserWindow.Matched` | old/src/browser/window.rs:66-73 | A row matched is one of the matched rows |
| `BrowserWindow.MatchPositionOf` | old/src/browser/window.rs:81-91 | The nearest match at or after a row, else the last, as a linear search finds it; none exactly when nothing matched; with every row shown, the row itself or the last |
| `BrowserWindow.MatchToLandOn` | old/src/browser/window.rs:78-80 | A window that is not empty has a match to land on exactly unless its scope's directory is among the rows and nothing hits; without a scope it always has one |
| `BrowserWindow.ShownWithoutMatch` | old/src/browser/window.rs:78-80 | The document's claim that a non-empty list always has a match fails: the scope's row is shown without one |
| `BrowserTidy.TidyFresh` | old/src/tui/browser_context.rs:898-901 | A request number counted up is on no row |
| `BrowserContext.BrowserContext.constructor` | old/src/tui/browser_context.rs:148-169 | A context begins listing its root |
| `BrowserContext.BrowserContext.StartRootListing` | old/src/tui/browser_context.rs:781-800 | A new generation, no rows and no directory listing |
| `BrowserContext.BrowserContext.ChangeRootPath` | old/src/tui/browser_context.rs:775-779 | Another root's listing begun, every other aborted |
| `BrowserContext.BrowserContext.StartDirectoryListing` | old/src/tui/browser_context.rs:809-825 | The row loading under the next request number, its listing held; until request numbers wrap, all stays sound exactly when the row was childless, not loading and not at the depth limit |
| `BrowserContext.BrowserContext.CollapseDirectory` | old/src/tui/browser_context.rs:827-833 | The row closed, and the listings beneath it aborted |
| `BrowserContext.BrowserContext.ToggleDirectory` | old/src/tui/browser_context.rs:802-807 | A closed row opened, any other closed; until request numbers wrap, all stays sound unless it opens a row at the depth limit |
| `BrowserContext.BrowserContext.RetryingToggle` | old/src/gui/app.rs:241-257 | The desktop's toggle closes a failed row before opening it again |
| `BrowserContext.BrowserContext.Apply` | old/src/tui/browser_context.rs:756-768 | An event of another generation or of a request no longer in flight changes nothing; any other reaches the root or its one directory; a root's end is its status, complete or failed with its error, and what is selected stays on its row or is clamped |
| `DisplayedValue.ConsecutiveDays` | old/src/browser/value.rs:69-87 | Day zero is 1970-01-01, every day has a date of the calendar, and the next day's is the day after it |
| `DisplayedValue.CivilIsDate` | old/src/browser/value.rs:69-87 | A day's date is valid, and its day count is that day |
| `DisplayedValue.DateRoundTrip` | old/src/browser/value.rs:69-87 | A date's day count converts back to it |
| `DisplayedValue.FallbacksUnused` | old/src/browser/value.rs:78-84 | The day and month always fit, so the fallback of 1 is never used |
| `DisplayedValue.ModifiedExactly` | old/src/browser/value.rs:50-62 | A time shows as a date and time of day, and as the minute it falls in exactly unless it is within a second before a minute that is not after the epoch, which the comment's flooring overlooks |
| `DisplayedValue.LastSecondShowsNextMinute` | old/src/browser/value.rs:50-62 | The witness: a nanosecond before 1970 shows as 1970-01-01 00:00, though it falls in the last minute of 1969 |
| `DisplayedValue.FormatSize` | old/src/browser/value.rs:23-41 | The largest unit not above the size, and below ten of it the tenth, rounded down |
| `DirectoryWalk.WalkDir` | src/fs/walk.rs:42-93 | The stream of the explicit stack is the recursive pre-order up to the first error, and ends |
| `DirectoryWalk.Walk.Next` | src/fs/walk.rs:52-91 | One item is the first of what is left of the walk |
| `DirectoryWalk.Walk.constructor` | src/fs/walk.rs:44-51 | A walk begins with everything below its root |
| `DirectoryWalk.LeftIsPreOrder` | src/fs/walk.rs:77-88 | The relative path and depth a frame carries are those of the names that lead to it |
| `DirectoryWalk.EntriesAsDeep` | src/fs/walk.rs:14-15 | Every entry's relative path decodes to as many components as it is deep |
| `DirectoryWalk.OnlyDirectoriesEntered` | src/fs/walk.rs:35-36 | What lies behind an item that is not a directory, or whose stat was refused, makes no difference: symlinks are not followed |
| `DirectoryWalk.YieldsExactly` | src/fs/walk.rs:17-20 | The entries are exactly the items at the top and below directories entered, each symlink among them, up to the first error, which is the walk's |
| `DirectoryWalk.FollowedByItsOwn` | src/fs/walk.rs:17-26 | A directory's entry is followed at once by all it yields, and by nothing more if that ends in an error |
| `DirectoryWalk.EntriesUnder` | src/fs/walk.rs:17-20 | Every entry deeper than the top lies directly in a directory yielded before it |
| `WriteFile.WholeOrNotAtAll` | src/fs/write.rs:46-127 | Whatever others do, whichever step fails and wherever it is dropped: the destination is another's file or the whole source, a success counts the whole source, and nothing else is left unless the removal failed |
| `WriteFile.NeverReplaces` | src/fs/write.rs:109-121 | With `FailIfExists` no step changes a destination that exists |
| `WriteFile.PublishesWhole` | src/fs/write.rs:102-122 | The step that publishes makes the destination the whole source; no other step of the call changes it |
| `WriteFile.NextInv` | src/fs/write.rs:88-155 | Every step, of the call or of others, keeps what those rest on |
| `WriteFile.LookExactly` | src/fs/write.rs:62-80 | With `FailIfExists` the destination is looked at first, and the call fails as already existing exactly when it is there |
| `WriteFile.PublishExactly` | src/fs/write.rs:102-122 | Publishing makes the destination the whole source, and succeeds, exactly when it is to replace or nothing is there; otherwise it fails as already existing and changes nothing |
| `WriteFile.OutcomeExactly` | src/fs/write.rs:46-127 | A call that ended succeeded exactly when every step of it went as it should, and has no result exactly when it was dropped |
| `WriteFile.CanSucceed` | src/fs/write.rs:46-127 | Whenever it is to replace or nothing is there it can succeed, leaving the destination the whole source and every other name and file as it was |
| `WriteFile.AlwaysEnds` | src/fs/write.rs:46-155 | However others interfere, a call takes no more steps than its source and 128 tries for a name allow |
| `WriteFile.DroppedAnywhere` | src/fs/write.rs:36-40 | It can be dropped before any step, and then leaves the destination as it was and no partial file |
| `WriteFile.AnythingCanFail` | src/fs/write.rs:60-122 | Each step can fail where it is taken, a write after part of its chunk, and others can put or remove any file meanwhile but the partial one |
| `WriteFile.TouchesOnly` | src/fs/write.rs:36-40 | No step of it touches another name or file |
| `WriteRequest.RequestFaithful` | old/src/client/rpc/write_file.rs:102-177 | One header, then non-empty frames within the limit carrying the source, then a commit exactly when it ended with no failure, empty chunk or overflow; the count is of what was framed |
| `WriteRequest.FramedFaithful` | old/src/client/rpc/write_file.rs:122-172 | The same from the middle of any chunk |
| `WriteRequest.FailsExactly` | old/src/client/rpc/write_file.rs:112-172 | A source fails at its first item that is not a chunk with something in it, and holds the bytes before that |
| `WriteRequest.RequestStream.constructor` | old/src/client/rpc/write_file.rs:108 | The stream's frames to come are the request's |
| `WriteRequest.RequestStream.Next` | old/src/client/rpc/write_file.rs:112-174 | Each item is the next frame of the request, and the count moves with it |
| `WriteRequest.Collect` | old/src/client/rpc/write_file.rs:102-177 | The whole stream is finite and is the request |
| `WriteRequest.SuccessIsWhole` | old/src/client/rpc/write_file.rs:70-98 | A success after the whole request wrote every byte of a source that ended without failing |
| `ShellQuote.QuotedRoundTrip` | src/cli/machine.rs:160-163 | A POSIX shell reads the quoted arguments after the command word back as exactly those arguments |
| `ShellQuote.QuotedIsOneWord` | src/client/ssh.rs:144-153 | A quoted argument is that argument, as one word |
| `ShellQuote.NestedRoundTrip` | src/client/ssh.rs:96-107 | Through the login shell `sh` gets the script unchanged, and the script's arguments are read back as given |

## Left out

- Sockets, gRPC, SSH processes, install scripts, and the parsing of configuration and command lines: plumbing over libraries.
- Drawing, layout and key maps, and the viewport, prompt text, completion and stack of entered directories of
  `old/src/tui/browser_context.rs`: user interface over the tree and window modelled here.
- `old/src/gui/app.rs:508-527`, the breadcrumbs: only that their fragments stay accepted (`PathString.UnescapedAtSeparator`).
- The single-instance lock and the socket's rebinding: they rest on the operating system.
- The values tasks and resources carry, item payloads and `Handle`s: no property here depends on them.
- `old/src/fs/write.rs` and the escape in `old/src/host_path.rs`: each repeats a module that is modelled.
- BrowserWindow.Window: requires rows in pre-order, which every tree's rows are (`BrowserWindow.FlattenPreOrder`); the row-by-row text match and the scope test are predicates.
- Watch.Converges: says nothing of an evicted task, since an event of one is skipped; the order of a snapshot's tasks is not modelled, only which they are.
- WriteFile.WholeOrNotAtAll: an operation still under way on another thread when the call is dropped counts as done or not begun; the check of the name and the count's width are not modelled.
- DirectoryWalk.WalkDir: an entry's metadata beyond its kind and whether its stat was refused is not modelled, nor the resolution of the root's path.
- WriteRequest.SuccessIsWhole: speaks of a request sent to its end; a server answering earlier is checked only against what was sent by then (`WriteRequest.RequestStream.Next`).
- ShellQuote.NestedRoundTrip: the prologue and the command word are not interpreted, only the arguments after them; the other options given to ssh are not modelled.
- MachineTasks.LingersOnce: speaks of snapshots that show the task settled; a task shown settled and then unsettled again is treated as unsettled, as the code does.
- Runtime.Runtime.Settle: the waiting loops around the lock sections are steps of `Scheduler`, not methods, because other drivers run between them.
- Counters of the runtime are unbounded where the code has `u64` or `usize`.
