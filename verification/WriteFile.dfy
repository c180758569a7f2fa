/**
  A file written whole or not at all: the bytes go to a partial file, which is
  renamed or linked into place once the source has ended. Other actors work in the
  directory meanwhile, any step may fail, and the call may be dropped between any
  two of them.
*/
module WriteFile {
  import opened Wrappers
  import opened Utf8

  type Inode = nat

  /** What is to be written, and where; never changes. */
  datatype Call = Call(name: Bytes, replace: bool, source: seq<Bytes>)

  datatype Pc =
    | AtInspect                 // is the directory one
    | AtLook                    // is the destination free
    | AtCreate
    | AtNext                    // the next chunk of the source
    | AtWrite
    | AtFlush
    | AtPublish
    | AtDrop(result: Option<Result<nat, string>>)   // the guard of the partial file is about to go
    | Ended(result: Option<Result<nat, string>>)    // none when the call was dropped

  /** The partial file this call made. */
  datatype Partial = Partial(name: Bytes, inode: Inode, published: bool)

  datatype World = World(
    files: map<Bytes, Inode>,
    data: map<Inode, Bytes>,
    pc: Pc,
    tries: nat,
    partial: Option<Partial>,
    taken: nat,
    bytes: nat,
    leaked: bool)               // the partial file could not be removed

  datatype Step =
    | Inspect(ok: bool)
    | Look(ok: bool)
    | Create(suffix: Bytes, inode: Inode, ok: bool)
    | SourceGives
    | SourceFails
    | SourceEnds
    | Write(ok: bool, wrote: nat)
    | Flush(ok: bool)
    | Publish(ok: bool)
    | Unlink(ok: bool)
    | Abandon
    | OthersPut(name: Bytes, inode: Inode, content: Bytes)
    | OthersRemove(name: Bytes)

  const DOT: byte := 0x2E

  function PartialName(name: Bytes, suffix: Bytes): Bytes {
    [DOT] + name + suffix
  }

  function Concat(chunks: seq<Bytes>): Bytes {
    if chunks == [] then [] else Concat(chunks[..|chunks| - 1]) + chunks[|chunks| - 1]
  }

  /** The guard goes as the call returns or is dropped: it has something to remove unless it was renamed into place. */
  function Leaves(w: World, result: Option<Result<nat, string>>): World {
    w.(pc := if w.partial.Some? && !w.partial.value.published then AtDrop(result) else Ended(result))
  }

  function Fails(w: World, error: string): World {
    Leaves(w, Some(Err(error)))
  }

  /** The partial file exists from its creation until it is renamed or removed. */
  predicate HasPartial(w: World) {
    w.partial.Some? && !w.partial.value.published && !w.pc.Ended?
  }

  /** Whether a name is the partial file's, while it has it. */
  predicate IsPartial(w: World, name: Bytes) {
    HasPartial(w) && w.partial.value.name == name
  }

  predicate Enabled(w: World, step: Step, call: Call) {
    match step
    case Inspect(_) => w.pc.AtInspect?
    case Look(_) => w.pc.AtLook?
    case Create(suffix, inode, _) => w.pc.AtCreate? && inode !in w.data
    case SourceGives => w.pc.AtNext? && w.taken < |call.source|
    case SourceFails => w.pc.AtNext?
    case SourceEnds => w.pc.AtNext? && w.taken == |call.source|
    case Write(_, wrote) => w.pc.AtWrite? && w.taken < |call.source| && wrote <= |call.source[w.taken]|
    case Flush(_) => w.pc.AtFlush?
    case Publish(_) => w.pc.AtPublish?
    case Unlink(_) => w.pc.AtDrop?
    case Abandon => !w.pc.AtDrop? && !w.pc.Ended?
    case OthersPut(name, inode, _) => inode !in w.data && !IsPartial(w, name)
    case OthersRemove(name) => !IsPartial(w, name)
  }

  function Creating(w: World, call: Call, suffix: Bytes, inode: Inode, ok: bool): World {
    var name := PartialName(call.name, suffix);
    if !ok then Fails(w, "cannot create")
    else if name in w.files then
      if w.tries + 1 < 128 then w.(tries := w.tries + 1) else Fails(w, "cannot find a free partial file name")
    else
      w.(files := w.files[name := inode], data := w.data[inode := []], partial := Some(Partial(name, inode, false)), pc := AtNext)
  }

  /** A write that fails may have written part of its chunk. */
  function Writing(w: World, call: Call, ok: bool, wrote: nat): World
    requires w.taken < |call.source| && wrote <= |call.source[w.taken]|
  {
    if w.partial.None? || w.partial.value.inode !in w.data then w
    else
      var inode, chunk := w.partial.value.inode, call.source[w.taken];
      if ok then
        w.(data := w.data[inode := w.data[inode] + chunk], taken := w.taken + 1, bytes := w.bytes + |chunk|, pc := AtNext)
      else Fails(w.(data := w.data[inode := w.data[inode] + chunk[..wrote]]), "cannot write")
  }

  function Publishing(w: World, call: Call, ok: bool): World {
    if w.partial.None? then w
    else
      var partial := w.partial.value;
      if !ok then Fails(w, "cannot publish")
      else if call.replace then
        Leaves(w.(files := (w.files - {partial.name})[call.name := partial.inode],
                  partial := Some(partial.(published := true))),
               Some(Ok(w.bytes)))
      else if call.name in w.files then Fails(w, "already exists")
      else Leaves(w.(files := w.files[call.name := partial.inode]), Some(Ok(w.bytes)))
  }

  function Next(w: World, step: Step, call: Call): World
    requires Enabled(w, step, call)
  {
    match step
    case Inspect(ok) => if ok then w.(pc := if call.replace then AtCreate else AtLook) else Fails(w, "not a directory")
    case Look(ok) =>
      if !ok then Fails(w, "cannot inspect destination")
      else if call.name in w.files then Fails(w, "already exists")
      else w.(pc := AtCreate)
    case Create(suffix, inode, ok) => Creating(w, call, suffix, inode, ok)
    case SourceGives => w.(pc := AtWrite)
    case SourceFails => Fails(w, "source failed")
    case SourceEnds => w.(pc := AtFlush)
    case Write(ok, wrote) => Writing(w, call, ok, wrote)
    case Flush(ok) => if ok then w.(pc := AtPublish) else Fails(w, "cannot flush")
    case Publish(ok) => Publishing(w, call, ok)
    case Unlink(ok) =>
      var left := w.(pc := Ended(w.pc.result));
      if ok && w.partial.Some? then left.(files := w.files - {w.partial.value.name}) else left.(leaked := true)
    case Abandon => Leaves(w, None)
    case OthersPut(name, inode, content) => w.(files := w.files[name := inode], data := w.data[inode := content])
    case OthersRemove(name) => w.(files := w.files - {name})
  }

  function Begin(files: map<Bytes, Inode>, data: map<Inode, Bytes>): World {
    World(files, data, AtInspect, 0, None, 0, 0, false)
  }

  ghost predicate Possible(w: World, steps: seq<Step>, call: Call)
    decreases |steps|
  {
    steps == [] || (Enabled(w, steps[0], call) && Possible(Next(w, steps[0], call), steps[1..], call))
  }

  ghost function Run(w: World, steps: seq<Step>, call: Call): World
    requires Possible(w, steps, call)
    decreases |steps|
  {
    if steps == [] then w else Run(Next(w, steps[0], call), steps[1..], call)
  }

  // ----- what every step keeps -----

  /** Every name stands for a file that exists. */
  ghost predicate Named(w: World) {
    forall name :: name in w.files ==> w.files[name] in w.data
  }

  function ContentOf(w: World): Bytes {
    if w.partial.Some? && w.partial.value.inode in w.data then w.data[w.partial.value.inode] else []
  }

  /** The bytes of the chunks taken so far. */
  function TakenOf(w: World, call: Call): Bytes {
    if w.taken <= |call.source| then Concat(call.source[..w.taken]) else []
  }

  /** The call has the partial file open. */
  predicate Filling(pc: Pc) {
    pc.AtNext? || pc.AtWrite? || pc.AtFlush? || pc.AtPublish?
  }

  /** The bytes counted are those of the chunks taken, and all are taken once the file is to be published. */
  predicate Counted(w: World, call: Call) {
    && w.taken <= |call.source|
    && w.bytes == |TakenOf(w, call)|
    && (w.pc.AtFlush? || w.pc.AtPublish? ==> w.taken == |call.source|)
    && (w.pc.AtWrite? ==> w.taken < |call.source|)
    && (w.partial.None? ==> w.taken == 0)
  }

  /** The partial file's place in the course of the call. */
  predicate Staged(w: World, call: Call) {
    && (w.partial.None? ==> w.pc.AtInspect? || w.pc.AtLook? || w.pc.AtCreate? || w.pc.Ended?)
    && (w.partial.Some? ==>
          && !w.pc.AtInspect? && !w.pc.AtLook? && !w.pc.AtCreate?
          && w.partial.value.name != call.name && w.partial.value.inode in w.data)
    && (w.partial.Some? && w.partial.value.published ==> w.pc.Ended?)
    && (HasPartial(w) ==> w.partial.value.name in w.files && w.files[w.partial.value.name] == w.partial.value.inode)
    && (Filling(w.pc) ==> ContentOf(w) == TakenOf(w, call))
  }

  /** A name may stand for the partial file only if it is its own, or the destination's with the whole source in it. */
  predicate MayStand(w: World, call: Call, name: Bytes) {
    w.partial.Some? && name in w.files && w.files[name] == w.partial.value.inode ==>
      || (name == w.partial.value.name && (HasPartial(w) || w.leaked))
      || (name == call.name && !Filling(w.pc) && ContentOf(w) == Concat(call.source))
  }

  /** A success is of the whole source. */
  predicate Truthful(w: World, call: Call) {
    (w.pc.AtDrop? || w.pc.Ended?) && w.pc.result.Some? && w.pc.result.value.Ok? ==>
      w.partial.Some? && ContentOf(w) == Concat(call.source) && w.pc.result.value.value == |Concat(call.source)|
  }

  ghost predicate Inv(w: World, call: Call) {
    && Named(w) && Counted(w, call) && Staged(w, call) && Truthful(w, call)
    && forall name :: MayStand(w, call, name)
  }

  lemma PartialIsAnother(name: Bytes, suffix: Bytes)
    ensures PartialName(name, suffix) != name && PartialName(name, suffix)[0] == 0x2E
  {
    assert |PartialName(name, suffix)| == |name| + |suffix| + 1;
  }

  lemma TakeOne(source: seq<Bytes>, n: nat)
    requires n < |source|
    ensures Concat(source[..n + 1]) == Concat(source[..n]) + source[n]
  {
    assert source[..n + 1][..n] == source[..n];
  }

  lemma NextInv(w: World, step: Step, call: Call)
    requires Inv(w, call) && Enabled(w, step, call)
    ensures Inv(Next(w, step, call), call)
  {
    if Fills(step) {
      FillingCounted(w, step, call);
      FillingStaged(w, step, call);
    } else {
      OthersCounted(w, step, call);
      OthersStaged(w, step, call);
    }
    NextNamed(w, step, call);
    NextTruthful(w, step, call);
    hide Next, Enabled, Staged, Counted, Truthful, Named, MayStand;
    forall name
      ensures MayStand(Next(w, step, call), call, name)
    {
      NextStands(w, step, call, name);
    }
  }

  /** Steps that open the partial file or put something in it. */
  predicate Fills(step: Step) {
    step.Create? || step.Write?
  }

  lemma NextNamed(w: World, step: Step, call: Call)
    requires Inv(w, call) && Enabled(w, step, call)
    ensures Named(Next(w, step, call))
  {
    hide Concat, MayStand, Counted, Truthful, PartialName;
  }

  lemma FillingCounted(w: World, step: Step, call: Call)
    requires Inv(w, call) && Enabled(w, step, call) && Fills(step)
    ensures Counted(Next(w, step, call), call)
  {
    hide Concat, PartialName, MayStand, Named, Truthful;
    if step.Write? {
      TakeOne(call.source, w.taken);
    } else if step.Create? {
      TakenNone(call.source);
    }
  }

  lemma FillingStaged(w: World, step: Step, call: Call)
    requires Inv(w, call) && Enabled(w, step, call) && Fills(step)
    ensures Staged(Next(w, step, call), call)
  {
    hide Concat, PartialName, MayStand, Named, Truthful;
    match step {
      case Create(suffix, inode, ok) =>
        PartialIsAnother(call.name, suffix);
        TakenNone(call.source);
      case Write(_, _) => TakeOne(call.source, w.taken);
      case _ =>
    }
  }

  lemma TakenNone(source: seq<Bytes>)
    ensures Concat(source[..0]) == []
  {
  }

  lemma OthersCounted(w: World, step: Step, call: Call)
    requires Inv(w, call) && Enabled(w, step, call) && !Fills(step)
    ensures Counted(Next(w, step, call), call)
  {
    hide Concat, MayStand, Named, Truthful, Staged;
  }

  lemma NextTruthful(w: World, step: Step, call: Call)
    requires Inv(w, call) && Enabled(w, step, call)
    ensures Truthful(Next(w, step, call), call)
  {
    hide Concat, MayStand, Named, PartialName;
    if w.taken == |call.source| {
      assert call.source[..w.taken] == call.source;
    }
  }

  lemma OthersStaged(w: World, step: Step, call: Call)
    requires Inv(w, call) && Enabled(w, step, call) && !Fills(step)
    ensures Staged(Next(w, step, call), call)
  {
    hide Concat, MayStand, Named, Truthful;
  }

  lemma NextStands(w: World, step: Step, call: Call, name: Bytes)
    requires Inv(w, call) && Enabled(w, step, call)
    ensures MayStand(Next(w, step, call), call, name)
  {
    assert MayStand(w, call, name);
    match step {
      case Create(suffix, inode, ok) => PartialIsAnother(call.name, suffix);
      case Publish(_) => assert call.source[..w.taken] == call.source;
      case _ =>
    }
    hide Concat, PartialName;
  }

  lemma {:induction false} RunInv(w: World, steps: seq<Step>, call: Call)
    requires Inv(w, call) && Possible(w, steps, call)
    ensures Inv(Run(w, steps, call), call)
    decreases |steps|
  {
    hide Inv, Next, Enabled;
    if steps != [] {
      NextInv(w, steps[0], call);
      RunInv(Next(w, steps[0], call), steps[1..], call);
    }
  }

  lemma BeginInv(files: map<Bytes, Inode>, data: map<Inode, Bytes>, call: Call)
    requires forall name :: name in files ==> files[name] in data
    ensures Inv(Begin(files, data), call)
  {
    assert Concat(call.source[..0]) == [];
  }

  /** The destination stands for the file this call made. */
  predicate IsOurs(w: World, call: Call) {
    w.partial.Some? && call.name in w.files && w.files[call.name] == w.partial.value.inode
  }

  /**
    Whatever other actors do, whichever step fails and wherever the call is dropped: the destination is either another
    actor's file or the whole source, and never part of it; a success is of the whole source, and counts it; and once the
    call is over no name stands for its file but the destination, unless removing the partial file failed.
  */
  lemma WholeOrNotAtAll(files: map<Bytes, Inode>, data: map<Inode, Bytes>, call: Call, steps: seq<Step>)
    requires forall name :: name in files ==> files[name] in data
    requires Possible(Begin(files, data), steps, call)
    ensures var w := Run(Begin(files, data), steps, call);
            && (IsOurs(w, call) ==> ContentOf(w) == Concat(call.source))
            && (w.pc.Ended? && w.pc.result.Some? && w.pc.result.value.Ok? ==>
                  ContentOf(w) == Concat(call.source) && w.pc.result.value.value == |Concat(call.source)|)
            && (w.pc.Ended? && w.partial.Some? && !w.leaked ==>
                  forall name :: name in w.files && w.files[name] == w.partial.value.inode ==> name == call.name)
  {
    BeginInv(files, data, call);
    RunInv(Begin(files, data), steps, call);
    hide Run, Possible, Concat, Named, Counted;
    var w := Run(Begin(files, data), steps, call);
    assert MayStand(w, call, call.name);
    forall name | w.pc.Ended? && w.partial.Some? && !w.leaked && name in w.files && w.files[name] == w.partial.value.inode
      ensures name == call.name
    {
      assert MayStand(w, call, name);
    }
  }

  predicate OthersStep(step: Step) {
    step.OthersPut? || step.OthersRemove?
  }

  /** With `FailIfExists` no step of the call changes what a destination that exists stands for. */
  lemma NeverReplaces(w: World, step: Step, call: Call)
    requires Inv(w, call) && Enabled(w, step, call) && !call.replace && !OthersStep(step) && call.name in w.files
    ensures var t := Next(w, step, call);
            && call.name in t.files && t.files[call.name] == w.files[call.name]
            && (w.files[call.name] in w.data && !IsOurs(w, call) ==> t.data[w.files[call.name]] == w.data[w.files[call.name]])
  {
    match step {
      case Create(suffix, inode, ok) => PartialIsAnother(call.name, suffix);
      case _ =>
    }
    hide Concat, PartialName;
  }

  /** A step that publishes makes the destination the whole source at that moment, and only such a step changes it. */
  lemma PublishesWhole(w: World, step: Step, call: Call)
    requires Inv(w, call) && Enabled(w, step, call) && !OthersStep(step)
    ensures var t := Next(w, step, call);
            if t.pc != w.pc && (t.pc.AtDrop? || t.pc.Ended?) && t.pc.result == Some(Ok(w.bytes)) && step.Publish?
            then IsOurs(t, call) && ContentOf(t) == Concat(call.source)
            else (call.name in t.files <==> call.name in w.files)
                 && (call.name in w.files ==> t.files[call.name] == w.files[call.name])
  {
    hide Concat, PartialName, MayStand, Named, Truthful;
    match step {
      case Create(suffix, inode, ok) => PartialIsAnother(call.name, suffix);
      case Publish(_) => assert call.source[..w.taken] == call.source;
      case _ =>
    }
  }

  // ----- when it succeeds -----

  predicate Over(w: World) {
    w.pc.AtDrop? || w.pc.Ended?
  }

  /**
    Publishing makes the destination the whole source, and the call's success, exactly when it is to replace what is there
    or nothing is; otherwise it fails for that reason and changes nothing.
  */
  lemma PublishExactly(w: World, call: Call)
    requires Inv(w, call) && w.pc.AtPublish?
    ensures var t := Next(w, Publish(true), call);
            && Over(t)
            && if call.replace || call.name !in w.files then
                 && t.pc.result == Some(Ok(|Concat(call.source)|))
                 && call.name in t.files && t.files[call.name] in t.data && t.data[t.files[call.name]] == Concat(call.source)
               else t.pc.result == Some(Err("already exists")) && t.files == w.files && t.data == w.data
  {
    hide Concat, PartialName, MayStand, Named, Truthful;
    assert call.source[..w.taken] == call.source;
  }

  /** A destination that is to stay free is looked at first, and the call fails for that reason exactly when it is there. */
  lemma LookExactly(w: World, call: Call)
    requires Enabled(w, Inspect(true), call)
    ensures Next(w, Inspect(true), call).pc == if call.replace then AtCreate else AtLook
    ensures Enabled(w.(pc := AtLook), Look(true), call)
    ensures var looked := Next(w.(pc := AtLook), Look(true), call);
            if call.name in w.files then Over(looked) && looked.pc.result == Some(Err("already exists")) else looked.pc == AtCreate
  {
  }

  /** Whether a step goes as it should where it is taken. */
  predicate Succeeds(w: World, step: Step, call: Call) {
    match step
    case Inspect(ok) => ok
    case Look(ok) => ok && call.name !in w.files
    case Create(suffix, _, ok) => ok && (PartialName(call.name, suffix) in w.files ==> w.tries + 1 < 128)
    case Write(ok, _) => ok
    case Flush(ok) => ok
    case Publish(ok) => ok && (call.replace || call.name !in w.files)
    case SourceFails => false
    case Abandon => false
    case _ => true
  }

  ghost predicate AllSucceed(w: World, steps: seq<Step>, call: Call)
    requires Possible(w, steps, call)
    decreases |steps|
  {
    steps == [] || (Succeeds(w, steps[0], call) && AllSucceed(Next(w, steps[0], call), steps[1..], call))
  }

  ghost predicate SomeAbandon(w: World, steps: seq<Step>, call: Call)
    requires Possible(w, steps, call)
    decreases |steps|
  {
    steps != [] && (steps[0].Abandon? || SomeAbandon(Next(w, steps[0], call), steps[1..], call))
  }

  /** Nothing has gone wrong. */
  predicate WellSoFar(w: World) {
    Over(w) ==> w.pc.result.Some? && w.pc.result.value.Ok?
  }

  predicate Dropped(w: World) {
    Over(w) && w.pc.result.None?
  }

  lemma StepOutcome(w: World, step: Step, call: Call)
    requires Inv(w, call) && Enabled(w, step, call)
    ensures WellSoFar(Next(w, step, call)) <==> WellSoFar(w) && Succeeds(w, step, call)
    ensures Dropped(Next(w, step, call)) <==> Dropped(w) || step.Abandon?
  {
    hide Concat, PartialName, MayStand, Named, Truthful;
  }

  lemma {:induction false} RunOutcome(w: World, steps: seq<Step>, call: Call)
    requires Inv(w, call) && Possible(w, steps, call)
    ensures WellSoFar(Run(w, steps, call)) <==> WellSoFar(w) && AllSucceed(w, steps, call)
    ensures Dropped(Run(w, steps, call)) <==> Dropped(w) || SomeAbandon(w, steps, call)
    decreases |steps|
  {
    hide Inv, Next, Enabled, WellSoFar, Dropped, Succeeds;
    if steps != [] {
      StepOutcome(w, steps[0], call);
      NextInv(w, steps[0], call);
      RunOutcome(Next(w, steps[0], call), steps[1..], call);
    }
  }

  /**
    A call that has ended succeeded, with the length of the whole source, exactly when every step of it went as it should:
    a destination that is to stay free was free when looked at and when published, no step failed, the source did not, a
    free partial name was found, and the call was not dropped. It has no result exactly when it was dropped.
  */
  lemma OutcomeExactly(files: map<Bytes, Inode>, data: map<Inode, Bytes>, call: Call, steps: seq<Step>)
    requires forall name :: name in files ==> files[name] in data
    requires Possible(Begin(files, data), steps, call) && Run(Begin(files, data), steps, call).pc.Ended?
    ensures var result := Run(Begin(files, data), steps, call).pc.result;
            && (result == Some(Ok(|Concat(call.source)|)) <==> AllSucceed(Begin(files, data), steps, call))
            && (result.Some? && result.value.Ok? ==> result == Some(Ok(|Concat(call.source)|)))
            && (result.None? <==> SomeAbandon(Begin(files, data), steps, call))
  {
    hide Run, Possible, Concat, Named, Counted, Staged, MayStand, AllSucceed, SomeAbandon;
    BeginInv(files, data, call);
    RunInv(Begin(files, data), steps, call);
    RunOutcome(Begin(files, data), steps, call);
  }

  // ----- that it ends, and can succeed -----

  /** A bound on the steps left to a call. */
  function StepsLeft(w: World, call: Call): nat {
    var chunks := if w.taken <= |call.source| then 2 * (|call.source| - w.taken) else 0;
    match w.pc
    case AtInspect => 2 * |call.source| + 140
    case AtLook => 2 * |call.source| + 139
    case AtCreate => 2 * |call.source| + 10 + (if w.tries <= 128 then 128 - w.tries else 0)
    case AtNext => chunks + 6
    case AtWrite => chunks + 5
    case AtFlush => 4
    case AtPublish => 3
    case AtDrop(_) => 1
    case Ended(_) => 0
  }

  function OwnSteps(steps: seq<Step>): nat {
    if steps == [] then 0 else (if OthersStep(steps[0]) then 0 else 1) + OwnSteps(steps[1..])
  }

  predicate TriesBounded(w: World) {
    w.tries < 128
  }

  lemma StepNearer(w: World, step: Step, call: Call)
    requires Inv(w, call) && TriesBounded(w) && Enabled(w, step, call)
    ensures TriesBounded(Next(w, step, call))
    ensures if OthersStep(step) then StepsLeft(Next(w, step, call), call) == StepsLeft(w, call)
            else StepsLeft(Next(w, step, call), call) < StepsLeft(w, call)
  {
    hide Concat, PartialName, MayStand, Named, Truthful, ContentOf, TakenOf, HasPartial;
    if Fills(step) {
      FillNearer(w, step, call);
    }
  }

  lemma FillNearer(w: World, step: Step, call: Call)
    requires Inv(w, call) && TriesBounded(w) && Enabled(w, step, call) && Fills(step)
    ensures TriesBounded(Next(w, step, call)) && StepsLeft(Next(w, step, call), call) < StepsLeft(w, call)
  {
    hide Concat, PartialName, MayStand, Named, Truthful, ContentOf, TakenOf, HasPartial;
  }

  lemma {:induction false} RunNearer(w: World, steps: seq<Step>, call: Call)
    requires Inv(w, call) && TriesBounded(w) && Possible(w, steps, call)
    ensures OwnSteps(steps) + StepsLeft(Run(w, steps, call), call) <= StepsLeft(w, call)
    decreases |steps|
  {
    hide Inv, Next, Enabled, StepsLeft, TriesBounded;
    if steps != [] {
      StepNearer(w, steps[0], call);
      NextInv(w, steps[0], call);
      RunNearer(Next(w, steps[0], call), steps[1..], call);
    }
  }

  /** However others interfere, a call takes no more steps than its source and 128 tries for a name allow. */
  lemma AlwaysEnds(files: map<Bytes, Inode>, data: map<Inode, Bytes>, call: Call, steps: seq<Step>)
    requires forall name :: name in files ==> files[name] in data
    requires Possible(Begin(files, data), steps, call)
    ensures OwnSteps(steps) <= 2 * |call.source| + 140
  {
    BeginInv(files, data, call);
    hide Inv;
    RunNearer(Begin(files, data), steps, call);
  }

  lemma Onwards(w: World, step: Step, rest: seq<Step>, call: Call)
    requires Enabled(w, step, call) && Possible(Next(w, step, call), rest, call)
    ensures Possible(w, [step] + rest, call) && Run(w, [step] + rest, call) == Run(Next(w, step, call), rest, call)
  {
    hide Enabled, Next;
    assert ([step] + rest)[0] == step && ([step] + rest)[1..] == rest;
  }

  /** Filled this far, the rest goes in, and is published. */
  lemma {:induction false} CanFinish(w: World, call: Call) returns (steps: seq<Step>)
    requires Inv(w, call) && w.pc.AtNext? && (call.replace || call.name !in w.files)
    ensures Possible(w, steps, call)
    ensures var inode := w.partial.value.inode;
            var end := Run(w, steps, call);
            && end.pc == Ended(Some(Ok(|Concat(call.source)|)))
            && end.files == (w.files - {w.partial.value.name})[call.name := inode]
            && end.data == w.data[inode := Concat(call.source)]
    decreases |call.source| - w.taken
  {
    if w.taken < |call.source| {
      var writing, taken := CanTake(w, call);
      hide Inv, Concat, Possible, Run, Next, Enabled;
      var rest := CanFinish(taken, call);
      Onwards(writing, Write(true, 0), rest, call);
      Onwards(w, SourceGives, [Write(true, 0)] + rest, call);
      steps := [SourceGives] + ([Write(true, 0)] + rest);
      assert taken.data[w.partial.value.inode := Concat(call.source)] == w.data[w.partial.value.inode := Concat(call.source)];
    } else {
      steps := CanPublish(w, call);
    }
  }

  /** The next chunk goes in. */
  lemma CanTake(w: World, call: Call) returns (writing: World, taken: World)
    requires Inv(w, call) && w.pc.AtNext? && w.taken < |call.source|
    ensures Enabled(w, SourceGives, call) && writing == Next(w, SourceGives, call)
    ensures Enabled(writing, Write(true, 0), call) && taken == Next(writing, Write(true, 0), call)
    ensures Inv(taken, call) && taken.pc.AtNext? && taken.taken == w.taken + 1 && taken.files == w.files
    ensures w.partial.Some? && taken.partial == w.partial
    ensures taken.data == w.data[w.partial.value.inode := taken.data[w.partial.value.inode]]
  {
    writing := Next(w, SourceGives, call);
    NextInv(w, SourceGives, call);
    taken := Next(writing, Write(true, 0), call);
    NextInv(writing, Write(true, 0), call);
    hide Concat, MayStand, Truthful, Named, PartialName;
  }

  lemma CanPublish(w: World, call: Call) returns (steps: seq<Step>)
    requires Inv(w, call) && w.pc.AtNext? && w.taken == |call.source| && (call.replace || call.name !in w.files)
    ensures w.partial.Some? && Possible(w, steps, call)
    ensures var inode := w.partial.value.inode;
            var end := Run(w, steps, call);
            && end.pc == Ended(Some(Ok(|Concat(call.source)|)))
            && end.files == (w.files - {w.partial.value.name})[call.name := inode]
            && end.data == w.data[inode := Concat(call.source)]
  {
    hide Concat, PartialName, MayStand, Named, Truthful;
    assert call.source[..w.taken] == call.source;
    var flushing := Next(w, SourceEnds, call);
    var publishing := Next(flushing, Flush(true), call);
    var published := Next(publishing, Publish(true), call);
    var last: seq<Step> := [];
    if !call.replace {
      var gone := Next(published, Unlink(true), call);
      assert Possible(gone, [], call) && Run(gone, [], call) == gone;
      Onwards(published, Unlink(true), [], call);
      last := [Unlink(true)];
      assert [Unlink(true)] + [] == [Unlink(true)];
    } else {
      assert Possible(published, [], call) && Run(published, [], call) == published;
    }
    Onwards(publishing, Publish(true), last, call);
    Onwards(flushing, Flush(true), [Publish(true)] + last, call);
    Onwards(w, SourceEnds, [Flush(true)] + ([Publish(true)] + last), call);
    steps := [SourceEnds] + ([Flush(true)] + ([Publish(true)] + last));
  }

  /**
    Whenever it is to replace what is there, or nothing is, a call can succeed, and then the destination is the whole source
    and no other name or file is touched.
  */
  lemma CanSucceed(files: map<Bytes, Inode>, data: map<Inode, Bytes>, call: Call, suffix: Bytes, inode: Inode)
    returns (steps: seq<Step>)
    requires forall name :: name in files ==> files[name] in data
    requires call.replace || call.name !in files
    requires PartialName(call.name, suffix) !in files && inode !in data
    ensures Possible(Begin(files, data), steps, call)
    ensures var end := Run(Begin(files, data), steps, call);
            && end.pc == Ended(Some(Ok(|Concat(call.source)|)))
            && end.files == files[call.name := inode] && end.data == data[inode := Concat(call.source)]
  {
    var w := Begin(files, data);
    BeginInv(files, data, call);
    NextInv(w, Inspect(true), call);
    var inspected := Next(w, Inspect(true), call);
    var creating := inspected;
    if !call.replace {
      NextInv(inspected, Look(true), call);
      creating := Next(inspected, Look(true), call);
    }
    PartialIsAnother(call.name, suffix);
    hide Inv, PartialName, Concat;
    var create := Create(suffix, inode, true);
    NextInv(creating, create, call);
    var filling := Next(creating, create, call);
    var rest := CanFinish(filling, call);
    Onwards(creating, create, rest, call);
    steps := [create] + rest;
    if !call.replace {
      Onwards(inspected, Look(true), steps, call);
      steps := [Look(true)] + steps;
    }
    Onwards(w, Inspect(true), steps, call);
    steps := [Inspect(true)] + steps;
    assert (filling.files - {PartialName(call.name, suffix)})[call.name := inode] == files[call.name := inode];
    assert filling.data[inode := Concat(call.source)] == data[inode := Concat(call.source)];
  }

  /** Each step of the call can fail where it is taken, and others can put or remove any file meanwhile but the partial one. */
  lemma AnythingCanFail(w: World, call: Call, suffix: Bytes, inode: Inode, wrote: nat)
    requires Inv(w, call) && inode !in w.data
    ensures !Over(w) ==>
              exists step ::
                && !OthersStep(step) && !step.Abandon? && Enabled(w, step, call)
                && Over(Next(w, step, call)) && Next(w, step, call).pc.result.Some? && Next(w, step, call).pc.result.value.Err?
    ensures w.pc.AtWrite? && wrote <= |call.source[w.taken]| ==> Enabled(w, Write(false, wrote), call)
    ensures forall name, content ::
              w.pc.Ended? || w.partial.None? || w.partial.value.published || name != w.partial.value.name ==>
                Enabled(w, OthersPut(name, inode, content), call) && Enabled(w, OthersRemove(name), call)
  {
    hide Concat, PartialName, MayStand, Named, Truthful, ContentOf, TakenOf;
    if !Over(w) {
      var step := FailingStep(w.pc, suffix, inode);
      assert Enabled(w, step, call) && !OthersStep(step) && !step.Abandon?;
      assert Over(Next(w, step, call));
    }
  }

  /** The step that fails at a place. */
  function FailingStep(pc: Pc, suffix: Bytes, inode: Inode): Step {
    match pc
    case AtInspect => Inspect(false)
    case AtLook => Look(false)
    case AtCreate => Create(suffix, inode, false)
    case AtNext => SourceFails
    case AtWrite => Write(false, 0)
    case AtFlush => Flush(false)
    case _ => Publish(false)
  }

  /** A call can be dropped before any of its steps, and then leaves no name behind but by failing to remove it. */
  lemma DroppedAnywhere(w: World, call: Call)
    requires Inv(w, call) && !Over(w)
    ensures Enabled(w, Abandon, call)
    ensures var dropped := Next(w, Abandon, call);
            && Dropped(dropped)
            && var end := if dropped.pc.AtDrop? then Next(dropped, Unlink(true), call) else dropped;
               && end.pc == Ended(None)
               && end.files == (if w.partial.Some? then w.files - {w.partial.value.name} else w.files)
               && (call.name in end.files <==> call.name in w.files)
               && (call.name in w.files ==> end.files[call.name] == w.files[call.name])
  {
    hide Concat, PartialName, MayStand, Named, Truthful;
  }

  /** No step of a call touches a name but the destination's and its partial file's, or a file but that one. */
  lemma TouchesOnly(w: World, step: Step, call: Call, name: Bytes, inode: Inode)
    requires Inv(w, call) && Enabled(w, step, call) && !OthersStep(step) && name != call.name && inode in w.data
    ensures var t := Next(w, step, call);
            && (t.partial.None? || name != t.partial.value.name ==>
                  (name in t.files <==> name in w.files) && (name in w.files ==> t.files[name] == w.files[name]))
            && (t.partial.None? || inode != t.partial.value.inode ==> inode in t.data && t.data[inode] == w.data[inode])
  {
    hide Concat, MayStand, Truthful, Named, TakenOf, ContentOf, PartialName;
    if !Fills(step) {
      OthersTouched(w, step, call, name, inode);
    }
  }

  lemma OthersTouched(w: World, step: Step, call: Call, name: Bytes, inode: Inode)
    requires Inv(w, call) && Enabled(w, step, call) && !OthersStep(step) && !Fills(step) && name != call.name && inode in w.data
    ensures var t := Next(w, step, call);
            && t.data == w.data && t.partial.Some? == w.partial.Some?
            && (w.partial.Some? ==> t.partial.value.name == w.partial.value.name && t.partial.value.inode == w.partial.value.inode)
            && (w.partial.None? || name != w.partial.value.name ==>
                  (name in t.files <==> name in w.files) && (name in w.files ==> t.files[name] == w.files[name]))
  {
    hide Concat, MayStand, Truthful, Named, TakenOf, ContentOf, PartialName, Counted;
  }
}
