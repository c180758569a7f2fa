/** What opening and closing directories keeps, for the callers that do it. */
module BrowserTidy {
  import opened Utf8
  import opened PathString
  import opened BrowserRows
  import opened BrowserForest
  import opened BrowserState
  import opened Wrappers

  /** A closed directory holds nothing, and no request is above `bound`. */
  predicate Tidy(f: Forest, bound: nat) {
    match f
    case Empty => true
    case Dir(_, x, children, rest) =>
      && (if x == Collapsed then children == Empty else x.requestId <= bound)
      && Tidy(children, bound)
      && Tidy(rest, bound)
  }

  lemma {:induction false} TidyLeaves(entries: seq<DirectoryEntry>, bound: nat)
    ensures Tidy(Leaves(entries), bound)
  {
    if entries != [] {
      TidyLeaves(entries[1..], bound);
    }
  }

  lemma {:induction false} TidyAppend(f: Forest, g: Forest, bound: nat)
    requires Tidy(f, bound) && Tidy(g, bound)
    ensures Tidy(Append(f, g), bound)
  {
    if f.Dir? {
      TidyAppend(f.rest, g, bound);
    }
  }

  lemma {:induction false} TidyGrow(f: Forest, id: nat, entries: seq<DirectoryEntry>, bound: nat)
    requires Tidy(f, bound)
    ensures Tidy(Grow(f, id, entries), bound)
  {
    if f.Dir? {
      TidyGrow(f.children, id, entries, bound);
      TidyGrow(f.rest, id, entries, bound);
      TidyLeaves(entries, bound);
      TidyAppend(Grow(f.children, id, entries), Leaves(entries), bound);
    }
  }

  lemma {:induction false} TidySettle(f: Forest, id: nat, result: Result<(), string>, bound: nat)
    requires Tidy(f, bound)
    ensures Tidy(Settle(f, id, Outcome(id, result)), bound)
  {
    if f.Dir? {
      TidySettle(f.children, id, result, bound);
      TidySettle(f.rest, id, result, bound);
    }
  }

  lemma {:induction false} TidyOpen(f: Forest, i: nat, id: nat, bound: nat)
    requires Tidy(f, bound) && bound <= id
    ensures Tidy(Open(f, i, id), id)
  {
    if f.Dir? {
      TidyMore(f.children, bound, id);
      TidyMore(f.rest, bound, id);
      if 0 < i <= Size(f.children) {
        TidyOpen(f.children, i - 1, id, bound);
      } else if i > 0 {
        TidyOpen(f.rest, i - 1 - Size(f.children), id, bound);
      }
    }
  }

  lemma {:induction false} TidyMore(f: Forest, bound: nat, more: nat)
    requires Tidy(f, bound) && bound <= more
    ensures Tidy(f, more)
  {
    if f.Dir? {
      TidyMore(f.children, bound, more);
      TidyMore(f.rest, bound, more);
    }
  }

  lemma {:induction false} TidyClose(f: Forest, i: nat, bound: nat)
    requires Tidy(f, bound)
    ensures Tidy(Close(f, i), bound)
  {
    if f.Dir? && 0 < i {
      if i <= Size(f.children) {
        TidyClose(f.children, i - 1, bound);
      } else {
        TidyClose(f.rest, i - 1 - Size(f.children), bound);
      }
    }
  }

  /** So a closed row has nothing beneath it, and a request above the bound is no row's. */
  lemma {:induction false} TidyRow(f: Forest, base: Bytes, depth: nat, bound: nat, i: nat)
    requires Tidy(f, bound) && i < |Flatten(f, base, depth)|
    ensures var rows := Flatten(f, base, depth);
            && (rows[i].expansion == Collapsed ==> Childless(rows, i))
            && (rows[i].expansion != Collapsed ==> rows[i].expansion.requestId <= bound)
  {
    var path := Join(base, f.entry.name);
    var c, s := Flatten(f.children, path, depth + 1), Flatten(f.rest, base, depth);
    FlattenDepths(f.rest, base, depth);
    FlattenDepths(f.children, path, depth + 1);
    var row := Row(path, depth, f.entry, f.expansion);
    RowAt(row, c, s, i);
    if i + 1 < 1 + |c| + |s| {
      RowAt(row, c, s, i + 1);
    }
    if 0 < i <= |c| {
      TidyRow(f.children, path, depth + 1, bound, i - 1);
    } else if i > 0 {
      TidyRow(f.rest, base, depth, bound, i - 1 - |c|);
    }
    hide Flatten, Join;
    assert s != [] ==> s[0].depth == depth;
  }

  lemma TidyFresh(f: Forest, base: Bytes, depth: nat, bound: nat, id: nat)
    requires Tidy(f, bound) && bound < id
    ensures Fresh(Flatten(f, base, depth), id)
  {
    var rows := Flatten(f, base, depth);
    forall i | 0 <= i < |rows|
      ensures rows[i].expansion.RequestId() != Some(id)
    {
      TidyRow(f, base, depth, bound, i);
    }
  }
}

/** One browsed root and the listings feeding it: which of their events count. */
module BrowserContext {
  import opened Wrappers
  import opened Utf8
  import opened BrowserRows
  import opened BrowserForest
  import opened BrowserState
  import opened BrowserTree
  import opened BrowserTidy

  const U64_MAX: nat := 0xFFFF_FFFF_FFFF_FFFF

  datatype ListingTarget = Root | Directory(parentPath: Bytes, requestId: nat)

  datatype ListingResult = Entries(entries: seq<DirectoryEntry>) | Finished | Broken(error: string)

  function RootAfter(f: Forest, result: ListingResult): Forest {
    if result.Entries? then Append(f, Leaves(result.entries)) else f
  }

  function DirectoryAfter(f: Forest, id: nat, result: ListingResult): Forest {
    match result
    case Entries(entries) => Grow(f, id, entries)
    case Finished => Settle(f, id, Expanded(id))
    case Broken(error) => Settle(f, id, Failed(id, error))
  }

  function WrappingNext(n: nat): nat {
    if n < U64_MAX then n + 1 else 0
  }

  class BrowserContext {
    const tree: Tree
    var generation: nat
    var lastRequestId: nat
    /** The requests whose listing tasks are held, and whether the root's is. */
    var listingTasks: set<nat>
    var rootListing: bool

    /** Tasks are held for exactly the rows that are loading; closed rows are empty; requests count up. */
    ghost predicate Valid()
      reads this, tree
    {
      && tree.Valid()
      && Tidy(tree.forest, lastRequestId)
      && listingTasks == tree.placements.Keys
    }

    constructor (rootPath: Bytes)
      ensures Valid() && fresh(tree) && rootListing && tree.forest == Empty && generation == 1 && lastRequestId == 0
      ensures tree.View() == TreeState(rootPath, [], map[], None, RootLoading)
    {
      tree := new Tree(rootPath);
      generation, lastRequestId, listingTasks, rootListing := 0, 0, {}, false;
      new;
      StartRootListing();
    }

    method StartRootListing()
      requires Valid()
      modifies this, tree
      ensures Valid() && tree.forest == Empty && tree.View() == Restarted(old(tree.View())) && listingTasks == {} && rootListing
      ensures generation == WrappingNext(old(generation)) != old(generation) && lastRequestId == old(lastRequestId)
      ensures tree.rootPath == old(tree.rootPath) && tree.rows == [] && tree.placements == map[] && tree.status == RootLoading
    {
      listingTasks := {};
      tree.Restart();
      generation := WrappingNext(generation);
      rootListing := true;
    }

    /** The root path changed: nothing of the old root stays but the numbers its requests and listings had. */
    method ChangeRootPath(path: Bytes)
      requires Valid()
      modifies this, tree
      ensures Valid() && tree.View() == TreeState(path, [], map[], None, RootLoading) && listingTasks == {} && rootListing
      ensures generation == WrappingNext(old(generation)) && lastRequestId == old(lastRequestId)
    {
      tree.Reroot(path);
      listingTasks := {};
      StartRootListing();
    }

    /** Unless request numbers start over, the context is sound afterwards exactly when the row could be begun. */
    method StartDirectoryListing(index: nat)
      requires Valid() && index < |tree.rows|
      modifies this, tree
      ensures generation == old(generation) && rootListing == old(rootListing)
      ensures lastRequestId == WrappingNext(old(lastRequestId))
      ensures tree.View() == ExpansionBegun(old(tree.View()), index, lastRequestId)
      ensures tree.forest == Open(old(tree.forest), index, lastRequestId)
      ensures listingTasks == old(listingTasks) + {lastRequestId}
      ensures old(lastRequestId) < U64_MAX ==> (Valid() <==> CanBegin(old(tree.rows), index))
    {
      ghost var was := lastRequestId;
      lastRequestId := WrappingNext(lastRequestId);
      if was < U64_MAX {
        TidyFresh(tree.forest, tree.rootPath, 0, was, lastRequestId);
        TidyOpen(tree.forest, index, lastRequestId, was);
      }
      var path := tree.BeginExpansion(index, lastRequestId);
      listingTasks := listingTasks + {lastRequestId};
    }

    method CollapseDirectory(index: nat)
      requires Valid() && index < |tree.rows|
      modifies this, tree
      ensures Valid() && generation == old(generation) && rootListing == old(rootListing)
      ensures lastRequestId == old(lastRequestId)
      ensures InRange(old(tree.View())) && tree.View() == CollapsedAt(old(tree.View()), index)
      ensures tree.forest == Close(old(tree.forest), index) && listingTasks <= old(listingTasks)
      ensures tree.selectedIndex == Some(index) && index < |tree.rows| && tree.rows[index].expansion == Collapsed
      ensures tree.rows[index].depth == old(tree.rows)[index].depth
    {
      TidyClose(tree.forest, index, lastRequestId);
      SubtreeEndEnds(tree.rows, index);
      RowsAfterClose(tree.rows, index, SubtreeEnd(tree.rows, index));
      var dropped := tree.Collapse(index);
      var i := 0;
      ghost var before := listingTasks;
      while i < |dropped|
        invariant 0 <= i <= |dropped|
        invariant listingTasks == before - set id | id in dropped[..i]
        modifies this`listingTasks
      {
        assert dropped[..i + 1] == dropped[..i] + [dropped[i]];
        listingTasks := listingTasks - {dropped[i]};
        i := i + 1;
      }
      assert dropped[..i] == dropped;
    }

    /**
      Opens a closed row, and closes any other: a closed row has nothing beneath it, so opening it is right unless it is at
      the depth limit.
    */
    method ToggleDirectory(index: nat)
      requires Valid() && index < |tree.rows|
      modifies this, tree
      ensures generation == old(generation) && InRange(old(tree.View()))
      ensures old(tree.rows)[index].expansion == Collapsed ==>
                && tree.View() == ExpansionBegun(old(tree.View()), index, lastRequestId)
                && tree.forest == Open(old(tree.forest), index, lastRequestId)
                && lastRequestId == WrappingNext(old(lastRequestId))
                && (old(lastRequestId) < U64_MAX ==> (Valid() <==> old(tree.rows)[index].depth < MAX_DEPTH))
      ensures old(tree.rows)[index].expansion != Collapsed ==>
                && Valid() && tree.View() == CollapsedAt(old(tree.View()), index) && tree.selectedIndex == Some(index)
                && tree.forest == Close(old(tree.forest), index)
    {
      PlacedInRange(tree.View());
      TidyRow(tree.forest, tree.rootPath, 0, lastRequestId, index);
      if tree.rows[index].expansion == Collapsed {
        StartDirectoryListing(index);
      } else {
        CollapseDirectory(index);
      }
    }

    /** The desktop's toggle: a failed row is closed before it is opened again, so what it kept is gone first. */
    method RetryingToggle(index: nat)
      requires Valid() && index < |tree.rows|
      modifies this, tree
      ensures generation == old(generation)
      ensures var row := old(tree.rows)[index];
              tree.forest == if !row.entry.navigable then old(tree.forest)
                             else if row.expansion == Collapsed then Open(old(tree.forest), index, lastRequestId)
                             else if row.expansion.Failed? then Open(Close(old(tree.forest), index), index, lastRequestId)
                             else Close(old(tree.forest), index)
      ensures var row := old(tree.rows)[index];
              var opens := row.entry.navigable && (row.expansion == Collapsed || row.expansion.Failed?);
              if opens then old(lastRequestId) < U64_MAX ==> (Valid() <==> row.depth < MAX_DEPTH) else Valid()
    {
      if !tree.rows[index].entry.navigable {
        return;
      }
      match tree.rows[index].expansion
      case Collapsed =>
        TidyRow(tree.forest, tree.rootPath, 0, lastRequestId, index);
        StartDirectoryListing(index);
      case Failed(_, _) =>
        CollapseDirectory(index);
        TidyRow(tree.forest, tree.rootPath, 0, lastRequestId, index);
        StartDirectoryListing(index);
      case _ =>
        CollapseDirectory(index);
    }

    /**
      An event of another generation, or for a request no row is loading under, changes nothing; any other reaches the
      root or the one directory it is for.
    */
    method Apply(eventGeneration: nat, target: ListingTarget, result: ListingResult)
      requires Valid()
      modifies this, tree
      ensures Valid() && generation == old(generation) && lastRequestId == old(lastRequestId)
      ensures eventGeneration != generation ==>
                tree.View() == old(tree.View()) && tree.forest == old(tree.forest) && rootListing == old(rootListing)
      ensures eventGeneration == generation && target.Root? ==>
                && tree.status == (match result case Entries(_) => old(tree.status)
                                                case Finished => RootComplete
                                                case Broken(error) => RootFailed(error))
                && rootListing == (old(rootListing) && result.Entries?)
                && tree.selectedIndex == (if tree.rows == [] then if result.Entries? then old(tree.selectedIndex) else None
                                          else if old(tree.selectedIndex).None? then Some(0)
                                          else if result.Entries? || old(tree.selectedIndex).value < |tree.rows| then old(tree.selectedIndex)
                                          else Some(|tree.rows| - 1))
      ensures target.Directory? ==> tree.status == old(tree.status) && rootListing == old(rootListing)
      ensures eventGeneration == generation && target.Directory? && target.requestId in old(tree.placements) && !result.Entries? ==>
                tree.selectedIndex == (if tree.rows == [] then None
                                       else if old(tree.selectedIndex).None? then Some(0)
                                       else if old(tree.selectedIndex).value < |tree.rows| then old(tree.selectedIndex)
                                       else Some(|tree.rows| - 1))
      ensures target.Directory? && result.Entries? ==>
                && (old(tree.selectedIndex).None? ==> tree.selectedIndex.None?)
                && (old(tree.selectedIndex).Some? && old(tree.selectedIndex).value < |old(tree.rows)| ==>
                      && tree.selectedIndex.Some? && tree.selectedIndex.value < |tree.rows|
                      && tree.rows[tree.selectedIndex.value] == old(tree.rows)[old(tree.selectedIndex).value])
      ensures target.Directory? && target.requestId !in old(tree.placements) ==>
                tree.View() == old(tree.View()) && tree.forest == old(tree.forest)
      ensures eventGeneration == generation ==>
                tree.forest == if target.Root? then RootAfter(old(tree.forest), result)
                               else DirectoryAfter(old(tree.forest), target.requestId, result)
    {
      if eventGeneration != generation {
        return;
      }
      match target
      case Root =>
        ApplyRoot(result);
      case Directory(_, requestId) =>
        ApplyDirectory(requestId, result);
    }

    method ApplyRoot(result: ListingResult)
      requires Valid()
      modifies this, tree
      ensures Valid() && generation == old(generation) && lastRequestId == old(lastRequestId)
      ensures tree.forest == RootAfter(old(tree.forest), result)
      ensures tree.View() == match result
                             case Entries(entries) => RootExtended(old(tree.View()), entries)
                             case Finished => RootFinished(old(tree.View()), Ok(()))
                             case Broken(error) => RootFinished(old(tree.View()), Err(error))
      ensures rootListing == (old(rootListing) && result.Entries?)
    {
      match result
      case Entries(entries) =>
        TidyLeaves(entries, lastRequestId);
        TidyAppend(tree.forest, Leaves(entries), lastRequestId);
        tree.ExtendRoot(entries);
      case Finished =>
        tree.FinishRoot(Ok(()));
        rootListing := false;
      case Broken(error) =>
        tree.FinishRoot(Err(error));
        rootListing := false;
    }

    method ApplyDirectory(requestId: nat, result: ListingResult)
      requires Valid()
      modifies this, tree
      ensures Valid() && generation == old(generation) && lastRequestId == old(lastRequestId)
      ensures requestId !in old(tree.placements) ==> tree.View() == old(tree.View()) && tree.forest == old(tree.forest)
      ensures tree.status == old(tree.status) && rootListing == old(rootListing)
      ensures InRange(old(tree.View()))
      ensures requestId in old(tree.placements) ==>
                tree.View() == match result
                               case Entries(entries) => ChildExtended(old(tree.View()), requestId, entries)
                               case Finished => ChildFinished(old(tree.View()), requestId, Ok(()))
                               case Broken(error) => ChildFinished(old(tree.View()), requestId, Err(error))
      ensures result.Entries? && old(tree.selectedIndex).Some? && old(tree.selectedIndex).value < |old(tree.rows)| ==>
                && tree.selectedIndex.Some? && tree.selectedIndex.value < |tree.rows|
                && tree.rows[tree.selectedIndex.value] == old(tree.rows)[old(tree.selectedIndex).value]
      ensures tree.forest == DirectoryAfter(old(tree.forest), requestId, result)
    {
      PlacedInRange(tree.View());
      var path := tree.ExpandingPath(requestId);
      if path.None? {
        PlacedOnly(tree.rows, tree.placements, requestId);
        AbsentEverywhere(tree.forest, tree.rootPath, requestId, result);
        return;
      }
      match result
      case Entries(entries) =>
        TidyGrow(tree.forest, requestId, entries, lastRequestId);
        tree.ExtendChild(requestId, entries);
      case Finished =>
        TidySettle(tree.forest, requestId, Ok(()), lastRequestId);
        listingTasks := listingTasks - {requestId};
        tree.FinishChild(requestId, Ok(()));
      case Broken(error) =>
        TidySettle(tree.forest, requestId, Err(error), lastRequestId);
        listingTasks := listingTasks - {requestId};
        tree.FinishChild(requestId, Err(error));
    }
  }

  lemma AbsentEverywhere(f: Forest, base: Bytes, id: nat, result: ListingResult)
    requires Absent(Flatten(f, base, 0), id)
    ensures f == DirectoryAfter(f, id, result)
  {
    match result
    case Entries(entries) => GrowAbsent(f, base, 0, id, entries);
    case Finished => SettleAbsent(f, base, 0, id, Expanded(id));
    case Broken(error) => SettleAbsent(f, base, 0, id, Failed(id, error));
  }
}
