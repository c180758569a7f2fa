/** The browsed root itself, updated in place. */
module BrowserTree {
  import opened Wrappers
  import opened Utf8
  import opened BrowserRows
  import opened BrowserForest
  import opened BrowserState

  class Tree {
    var rootPath: Bytes
    var rows: seq<Row>
    var placements: map<nat, Placement>
    var selectedIndex: Option<nat>
    var status: Status
    /** The ordered tree the rows stand for. */
    ghost var forest: Forest

    ghost function View(): TreeState
      reads this
    {
      TreeState(rootPath, rows, placements, selectedIndex, status)
    }

    ghost predicate Valid()
      reads this
    {
      Represents(View(), forest)
    }

    constructor (rootPath: Bytes)
      ensures Valid() && forest == Empty
      ensures View() == TreeState(rootPath, [], map[], None, RootLoading)
    {
      this.rootPath := rootPath;
      rows, placements, selectedIndex, status, forest := [], map[], None, RootLoading, Empty;
    }

    method Restart()
      modifies this
      ensures Valid() && forest == Empty && View() == Restarted(old(View()))
    {
      rows, placements, status, forest := [], map[], RootLoading, Empty;
    }

    method Reroot(path: Bytes)
      modifies this
      ensures Valid() && forest == Empty
      ensures View() == TreeState(path, [], map[], None, RootLoading)
    {
      rootPath := path;
      selectedIndex := None;
      Restart();
    }

    method ClampSelection()
      modifies this`selectedIndex
      ensures selectedIndex == Clamped(old(selectedIndex), |rows|)
    {
      if rows == [] {
        selectedIndex := None;
      } else if selectedIndex.Some? {
        selectedIndex := Some(if selectedIndex.value < |rows| - 1 then selectedIndex.value else |rows| - 1);
      } else {
        selectedIndex := Some(0);
      }
    }

    method PlacementsAfterInsertion(insertionIndex: nat, count: nat, depth: nat)
      modifies this`placements
      ensures placements == ShiftedIn(old(placements), insertionIndex, count, depth)
    {
      var todo := placements.Keys;
      while todo != {}
        invariant todo <= placements.Keys == old(placements).Keys
        invariant forall id :: id in placements ==>
                    placements[id] == if id in todo then old(placements)[id]
                                      else ShiftIn(old(placements)[id], insertionIndex, count, depth)
        decreases |todo|
      {
        var id :| id in todo;
        var placement := placements[id];
        if insertionIndex <= placement.parent {
          placement := placement.(parent := placement.parent + count, insertion := placement.insertion + count);
        } else if insertionIndex < placement.insertion
                  || (insertionIndex == placement.insertion && depth >= placement.depth) {
          placement := placement.(insertion := placement.insertion + count);
        }
        placements := placements[id := placement];
        todo := todo - {id};
      }
    }

    method PlacementsAfterRemoval(start: nat, end: nat)
      requires start <= end
      requires forall id :: id in placements ==> placements[id].parent <= placements[id].insertion
      modifies this`placements
      ensures placements == ShiftedOut(old(placements), start, end)
    {
      var count := end - start;
      var todo := placements.Keys;
      while todo != {}
        invariant todo <= placements.Keys == old(placements).Keys
        invariant forall id :: id in placements ==>
                    placements[id] == if id in todo then old(placements)[id] else ShiftOut(old(placements)[id], start, end)
        decreases |todo|
      {
        var id :| id in todo;
        var placement := placements[id];
        if placement.parent >= end {
          placement := placement.(parent := placement.parent - count, insertion := placement.insertion - count);
        } else if placement.insertion >= end {
          placement := placement.(insertion := placement.insertion - count);
        } else if placement.insertion > start {
          placement := placement.(insertion := start);
        }
        placements := placements[id := placement];
        todo := todo - {id};
      }
    }

    /** Where the subtree of a row ends, found by walking it. */
    method FindSubtreeEnd(index: nat) returns (end: nat)
      requires index < |rows|
      ensures end == SubtreeEnd(rows, index)
    {
      var depth := rows[index].depth;
      end := index + 1;
      while end < |rows| && rows[end].depth > depth
        invariant index < end <= |rows|
        invariant SubtreeEnd(rows, index) == EndFrom(rows, depth, end)
      {
        end := end + 1;
      }
    }

    method ExtendRoot(entries: seq<DirectoryEntry>)
      requires Valid()
      modifies this
      ensures Valid() && View() == RootExtended(old(View()), entries)
      ensures forest == Append(old(forest), Leaves(entries))
    {
      RootExtendedRepresents(View(), forest, entries);
      var insertionIndex := |rows|;
      var new_ := NewRows(entries, rootPath, 0);
      InsertLast(rows, new_);
      rows := rows + new_;
      PlacementsAfterInsertion(insertionIndex, |entries|, 0);
      if selectedIndex.None? && rows != [] {
        selectedIndex := Some(0);
      }
      forest := Append(forest, Leaves(entries));
    }

    method FinishRoot(result: Result<(), string>)
      requires Valid()
      modifies this
      ensures Valid() && View() == RootFinished(old(View()), result) && forest == old(forest)
    {
      status := match result case Ok(_) => RootComplete case Err(error) => RootFailed(error);
      ClampSelection();
    }

    /** The row an expansion in flight is filling. */
    method ExpandingPath(requestId: nat) returns (path: Option<Bytes>)
      requires Valid()
      ensures path.Some? <==> requestId in placements
      ensures path.Some? ==> exists i :: 0 <= i < |rows| && rows[i].expansion == Loading(requestId) && path.value == rows[i].path
    {
      if requestId in placements {
        assert Right(rows, requestId, placements[requestId]);
        path := Some(rows[placements[requestId].parent].path);
      } else {
        path := None;
      }
    }

    method ExtendChild(requestId: nat, entries: seq<DirectoryEntry>)
      requires Valid()
      modifies this
      ensures InRange(old(View())) && Valid() && View() == ChildExtended(old(View()), requestId, entries)
      ensures forest == Grow(old(forest), requestId, entries)
      ensures old(selectedIndex).Some? && old(selectedIndex).value < |old(rows)| ==>
                && selectedIndex.Some? && selectedIndex.value < |rows|
                && rows[selectedIndex.value] == old(rows)[old(selectedIndex).value]
    {
      hide Placed, Flatten, Grow, NewRows, ShiftIn, Right, EndsAt;
      PlacedInRange(View());
      ChildExtendedRepresents(View(), forest, requestId, entries);
      if selectedIndex.Some? && selectedIndex.value < |rows| {
        SelectionFollowsRow(View(), requestId, entries);
      }
      forest := Grow(forest, requestId, entries);
      if requestId !in placements {
        return;
      }
      var placement := placements[requestId];
      var insertionIndex := placement.insertion;
      if selectedIndex.Some? && insertionIndex <= selectedIndex.value {
        selectedIndex := Some(selectedIndex.value + |entries|);
      }
      var parentPath := rows[placement.parent].path;
      rows := rows[..insertionIndex] + NewRows(entries, parentPath, placement.depth) + rows[insertionIndex..];
      PlacementsAfterInsertion(insertionIndex, |entries|, placement.depth);
    }

    method FinishChild(requestId: nat, result: Result<(), string>)
      requires Valid()
      modifies this
      ensures InRange(old(View())) && Valid() && View() == ChildFinished(old(View()), requestId, result)
      ensures forest == Settle(old(forest), requestId, Outcome(requestId, result))
    {
      PlacedInRange(View());
      ChildFinishedRepresents(View(), forest, requestId, result);
      forest := Settle(forest, requestId, Outcome(requestId, result));
      if requestId !in placements {
        return;
      }
      var parent := placements[requestId].parent;
      placements := placements - {requestId};
      var expansion := match result
        case Ok(_) => Expanded(requestId)
        case Err(error) => Failed(requestId, error);
      rows := rows[parent := rows[parent].(expansion := expansion)];
      ClampSelection();
    }

    /**
      Starts filling a row. Under a request no row knows, the tree is still the one the rows stand for exactly when the
      row has nothing beneath it yet, is not loading already and can have deeper rows.
    */
    method BeginExpansion(index: nat, requestId: nat) returns (path: Bytes)
      requires Valid() && index < |rows|
      modifies this
      ensures View() == ExpansionBegun(old(View()), index, requestId)
      ensures Fresh(old(rows), requestId) ==> (Valid() <==> CanBegin(old(rows), index))
      ensures forest == Open(old(forest), index, requestId) && path == rows[index].path
    {
      OpenIsUpdate(forest, rootPath, 0, index, requestId);
      if Fresh(rows, requestId) {
        BeginKeepsPlacedExactly(View(), index, requestId);
      }
      forest := Open(forest, index, requestId);
      rows := rows[index := rows[index].(expansion := Loading(requestId))];
      placements := placements[requestId := Placement(index, ChildDepth(rows[index].depth), index + 1)];
      path := rows[index].path;
    }

    /** Closes a row's subtree, and reports the expansions that went with it. */
    method Collapse(index: nat) returns (dropped: seq<nat>)
      requires Valid() && index < |rows|
      modifies this
      ensures InRange(old(View())) && Valid() && View() == CollapsedAt(old(View()), index)
      ensures forest == Close(old(forest), index)
      ensures dropped == InFlight(old(rows)[index..SubtreeEnd(old(rows), index)], old(placements))
      ensures placements.Keys == old(placements).Keys - (set id | id in dropped)
    {
      PlacedInRange(View());
      CollapsedAtRepresents(View(), forest, index);
      forest := Close(forest, index);
      var end := FindSubtreeEnd(index);
      var closing := rows[index..end];
      DistinctInFlight(rows, placements, index, end);
      hide Represents, Placed, Distinct, Ids, InFlight, SubtreeEnd, Close, ShiftOut, Carries, Flatten, Closed;
      dropped := DropRequests(closing);
      InFlightIds(closing, old(placements));
      assert placements.Keys == old(placements).Keys - (set id | id in dropped);
      CloseRows(index, end);
      assert View() == CollapsedAt(old(View()), index);
    }

    /** Takes the rows of a subtree out, all but its first, and shifts the placements after them. */
    method CloseRows(index: nat, end: nat)
      requires index < end <= |rows|
      requires forall id :: id in placements ==> placements[id].parent <= placements[id].insertion
      modifies this`rows, this`placements, this`selectedIndex
      ensures rows == Closed(old(rows), index, end)
      ensures placements == ShiftedOut(old(placements), index + 1, end) && placements.Keys == old(placements).Keys
      ensures selectedIndex == Some(index)
    {
      rows := rows[..index + 1] + rows[end..];
      PlacementsAfterRemoval(index + 1, end);
      rows := rows[index := rows[index].(expansion := Collapsed)];
      selectedIndex := Some(index);
    }

    /** Removes the placements some rows' requests hold, each reported once. */
    method DropRequests(closing: seq<Row>) returns (dropped: seq<nat>)
      requires Distinct(closing, placements)
      modifies this`placements
      ensures dropped == InFlight(closing, old(placements))
      ensures placements == Without(old(placements), Ids(closing))
    {
      dropped := [];
      var i := 0;
      assert closing[..0] == [];
      while i < |closing|
        invariant 0 <= i <= |closing|
        invariant dropped == InFlight(closing[..i], old(placements))
        invariant placements == Without(old(placements), Ids(closing[..i]))
      {
        InFlightSnoc(closing[..i], closing[i], old(placements));
        IdsSnoc(closing[..i], closing[i]);
        assert closing[..i] + [closing[i]] == closing[..i + 1];
        var id := closing[i].expansion.RequestId();
        if Carries(closing[i], old(placements)) {
          NotSeen(closing, old(placements), i);
        }
        if id.Some? {
          if id.value in placements {
            placements := placements - {id.value};
            dropped := dropped + [id.value];
          }
        }
        i := i + 1;
      }
      assert closing[..i] == closing;
    }
  }

  /** No two rows carry one request that is in flight. */
  ghost predicate Distinct(rows: seq<Row>, placements: map<nat, Placement>) {
    forall i, j :: 0 <= i < j < |rows| && Carries(rows[j], placements) ==>
      rows[i].expansion.RequestId() != rows[j].expansion.RequestId()
  }

  lemma DistinctInFlight(rows: seq<Row>, placements: map<nat, Placement>, index: nat, end: nat)
    requires Placed(rows, placements) && index <= end <= |rows|
    ensures Distinct(rows[index..end], placements)
  {
    var cut := rows[index..end];
    forall i, j | 0 <= i < j < |cut| && Carries(cut[j], placements)
      ensures cut[i].expansion.RequestId() != cut[j].expansion.RequestId()
    {
      assert cut[i] == rows[index + i] && cut[j] == rows[index + j];
      assert Carries(rows[index + j], placements);
      assert Carries(rows[index + i], placements) ==>
          placements[rows[index + i].expansion.RequestId().value].parent == index + i;
    }
  }

  lemma NotSeen(rows: seq<Row>, placements: map<nat, Placement>, i: nat)
    requires Distinct(rows, placements) && i < |rows| && Carries(rows[i], placements)
    ensures rows[i].expansion.RequestId().value !in Ids(rows[..i])
  {
    var seen := rows[..i];
    forall k | 0 <= k < |seen| && seen[k].expansion.RequestId().Some?
      ensures seen[k].expansion.RequestId().value != rows[i].expansion.RequestId().value
    {
      assert seen[k] == rows[k];
    }
  }

  lemma {:induction false} InFlightSnoc(rows: seq<Row>, row: Row, placements: map<nat, Placement>)
    ensures InFlight(rows + [row], placements) ==
            InFlight(rows, placements) + (if Carries(row, placements) then [row.expansion.RequestId().value] else [])
  {
    if rows == [] {
      assert rows + [row] == [row] && [row][1..] == [];
      assert InFlight([], placements) == [];
    } else {
      assert (rows + [row])[1..] == rows[1..] + [row];
      InFlightSnoc(rows[1..], row, placements);
    }
  }

  lemma IdsSnoc(rows: seq<Row>, row: Row)
    ensures Ids(rows + [row]) ==
            Ids(rows) + (if row.expansion.RequestId().Some? then {row.expansion.RequestId().value} else {})
  {
    var all := rows + [row];
    assert forall i :: 0 <= i < |rows| ==> all[i] == rows[i];
    assert all[|rows|] == row;
  }

  lemma {:induction false} InFlightIds(rows: seq<Row>, placements: map<nat, Placement>)
    ensures forall id :: id in InFlight(rows, placements) <==> id in Ids(rows) && id in placements
  {
    if rows != [] {
      InFlightIds(rows[1..], placements);
      assert rows == [rows[0]] + rows[1..];
      assert forall i :: 0 <= i < |rows[1..]| ==> rows[1..][i] == rows[i + 1];
    }
  }
}
