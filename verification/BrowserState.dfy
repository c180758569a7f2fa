/** What each operation on a browsed root does to its rows and placements, and what they all keep. */
module BrowserState {
  import opened Wrappers
  import opened Utf8
  import opened BrowserRows
  import opened BrowserForest

  datatype Status = RootLoading | RootComplete | RootFailed(error: string)

  datatype TreeState = TreeState(
    rootPath: Bytes,
    rows: seq<Row>,
    placements: map<nat, Placement>,
    selected: Option<nat>,
    status: Status)

  // ----- the operations -----

  function Clamped(selected: Option<nat>, length: nat): Option<nat> {
    if length == 0 then None
    else match selected
      case Some(index) => Some(if index < length - 1 then index else length - 1)
      case None => Some(0)
  }

  function Restarted(st: TreeState): TreeState {
    st.(rows := [], placements := map[], status := RootLoading)
  }

  function ShiftedIn(placements: map<nat, Placement>, at: nat, count: nat, depth: nat): map<nat, Placement> {
    map id | id in placements :: ShiftIn(placements[id], at, count, depth)
  }

  function RootExtended(st: TreeState, entries: seq<DirectoryEntry>): TreeState {
    var at := |st.rows|;
    var rows := Insert(st.rows, at, NewRows(entries, st.rootPath, 0));
    st.(rows := rows,
        placements := ShiftedIn(st.placements, at, |entries|, 0),
        selected := if st.selected.None? && rows != [] then Some(0) else st.selected)
  }

  function RootFinished(st: TreeState, result: Result<(), string>): TreeState {
    st.(status := (match result case Ok(_) => RootComplete case Err(error) => RootFailed(error)),
        selected := Clamped(st.selected, |st.rows|))
  }

  /** A selection at or past the insertion follows the row it was on. */
  function Pushed(selected: Option<nat>, at: nat, count: nat): Option<nat> {
    match selected
    case Some(index) => if at <= index then Some(index + count) else selected
    case None => None
  }

  function ChildExtended(st: TreeState, id: nat, entries: seq<DirectoryEntry>): TreeState
    requires InRange(st)
  {
    if id !in st.placements then st
    else
      var p := st.placements[id];
      st.(rows := Insert(st.rows, p.insertion, NewRows(entries, st.rows[p.parent].path, p.depth)),
          placements := ShiftedIn(st.placements, p.insertion, |entries|, p.depth),
          selected := Pushed(st.selected, p.insertion, |entries|))
  }

  function Outcome(id: nat, result: Result<(), string>): Expansion {
    match result
    case Ok(_) => Expanded(id)
    case Err(error) => Failed(id, error)
  }

  function ChildFinished(st: TreeState, id: nat, result: Result<(), string>): TreeState
    requires InRange(st)
  {
    if id !in st.placements then st
    else
      var i := st.placements[id].parent;
      st.(rows := st.rows[i := st.rows[i].(expansion := Outcome(id, result))],
          placements := st.placements - {id},
          selected := Clamped(st.selected, |st.rows|))
  }

  function ExpansionBegun(st: TreeState, index: nat, id: nat): TreeState
    requires index < |st.rows|
  {
    st.(rows := st.rows[index := st.rows[index].(expansion := Loading(id))],
        placements := st.placements[id := Placement(index, ChildDepth(st.rows[index].depth), index + 1)])
  }

  /** The first row from `j` on that is no deeper than `depth`. */
  function EndFrom(rows: seq<Row>, depth: nat, j: nat): (e: nat)
    requires j <= |rows|
    ensures j <= e <= |rows|
    decreases |rows| - j
  {
    if j == |rows| || rows[j].depth <= depth then j else EndFrom(rows, depth, j + 1)
  }

  function SubtreeEnd(rows: seq<Row>, i: nat): (e: nat)
    requires i < |rows|
    ensures i < e <= |rows|
  {
    EndFrom(rows, rows[i].depth, i + 1)
  }

  /** The requests of some rows that are still in flight, in the rows' order. */
  function InFlight(rows: seq<Row>, placements: map<nat, Placement>): seq<nat> {
    if rows == [] then []
    else
      var rest := InFlight(rows[1..], placements);
      var id := rows[0].expansion.RequestId();
      if id.Some? && id.value in placements then [id.value] + rest else rest
  }

  function Ids(rows: seq<Row>): set<nat> {
    set i | 0 <= i < |rows| && rows[i].expansion.RequestId().Some? :: rows[i].expansion.RequestId().value
  }

  function ShiftedOut(placements: map<nat, Placement>, start: nat, end: nat): map<nat, Placement>
    requires start <= end
    requires forall id :: id in placements ==> placements[id].parent <= placements[id].insertion
  {
    map id | id in placements :: ShiftOut(placements[id], start, end)
  }

  function Without(placements: map<nat, Placement>, ids: set<nat>): map<nat, Placement> {
    map id | id in placements && id !in ids :: placements[id]
  }

  function CollapsedAt(st: TreeState, index: nat): TreeState
    requires InRange(st) && index < |st.rows|
  {
    var end := SubtreeEnd(st.rows, index);
    st.(rows := Closed(st.rows, index, end),
        placements := ShiftedOut(Without(st.placements, Ids(st.rows[index..end])), index + 1, end),
        selected := Some(index))
  }

  // ----- the invariant -----

  ghost predicate InRange(st: TreeState) {
    forall id :: id in st.placements ==> st.placements[id].parent < st.placements[id].insertion <= |st.rows|
  }

  /** The placement is the one a walk over the rows would find for `id`. */
  ghost predicate Right(rows: seq<Row>, id: nat, p: Placement) {
    && p.parent < |rows|
    && rows[p.parent].expansion == Loading(id)
    && p.depth == rows[p.parent].depth + 1
    && EndsAt(rows, p.parent, p.insertion)
  }

  predicate Carries(row: Row, placements: map<nat, Placement>) {
    row.expansion.RequestId().Some? && row.expansion.RequestId().value in placements
  }

  /** Placements are one to one with loading rows, and right; and no other row carries the request of one. */
  ghost predicate Placed(rows: seq<Row>, placements: map<nat, Placement>) {
    && (forall id :: id in placements ==> Right(rows, id, placements[id]))
    && (forall i :: 0 <= i < |rows| && rows[i].expansion.Loading? ==> rows[i].expansion.requestId in placements)
    && (forall i :: 0 <= i < |rows| && Carries(rows[i], placements) ==>
          placements[rows[i].expansion.RequestId().value].parent == i)
  }

  /** The state stands for the ordered tree `f`. */
  ghost predicate Represents(st: TreeState, f: Forest) {
    && st.rows == Flatten(f, st.rootPath, 0)
    && Placed(st.rows, st.placements)
  }

  lemma PlacedInRange(st: TreeState)
    requires Placed(st.rows, st.placements)
    ensures InRange(st)
  {
  }

  lemma {:induction false} EndFromEnds(rows: seq<Row>, i: nat, j: nat)
    requires i < j <= |rows|
    requires forall k :: i < k < j ==> rows[k].depth > rows[i].depth
    ensures EndsAt(rows, i, EndFrom(rows, rows[i].depth, j))
    decreases |rows| - j
  {
    if j < |rows| && rows[j].depth > rows[i].depth {
      EndFromEnds(rows, i, j + 1);
    }
  }

  lemma SubtreeEndEnds(rows: seq<Row>, i: nat)
    requires i < |rows|
    ensures EndsAt(rows, i, SubtreeEnd(rows, i))
  {
    EndFromEnds(rows, i, i + 1);
  }

  /** Nothing that goes on past the end of a subtree is as deep as its children. */
  lemma BelongsAtEnd(rows: seq<Row>, i: nat, e: nat)
    requires EndsAt(rows, i, e)
    ensures Belongs(rows, e, rows[i].depth + 1)
  {
  }

  lemma InsertionKeepsRight(rows: seq<Row>, placements: map<nat, Placement>, at: nat, new_: seq<Row>, depth: nat)
    requires at <= |rows| && Placed(rows, placements) && Belongs(rows, at, depth)
    requires forall k :: 0 <= k < |new_| ==> new_[k].depth == depth
    ensures var q := ShiftedIn(placements, at, |new_|, depth);
            forall id :: id in q ==> Right(Insert(rows, at, new_), id, q[id])
  {
    var q := ShiftedIn(placements, at, |new_|, depth);
    forall id | id in q
      ensures Right(Insert(rows, at, new_), id, q[id])
    {
      assert Right(rows, id, placements[id]);
      EndAfterInsertion(rows, placements[id], at, new_, depth);
      hide Insert, EndsAt, Belongs;
    }
  }

  /** Rows landing where they belong leave every shifted placement right. */
  lemma InsertionKeepsPlaced(rows: seq<Row>, placements: map<nat, Placement>, at: nat, new_: seq<Row>, depth: nat)
    requires at <= |rows| && Placed(rows, placements) && Belongs(rows, at, depth)
    requires forall k :: 0 <= k < |new_| ==> new_[k].depth == depth && new_[k].expansion == Collapsed
    ensures Placed(Insert(rows, at, new_), ShiftedIn(placements, at, |new_|, depth))
  {
    hide Insert, Right, EndsAt, Belongs;
    InsertIndex(rows, at, new_);
    InsertionKeepsRight(rows, placements, at, new_, depth);
    var r, q := Insert(rows, at, new_), ShiftedIn(placements, at, |new_|, depth);
    forall i | 0 <= i < |r|
      ensures r[i].expansion.Loading? ==> r[i].expansion.requestId in q
      ensures Carries(r[i], q) ==> q[r[i].expansion.RequestId().value].parent == i
    {
      if i < at || i >= at + |new_| {
        var j := if i < at then i else i - |new_|;
        assert r[i] == rows[j];
        assert Carries(rows[j], placements) ==> placements[rows[j].expansion.RequestId().value].parent == j;
      } else {
        assert r[i] == new_[i - at];
      }
    }
  }

  /** A closed subtree leaves every placement outside it right, and takes the rest with it. */
  lemma RemovalKeepsPlaced(st: TreeState, index: nat)
    requires Placed(st.rows, st.placements) && index < |st.rows| && InRange(st)
    ensures var st' := CollapsedAt(st, index); Placed(st'.rows, st'.placements)
  {
    var end := SubtreeEnd(st.rows, index);
    SubtreeEndEnds(st.rows, index);
    var st' := CollapsedAt(st, index);
    forall id | id in st'.placements
      ensures Right(st'.rows, id, st'.placements[id])
    {
      OutsideIsKept(st, index, end, id);
    }
    RowsAfterClose(st.rows, index, end);
    hide Right, EndsAt, SubtreeEnd, Closed, ShiftOut;
    forall i | 0 <= i < |st'.rows| && st'.rows[i].expansion.RequestId().Some?
      ensures st'.rows[i].expansion.Loading? ==> st'.rows[i].expansion.requestId in st'.placements
      ensures st'.rows[i].expansion.RequestId().value in st'.placements ==>
                st'.placements[st'.rows[i].expansion.RequestId().value].parent == i
    {
      KeptRow(st, index, end, i);
    }
  }

  lemma RowsAfterClose(rows: seq<Row>, index: nat, end: nat)
    requires index < end <= |rows|
    ensures var r := Closed(rows, index, end);
            && |r| == |rows| - (end - index - 1)
            && r[index] == rows[index].(expansion := Collapsed)
            && (forall i :: 0 <= i < index ==> r[i] == rows[i])
            && (forall i :: index < i < |r| ==> r[i] == rows[i + (end - index - 1)])
  {
  }

  lemma InIds(rows: seq<Row>, index: nat, end: nat, i: nat)
    requires index <= i < end <= |rows| && rows[i].expansion.RequestId().Some?
    ensures rows[i].expansion.RequestId().value in Ids(rows[index..end])
  {
    assert rows[index..end][i - index] == rows[i];
  }

  /** A request that stays is for a row outside what goes. */
  lemma OutsideIsKept(st: TreeState, index: nat, end: nat, id: nat)
    requires Placed(st.rows, st.placements) && InRange(st) && EndsAt(st.rows, index, end)
    requires id in st.placements && id !in Ids(st.rows[index..end])
    ensures var p := st.placements[id];
            && (p.parent < index || p.parent >= end)
            && Right(Closed(st.rows, index, end), id, ShiftOut(p, index + 1, end))
  {
    var p := st.placements[id];
    if index <= p.parent < end {
      InIds(st.rows, index, end, p.parent);
    }
    EndAfterRemoval(st.rows, p, index, end);
    var q := ShiftOut(p, index + 1, end);
    var removed := Remove(st.rows, index + 1, end);
    RemoveIndex(st.rows, index + 1, end);
    assert removed[index] == st.rows[index];
    assert q.parent != index;
    var r := Closed(st.rows, index, end);
    assert forall j :: 0 <= j < |r| ==> r[j].depth == removed[j].depth;
  }

  lemma NotInIds(st: TreeState, index: nat, end: nat, id: nat)
    requires Placed(st.rows, st.placements) && id in st.placements && index < end <= |st.rows|
    requires st.placements[id].parent < index || st.placements[id].parent >= end
    ensures id !in Ids(st.rows[index..end])
  {
    var cut := st.rows[index..end];
    forall k | 0 <= k < |cut| && cut[k].expansion.RequestId().Some?
      ensures cut[k].expansion.RequestId().value != id
    {
      var row := st.rows[index + k];
      assert Carries(row, st.placements) ==> st.placements[row.expansion.RequestId().value].parent == index + k;
    }
  }

  /** A row that is left with a request is the row it was, outside what went. */
  lemma KeptRow(st: TreeState, index: nat, end: nat, i: nat)
    requires Placed(st.rows, st.placements) && InRange(st)
    requires index < |st.rows| && end == SubtreeEnd(st.rows, index)
    requires i < |Closed(st.rows, index, end)| && Closed(st.rows, index, end)[i].expansion.RequestId().Some?
    ensures var st' := CollapsedAt(st, index);
            var x := st'.rows[i].expansion;
            && (x.Loading? ==> x.requestId in st'.placements)
            && (x.RequestId().value in st'.placements ==> st'.placements[x.RequestId().value].parent == i)
  {
    var j := if i < index then i else i + (end - index - 1);
    SubtreeEndEnds(st.rows, index);
    RowsAfterClose(st.rows, index, end);
    var st' := CollapsedAt(st, index);
    assert i != index && st'.rows[i] == st.rows[j] && (j < index || j >= end);
    var id := st.rows[j].expansion.RequestId().value;
    hide Closed, EndsAt;
    if id in st.placements {
      assert st.placements[id].parent == j;
      NotInIds(st, index, end, id);
    }
  }

  /** No placement left after a collapse has its insertion inside what went: the last branch of the shift is never taken. */
  lemma LastShiftNeverTaken(st: TreeState, index: nat, id: nat)
    requires Placed(st.rows, st.placements) && index < |st.rows|
    requires id in st.placements && id !in Ids(st.rows[index..SubtreeEnd(st.rows, index)])
    ensures var p, start, end := st.placements[id], index + 1, SubtreeEnd(st.rows, index);
            p.parent >= end || p.insertion >= end || p.insertion <= start
  {
    var p, end := st.placements[id], SubtreeEnd(st.rows, index);
    SubtreeEndEnds(st.rows, index);
    if index <= p.parent < end {
      InIds(st.rows, index, end, p.parent);
    }
    EndsNest(st.rows, index, end, p.parent, p.insertion);
  }

  // ----- each operation against the tree -----

  lemma RootExtendedRepresents(st: TreeState, f: Forest, entries: seq<DirectoryEntry>)
    requires Represents(st, f)
    ensures Represents(RootExtended(st, entries), Append(f, Leaves(entries)))
  {
    var at, new_ := |st.rows|, NewRows(entries, st.rootPath, 0);
    FlattenAppend(f, Leaves(entries), st.rootPath, 0);
    FlattenLeaves(entries, st.rootPath, 0);
    InsertLast(st.rows, new_);
    assert Belongs(st.rows, at, 0) by {
      assert forall i: nat, e: nat :: i < at < e ==> !EndsAt(st.rows, i, e);
    }
    InsertionKeepsPlaced(st.rows, st.placements, at, new_, 0);
  }

  /** A placement's row is the only one loading under its request. */
  lemma PlacedOnly(rows: seq<Row>, placements: map<nat, Placement>, id: nat)
    requires Placed(rows, placements)
    ensures id in placements ==> OnlyAt(rows, placements[id].parent, id)
    ensures id !in placements ==> Absent(rows, id)
  {
    forall j | 0 <= j < |rows| && rows[j].expansion == Loading(id)
      ensures id in placements && placements[id].parent == j
    {
      assert rows[j].expansion.RequestId() == Some(id);
    }
  }

  lemma PlacedRight(rows: seq<Row>, placements: map<nat, Placement>, id: nat)
    requires Placed(rows, placements) && id in placements
    ensures Right(rows, id, placements[id])
  {
  }

  lemma ChildExtendedRepresents(st: TreeState, f: Forest, id: nat, entries: seq<DirectoryEntry>)
    requires Represents(st, f) && InRange(st)
    ensures Represents(ChildExtended(st, id, entries), Grow(f, id, entries))
  {
    hide Placed, OnlyAt, Absent, Grow, Flatten, Insert, NewRows, ShiftedIn, Belongs, EndsAt;
    PlacedOnly(st.rows, st.placements, id);
    if id in st.placements {
      var p := st.placements[id];
      PlacedRight(st.rows, st.placements, id);
      EndsInDir(f, st.rootPath, 0, p.parent, p.insertion);
      GrowIsInsertion(f, st.rootPath, 0, p.parent, p.insertion, id, entries);
      BelongsAtEnd(st.rows, p.parent, p.insertion);
      InsertionKeepsPlaced(st.rows, st.placements, p.insertion, NewRows(entries, st.rows[p.parent].path, p.depth), p.depth);
    } else {
      GrowAbsent(f, st.rootPath, 0, id, entries);
    }
  }

  lemma UpdateKeepsEnds(rows: seq<Row>, k: nat, x: Expansion, i: nat, e: nat)
    requires k < |rows| && EndsAt(rows, i, e)
    ensures EndsAt(rows[k := rows[k].(expansion := x)], i, e)
  {
    var r := rows[k := rows[k].(expansion := x)];
    assert forall j :: 0 <= j < |rows| ==> r[j].depth == rows[j].depth;
  }

  lemma FinishKeepsPlaced(rows: seq<Row>, placements: map<nat, Placement>, id: nat, x: Expansion)
    requires Placed(rows, placements) && id in placements && !x.Loading? && x.RequestId() == Some(id)
    requires placements[id].parent < |rows|
    ensures Placed(rows[placements[id].parent := rows[placements[id].parent].(expansion := x)], placements - {id})
  {
    var k := placements[id].parent;
    var r, q := rows[k := rows[k].(expansion := x)], placements - {id};
    forall other | other in q
      ensures Right(r, other, q[other])
    {
      assert Right(rows, other, placements[other]) && Right(rows, id, placements[id]);
      UpdateKeepsEnds(rows, k, x, q[other].parent, q[other].insertion);
    }
    hide Right;
  }

  lemma ChildFinishedRepresents(st: TreeState, f: Forest, id: nat, result: Result<(), string>)
    requires Represents(st, f) && InRange(st)
    ensures Represents(ChildFinished(st, id, result), Settle(f, id, Outcome(id, result)))
  {
    PlacedOnly(st.rows, st.placements, id);
    if id in st.placements {
      SettleIsUpdate(f, st.rootPath, 0, st.placements[id].parent, id, Outcome(id, result));
      FinishKeepsPlaced(st.rows, st.placements, id, Outcome(id, result));
    } else {
      SettleAbsent(f, st.rootPath, 0, id, Outcome(id, result));
    }
  }

  /** The row has nothing beneath it, is not loading, and is not at the depth limit. */
  predicate CanBegin(rows: seq<Row>, index: nat)
    requires index < |rows|
  {
    Childless(rows, index) && !rows[index].expansion.Loading? && rows[index].depth < MAX_DEPTH
  }

  /** No row knows the request. */
  ghost predicate Fresh(rows: seq<Row>, id: nat) {
    forall i :: 0 <= i < |rows| ==> rows[i].expansion.RequestId() != Some(id)
  }

  /**
    Beginning an expansion leaves the placements right exactly when the row has nothing beneath it yet, is not loading
    already, and is not at the depth limit.
  */
  lemma BeginKeepsPlacedExactly(st: TreeState, index: nat, id: nat)
    requires Placed(st.rows, st.placements) && index < |st.rows| && Fresh(st.rows, id)
    ensures var st' := ExpansionBegun(st, index, id);
            Placed(st'.rows, st'.placements) <==> CanBegin(st.rows, index)
  {
    var st' := ExpansionBegun(st, index, id);
    var r, q := st'.rows, st'.placements;
    assert id in st.placements ==> Right(st.rows, id, st.placements[id]);
    assert id !in st.placements;
    BeginRightExactly(st, index, id);
    if st.rows[index].expansion.Loading? {
      var old_ := st.rows[index].expansion.requestId;
      assert old_ in q && q[old_] == st.placements[old_] && st.placements[old_].parent == index;
      assert !Right(r, old_, q[old_]);
    } else {
      forall other | other in st.placements
        ensures Right(r, other, q[other])
      {
        assert Right(st.rows, other, st.placements[other]);
        UpdateKeepsEnds(st.rows, index, Loading(id), q[other].parent, q[other].insertion);
      }
      hide Right, EndsAt;
      forall i | 0 <= i < |r| && r[i].expansion.RequestId().Some?
        ensures r[i].expansion.Loading? ==> r[i].expansion.requestId in q
        ensures r[i].expansion.RequestId().value in q ==> q[r[i].expansion.RequestId().value].parent == i
      {
        if i != index {
          assert r[i] == st.rows[i];
        }
      }
    }
  }

  lemma BeginRightExactly(st: TreeState, index: nat, id: nat)
    requires index < |st.rows|
    ensures var st' := ExpansionBegun(st, index, id);
            Right(st'.rows, id, st'.placements[id]) <==> Childless(st.rows, index) && st.rows[index].depth < MAX_DEPTH
  {
  }

  lemma ExpansionBegunRepresents(st: TreeState, f: Forest, index: nat, id: nat)
    requires Represents(st, f) && index < |st.rows| && Fresh(st.rows, id)
    requires CanBegin(st.rows, index)
    ensures Represents(ExpansionBegun(st, index, id), Open(f, index, id))
  {
    OpenIsUpdate(f, st.rootPath, 0, index, id);
    BeginKeepsPlacedExactly(st, index, id);
    hide Placed, Fresh, Flatten, Open;
  }

  lemma CollapsedAtRepresents(st: TreeState, f: Forest, index: nat)
    requires Represents(st, f) && InRange(st) && index < |st.rows|
    ensures Represents(CollapsedAt(st, index), Close(f, index))
  {
    SubtreeEndEnds(st.rows, index);
    RemovalKeepsPlaced(st, index);
    hide Placed, InRange, SubtreeEnd, Closed, EndsAt;
    EndsInDir(f, st.rootPath, 0, index, SubtreeEnd(st.rows, index));
    CloseIsRemoval(f, st.rootPath, 0, index, SubtreeEnd(st.rows, index));
  }

  /** A group lands without moving what is selected to another row. */
  lemma SelectionFollowsRow(st: TreeState, id: nat, entries: seq<DirectoryEntry>)
    requires InRange(st) && st.selected.Some? && st.selected.value < |st.rows|
    ensures var st' := ChildExtended(st, id, entries);
            && st'.selected.Some? && st'.selected.value < |st'.rows|
            && st'.rows[st'.selected.value] == st.rows[st.selected.value]
  {
    if id in st.placements {
      var p := st.placements[id];
      InsertIndex(st.rows, p.insertion, NewRows(entries, st.rows[p.parent].path, p.depth));
    }
  }
}
