/** Whole runs of a browsed root, against the ordered tree and against the groups that arrived. */
module BrowserRun {
  import opened Wrappers
  import opened Utf8
  import opened PathString
  import opened BrowserRows
  import opened BrowserForest
  import opened BrowserState

  datatype Op =
    | Restart
    | ExtendRoot(entries: seq<DirectoryEntry>)
    | FinishRoot(result: Result<(), string>)
    | Begin(index: nat, id: nat)
    | ExtendChild(id: nat, entries: seq<DirectoryEntry>)
    | FinishChild(id: nat, result: Result<(), string>)
    | Collapse(index: nat)
    | Select(selection: Option<nat>)

  /** What a caller has to see to; nothing is asked of a group or an end that arrives. */
  ghost predicate Legal(st: TreeState, op: Op) {
    match op
    case Begin(index, id) =>
      && index < |st.rows|
      && CanBegin(st.rows, index)
      && Fresh(st.rows, id)
    case Collapse(index) => index < |st.rows|
    case _ => true
  }

  ghost function Next(st: TreeState, op: Op): TreeState
    requires Placed(st.rows, st.placements) && Legal(st, op)
  {
    PlacedInRange(st);
    match op
    case Restart => Restarted(st)
    case ExtendRoot(entries) => RootExtended(st, entries)
    case FinishRoot(result) => RootFinished(st, result)
    case Begin(index, id) => ExpansionBegun(st, index, id)
    case ExtendChild(id, entries) => ChildExtended(st, id, entries)
    case FinishChild(id, result) => ChildFinished(st, id, result)
    case Collapse(index) => CollapsedAt(st, index)
    case Select(selection) => st.(selected := selection)
  }

  /** The same step on the ordered tree, which knows no indices but the user's. */
  function TreeNext(f: Forest, op: Op): Forest {
    match op
    case Restart => Empty
    case ExtendRoot(entries) => Append(f, Leaves(entries))
    case FinishRoot(_) => f
    case Begin(index, id) => Open(f, index, id)
    case ExtendChild(id, entries) => Grow(f, id, entries)
    case FinishChild(id, result) => Settle(f, id, Outcome(id, result))
    case Collapse(index) => Close(f, index)
    case Select(_) => f
  }

  lemma NextRepresents(st: TreeState, f: Forest, op: Op)
    requires Represents(st, f) && Legal(st, op)
    ensures Represents(Next(st, op), TreeNext(f, op))
  {
    PlacedInRange(st);
    match op
    case Restart =>
    case ExtendRoot(entries) => RootExtendedRepresents(st, f, entries);
    case FinishRoot(_) =>
    case Begin(index, id) => ExpansionBegunRepresents(st, f, index, id);
    case ExtendChild(id, entries) => ChildExtendedRepresents(st, f, id, entries);
    case FinishChild(id, result) => ChildFinishedRepresents(st, f, id, result);
    case Collapse(index) => CollapsedAtRepresents(st, f, index);
    case Select(_) =>
  }

  /** Every step is legal where it is taken, starting from a state that stands for `f`. */
  ghost predicate LegalRun(st: TreeState, f: Forest, ops: seq<Op>)
    requires Represents(st, f)
    decreases |ops|
  {
    ops == [] ||
    (Legal(st, ops[0]) && (NextRepresents(st, f, ops[0]); LegalRun(Next(st, ops[0]), TreeNext(f, ops[0]), ops[1..])))
  }

  ghost function Run(st: TreeState, f: Forest, ops: seq<Op>): TreeState
    requires Represents(st, f) && LegalRun(st, f, ops)
    decreases |ops|
  {
    if ops == [] then st
    else
      NextRepresents(st, f, ops[0]);
      Run(Next(st, ops[0]), TreeNext(f, ops[0]), ops[1..])
  }

  function TreeRun(f: Forest, ops: seq<Op>): Forest
    decreases |ops|
  {
    if ops == [] then f else TreeRun(TreeNext(f, ops[0]), ops[1..])
  }

  /** However groups interleave, the rows are the pre-order of the ordered tree and the carried insertion points are the recomputed ones. */
  lemma {:induction false} RunRepresents(st: TreeState, f: Forest, ops: seq<Op>)
    requires Represents(st, f) && LegalRun(st, f, ops)
    ensures Represents(Run(st, f, ops), TreeRun(f, ops))
    decreases |ops|
  {
    if ops != [] {
      NextRepresents(st, f, ops[0]);
      RunRepresents(Next(st, ops[0]), TreeNext(f, ops[0]), ops[1..]);
    }
  }

  // ----- a directory opened again without being closed -----

  lemma {:induction false} RunThen(st: TreeState, f: Forest, ops: seq<Op>, op: Op)
    requires Represents(st, f) && LegalRun(st, f, ops) && Legal(Run(st, f, ops), op)
    requires Placed(Run(st, f, ops).rows, Run(st, f, ops).placements)
    ensures LegalRun(st, f, ops + [op]) && Run(st, f, ops + [op]) == Next(Run(st, f, ops), op)
    decreases |ops|
  {
    hide Legal, Next, Placed, Flatten;
    var all := ops + [op];
    if ops == [] {
      assert all == [op] && all[1..] == [];
      NextRepresents(st, f, op);
    } else {
      NextRepresents(st, f, ops[0]);
      RunThen(Next(st, ops[0]), TreeNext(f, ops[0]), ops[1..], op);
      assert all[1..] == ops[1..] + [op];
    }
  }

  function Untouched(rootPath: Bytes): TreeState {
    TreeState(rootPath, [], map[], None, RootLoading)
  }

  /** A directory whose listing failed after one child had come. */
  function HalfListed(directory: DirectoryEntry, child: DirectoryEntry, error: string): seq<Op> {
    [ExtendRoot([directory]), Begin(0, 1), ExtendChild(1, [child]), FinishChild(1, Err(error))]
  }

  /** A run from an empty root, and the rows and placements it leaves. */
  ghost predicate RunLeaves(rootPath: Bytes, ops: seq<Op>, rows: seq<Row>, placements: map<nat, Placement>) {
    var st := Untouched(rootPath);
    && Represents(st, Empty) && LegalRun(st, Empty, ops)
    && var end := Run(st, Empty, ops);
       end.rows == rows && end.placements == placements && end.rootPath == rootPath
  }

  /** An operation whatever is selected and whatever the status. */
  ghost predicate Leads(rootPath: Bytes, rows: seq<Row>, placements: map<nat, Placement>, op: Op,
                        after: seq<Row>, placed: map<nat, Placement>) {
    forall selected, status ::
      var st := TreeState(rootPath, rows, placements, selected, status);
      Placed(rows, placements) ==>
        Legal(st, op) && Next(st, op).rows == after && Next(st, op).placements == placed && Next(st, op).rootPath == rootPath
  }

  lemma RunLeads(rootPath: Bytes, ops: seq<Op>, rows: seq<Row>, placements: map<nat, Placement>, op: Op,
                 after: seq<Row>, placed: map<nat, Placement>)
    requires RunLeaves(rootPath, ops, rows, placements) && Leads(rootPath, rows, placements, op, after, placed)
    ensures RunLeaves(rootPath, ops + [op], after, placed)
  {
    var st := Untouched(rootPath);
    RunRepresents(st, Empty, ops);
    var end := Run(st, Empty, ops);
    hide Run, LegalRun, Legal, Next, Placed, Flatten;
    assert end == TreeState(rootPath, rows, placements, end.selected, end.status);
    assert Legal(end, op);
    RunThen(st, Empty, ops, op);
  }

  lemma HalfListedRuns(rootPath: Bytes, directory: DirectoryEntry, child: DirectoryEntry, error: string)
    ensures var path := Join(rootPath, directory.name);
            RunLeaves(rootPath, HalfListed(directory, child, error),
                      [Row(path, 0, directory, Failed(1, error)), Row(Join(path, child.name), 1, child, Collapsed)], map[])
  {
    var path := Join(rootPath, directory.name);
    var ops := HalfListed(directory, child, error);
    var row := Row(path, 0, directory, Collapsed);
    var held := Row(Join(path, child.name), 1, child, Collapsed);
    assert RunLeaves(rootPath, [], [], map[]);
    FirstLeads(rootPath, directory);
    BeginLeads(rootPath, row);
    ChildLeads(rootPath, row.(expansion := Loading(1)), child);
    FinishLeads(rootPath, row.(expansion := Loading(1)), held, error);
    hide RunLeaves, Leads, Join;
    RunLeads(rootPath, [], [], map[], ops[0], [row], map[]);
    assert [] + [ops[0]] == ops[..1] && ops[..1] + [ops[1]] == ops[..2] && ops[..2] + [ops[2]] == ops[..3] && ops[..3] + [ops[3]] == ops;
    RunLeads(rootPath, ops[..1], [row], map[], ops[1], [row.(expansion := Loading(1))], map[1 := Placement(0, 1, 1)]);
    RunLeads(rootPath, ops[..2], [row.(expansion := Loading(1))], map[1 := Placement(0, 1, 1)], ops[2],
             [row.(expansion := Loading(1)), held], map[1 := Placement(0, 1, 2)]);
    RunLeads(rootPath, ops[..3], [row.(expansion := Loading(1)), held], map[1 := Placement(0, 1, 2)], ops[3],
             [row.(expansion := Failed(1, error)), held], map[]);
  }

  lemma FirstLeads(rootPath: Bytes, directory: DirectoryEntry)
    ensures Leads(rootPath, [], map[], ExtendRoot([directory]), [Row(Join(rootPath, directory.name), 0, directory, Collapsed)], map[])
  {
    hide Join, Placed;
  }

  lemma BeginLeads(rootPath: Bytes, row: Row)
    requires row.depth == 0 && row.expansion == Collapsed
    ensures Leads(rootPath, [row], map[], Begin(0, 1), [row.(expansion := Loading(1))], map[1 := Placement(0, 1, 1)])
  {
    hide Placed;
    assert CanBegin([row], 0) && Fresh([row], 1);
  }

  lemma ChildLeads(rootPath: Bytes, row: Row, child: DirectoryEntry)
    ensures Leads(rootPath, [row], map[1 := Placement(0, 1, 1)], ExtendChild(1, [child]),
                  [row, Row(Join(row.path, child.name), 1, child, Collapsed)], map[1 := Placement(0, 1, 2)])
  {
    hide Join, Placed;
    var new_ := NewRows([child], row.path, 1);
    assert new_ == [Row(Join(row.path, child.name), 1, child, Collapsed)];
    assert Insert([row], 1, new_) == [row] + new_;
    assert ShiftedIn(map[1 := Placement(0, 1, 1)], 1, 1, 1) == map[1 := Placement(0, 1, 2)];
  }

  lemma FinishLeads(rootPath: Bytes, row: Row, held: Row, error: string)
    ensures Leads(rootPath, [row, held], map[1 := Placement(0, 1, 2)], FinishChild(1, Err(error)),
                  [row.(expansion := Failed(1, error)), held], map[])
  {
    hide Placed;
  }

  /**
    Why the row must be childless: a directory whose listing failed after some children had come, expanded again without
    being closed, gets its new groups ahead of the children already there.
  */
  lemma ReopenedWithChildren(rootPath: Bytes, directory: DirectoryEntry, child: DirectoryEntry, later: DirectoryEntry, error: string)
    ensures Represents(Untouched(rootPath), Empty)
    ensures LegalRun(Untouched(rootPath), Empty, HalfListed(directory, child, error))
    ensures var st := Run(Untouched(rootPath), Empty, HalfListed(directory, child, error));
            && 0 < |st.rows| && Fresh(st.rows, 2) && !CanBegin(st.rows, 0)
            && var begun := ExpansionBegun(st, 0, 2);
               && InRange(begun) && !Placed(begun.rows, begun.placements)
               && var rows := ChildExtended(begun, 2, [later]).rows;
                  |rows| == 3 && rows[0].entry == directory && rows[1].entry == later && rows[2].entry == child
  {
    HalfListedRuns(rootPath, directory, child, error);
    var ops := HalfListed(directory, child, error);
    RunRepresents(Untouched(rootPath), Empty, ops);
    var st := Run(Untouched(rootPath), Empty, ops);
    hide Run, LegalRun, Join, Placed, Flatten, HalfListed;
    BeginKeepsPlacedExactly(st, 0, 2);
    LandsAhead(ExpansionBegun(st, 0, 2), later);
  }

  lemma LandsAhead(begun: TreeState, later: DirectoryEntry)
    requires |begun.rows| == 2 && begun.placements == map[2 := Placement(0, 1, 1)]
    ensures InRange(begun)
    ensures var rows := ChildExtended(begun, 2, [later]).rows;
            |rows| == 3 && rows[0] == begun.rows[0] && rows[1].entry == later && rows[2] == begun.rows[1]
  {
    hide Join;
  }

  // ----- what arrives too late -----

  predicate Late(op: Op, id: nat) {
    match op
    case ExtendChild(i, _) => i == id
    case FinishChild(i, _) => i == id
    case _ => false
  }

  /** A run without what arrived for one request. */
  function Without(ops: seq<Op>, id: nat): seq<Op> {
    if ops == [] then [] else (if Late(ops[0], id) then [] else [ops[0]]) + Without(ops[1..], id)
  }

  lemma LateChangesNothing(st: TreeState, f: Forest, op: Op, id: nat)
    requires Represents(st, f) && id !in st.placements && Legal(st, op)
    ensures Late(op, id) ==> Next(st, op) == st && TreeNext(f, op) == f
    ensures (op.Begin? ==> op.id != id) ==> id !in Next(st, op).placements
  {
    PlacedOnly(st.rows, st.placements, id);
    if Late(op, id) {
      if op.ExtendChild? {
        GrowAbsent(f, st.rootPath, 0, id, op.entries);
      } else {
        SettleAbsent(f, st.rootPath, 0, id, Outcome(id, op.result));
      }
    }
  }

  /**
    Once a request is not in flight, and until something is begun under it, what arrives for it leaves no trace: the run
    ends where it would have ended without it.
  */
  lemma {:induction false} LateLeavesNoTrace(st: TreeState, f: Forest, ops: seq<Op>, id: nat)
    requires Represents(st, f) && LegalRun(st, f, ops) && id !in st.placements
    requires forall k :: 0 <= k < |ops| && ops[k].Begin? ==> ops[k].id != id
    ensures LegalRun(st, f, Without(ops, id)) && Run(st, f, Without(ops, id)) == Run(st, f, ops)
    decreases |ops|
  {
    if ops != [] {
      var op, rest := ops[0], ops[1..];
      NextRepresents(st, f, op);
      LateChangesNothing(st, f, op, id);
      LateLeavesNoTrace(Next(st, op), TreeNext(f, op), rest, id);
      if !Late(op, id) {
        var kept := Without(ops, id);
        assert kept[0] == op && kept[1..] == Without(rest, id);
      } else {
        assert Without(ops, id) == Without(rest, id);
      }
    }
  }

  // ----- the groups that arrived -----

  /** The root's entries, and each request's, in the order their groups arrived while they were wanted. */
  datatype Heard = Heard(root: seq<DirectoryEntry>, groups: map<nat, seq<DirectoryEntry>>)

  function Hear(h: Heard, st: TreeState, op: Op): Heard {
    match op
    case Restart => Heard([], map[])
    case ExtendRoot(entries) => h.(root := h.root + entries)
    case Begin(_, id) => h.(groups := h.groups[id := []])
    case ExtendChild(id, entries) =>
      if id in st.placements && id in h.groups then h.(groups := h.groups[id := h.groups[id] + entries]) else h
    case _ => h
  }

  ghost function HeardBy(h: Heard, st: TreeState, f: Forest, ops: seq<Op>): Heard
    requires Represents(st, f) && LegalRun(st, f, ops)
    decreases |ops|
  {
    if ops == [] then h
    else
      NextRepresents(st, f, ops[0]);
      HeardBy(Hear(h, st, ops[0]), Next(st, ops[0]), TreeNext(f, ops[0]), ops[1..])
  }

  function Entries(f: Forest): seq<DirectoryEntry> {
    match f
    case Empty => []
    case Dir(entry, _, _, rest) => [entry] + Entries(rest)
  }

  /** Every opened directory holds what its request heard, and every other holds nothing. */
  predicate Inside(f: Forest, groups: map<nat, seq<DirectoryEntry>>) {
    match f
    case Empty => true
    case Dir(_, x, children, rest) =>
      && (if x == Collapsed then children == Empty
          else x.requestId in groups && Entries(children) == groups[x.requestId])
      && Inside(children, groups)
      && Inside(rest, groups)
  }

  predicate Holds(f: Forest, h: Heard) {
    Entries(f) == h.root && Inside(f, h.groups)
  }

  /** The requests the directories of `f` carry, and those of directories no longer loading. */
  function Carried(f: Forest): set<nat> {
    match f
    case Empty => {}
    case Dir(_, x, children, rest) => (if x == Collapsed then {} else {x.requestId}) + Carried(children) + Carried(rest)
  }

  function Ended(f: Forest): set<nat> {
    match f
    case Empty => {}
    case Dir(_, x, children, rest) => (if x == Collapsed || x.Loading? then {} else {x.requestId}) + Ended(children) + Ended(rest)
  }

  lemma {:induction false} CarriedInRows(f: Forest, base: Bytes, depth: nat, id: nat)
    ensures id in Carried(f) ==> !Fresh(Flatten(f, base, depth), id)
    ensures id in Ended(f) ==> exists i :: 0 <= i < |Flatten(f, base, depth)| && EndedRow(Flatten(f, base, depth)[i], id)
  {
    if f.Dir? {
      var path := Join(base, f.entry.name);
      CarriedInRows(f.children, path, depth + 1, id);
      CarriedInRows(f.rest, base, depth, id);
      var c, s := Flatten(f.children, path, depth + 1), Flatten(f.rest, base, depth);
      hide Join, Flatten;
      CarriedInParts(Row(path, depth, f.entry, f.expansion), c, s, id);
      FlattenRows(f, base, depth);
    }
  }

  predicate EndedRow(row: Row, id: nat) {
    row.expansion.RequestId() == Some(id) && !row.expansion.Loading?
  }

  lemma FlattenRows(f: Forest, base: Bytes, depth: nat)
    requires f.Dir?
    ensures Flatten(f, base, depth) == [Row(Join(base, f.entry.name), depth, f.entry, f.expansion)]
                                     + Flatten(f.children, Join(base, f.entry.name), depth + 1) + Flatten(f.rest, base, depth)
  {
  }

  lemma CarriedInParts(row: Row, c: seq<Row>, s: seq<Row>, id: nat)
    ensures var rows := [row] + c + s;
            && (row.expansion.RequestId() == Some(id) || !Fresh(c, id) || !Fresh(s, id) ==> !Fresh(rows, id))
            && (EndedRow(row, id)
                || (exists i :: 0 <= i < |c| && EndedRow(c[i], id))
                || (exists i :: 0 <= i < |s| && EndedRow(s[i], id)) ==>
                  exists i :: 0 <= i < |rows| && EndedRow(rows[i], id))
  {
    var rows := [row] + c + s;
    assert rows[0] == row;
    assert forall i :: 0 <= i < |c| ==> rows[1 + i] == c[i];
    assert forall i :: 0 <= i < |s| ==> rows[1 + |c| + i] == s[i];
  }

  /** A request in flight is carried by no directory that stopped loading. */
  lemma InFlightNotEnded(st: TreeState, f: Forest, id: nat)
    requires Represents(st, f) && id in st.placements
    ensures id !in Ended(f)
  {
    CarriedInRows(f, st.rootPath, 0, id);
    assert Right(st.rows, id, st.placements[id]);
    forall i | 0 <= i < |st.rows|
      ensures !EndedRow(st.rows[i], id)
    {
      assert Carries(st.rows[i], st.placements) ==> st.placements[st.rows[i].expansion.RequestId().value].parent == i;
    }
  }

  lemma {:induction false} EntriesAppend(f: Forest, g: Forest)
    ensures Entries(Append(f, g)) == Entries(f) + Entries(g)
  {
    if f.Dir? {
      EntriesAppend(f.rest, g);
    }
  }

  lemma {:induction false} EntriesLeaves(entries: seq<DirectoryEntry>)
    ensures Entries(Leaves(entries)) == entries
  {
    if entries != [] {
      EntriesLeaves(entries[1..]);
    }
  }

  lemma {:induction false} LeavesInside(entries: seq<DirectoryEntry>, groups: map<nat, seq<DirectoryEntry>>)
    ensures Inside(Leaves(entries), groups)
  {
    if entries != [] {
      LeavesInside(entries[1..], groups);
    }
  }

  lemma {:induction false} AppendInside(f: Forest, g: Forest, groups: map<nat, seq<DirectoryEntry>>)
    requires Inside(f, groups) && Inside(g, groups)
    ensures Inside(Append(f, g), groups)
  {
    if f.Dir? {
      AppendInside(f.rest, g, groups);
    }
  }

  /** What is heard for a request no directory carries changes nothing. */
  lemma {:induction false} UnheardInside(f: Forest, groups: map<nat, seq<DirectoryEntry>>, id: nat, entries: seq<DirectoryEntry>)
    requires Inside(f, groups) && id !in Carried(f)
    ensures Inside(f, groups[id := entries])
  {
    if f.Dir? {
      UnheardInside(f.children, groups, id, entries);
      UnheardInside(f.rest, groups, id, entries);
    }
  }

  lemma {:induction false} GrowKeepsTop(f: Forest, id: nat, entries: seq<DirectoryEntry>)
    ensures Entries(Grow(f, id, entries)) == Entries(f)
  {
    if f.Dir? {
      GrowKeepsTop(f.rest, id, entries);
    }
  }

  lemma {:induction false} GrowInside(f: Forest, groups: map<nat, seq<DirectoryEntry>>, id: nat, entries: seq<DirectoryEntry>)
    requires Inside(f, groups) && id in groups && id !in Ended(f)
    ensures Inside(Grow(f, id, entries), groups[id := groups[id] + entries])
  {
    if f.Dir? {
      GrowInside(f.children, groups, id, entries);
      GrowInside(f.rest, groups, id, entries);
      GrowKeepsTop(f.children, id, entries);
      var grown := Grow(f.children, id, entries);
      EntriesAppend(grown, Leaves(entries));
      EntriesLeaves(entries);
      LeavesInside(entries, groups[id := groups[id] + entries]);
      AppendInside(grown, Leaves(entries), groups[id := groups[id] + entries]);
    }
  }

  /** A request nobody is loading under grows nothing. */
  lemma {:induction false} SettleInside(f: Forest, groups: map<nat, seq<DirectoryEntry>>, id: nat, result: Result<(), string>)
    requires Inside(f, groups)
    ensures Inside(Settle(f, id, Outcome(id, result)), groups)
    ensures Entries(Settle(f, id, Outcome(id, result))) == Entries(f)
  {
    if f.Dir? {
      SettleInside(f.children, groups, id, result);
      SettleInside(f.rest, groups, id, result);
    }
  }

  lemma {:induction false} CloseInside(f: Forest, groups: map<nat, seq<DirectoryEntry>>, i: nat)
    requires Inside(f, groups)
    ensures Inside(Close(f, i), groups)
    ensures Entries(Close(f, i)) == Entries(f)
  {
    if f.Dir? && i > 0 {
      if i <= Size(f.children) {
        CloseInside(f.children, groups, i - 1);
      } else {
        CloseInside(f.rest, groups, i - 1 - Size(f.children));
      }
    }
  }

  /** A directory with no row beneath it has no children to lose by being opened. */
  lemma {:induction false} OpenInside(f: Forest, base: Bytes, depth: nat, i: nat, groups: map<nat, seq<DirectoryEntry>>, id: nat)
    requires i < |Flatten(f, base, depth)| && Childless(Flatten(f, base, depth), i)
    requires Inside(f, groups) && id !in Carried(f)
    ensures Inside(Open(f, i, id), groups[id := []])
  {
    hide Flatten, Childless, Join;
    ChildlessParts(f, base, depth, i);
    UnheardInside(f.children, groups, id, []);
    UnheardInside(f.rest, groups, id, []);
    if i == 0 {
    } else if i <= Size(f.children) {
      OpenKeepsTop(f.children, i - 1, id);
      OpenInside(f.children, Join(base, f.entry.name), depth + 1, i - 1, groups, id);
    } else {
      OpenInside(f.rest, base, depth, i - 1 - Size(f.children), groups, id);
    }
  }

  lemma {:induction false} OpenKeepsTop(f: Forest, i: nat, id: nat)
    ensures Entries(Open(f, i, id)) == Entries(f)
  {
    if f.Dir? && i > Size(f.children) {
      OpenKeepsTop(f.rest, i - 1 - Size(f.children), id);
    }
  }

  lemma ChildlessParts(f: Forest, base: Bytes, depth: nat, i: nat)
    requires i < |Flatten(f, base, depth)| && Childless(Flatten(f, base, depth), i)
    ensures f.Dir?
    ensures var n := Size(f.children);
            var c := Flatten(f.children, Join(base, f.entry.name), depth + 1);
            var s := Flatten(f.rest, base, depth);
            && (i == 0 ==> f.children == Empty)
            && (1 <= i <= n ==> i - 1 < |c| && Childless(c, i - 1))
            && (i > n ==> i - 1 - n < |s| && Childless(s, i - 1 - n))
  {
    var path := Join(base, f.entry.name);
    var c, s := Flatten(f.children, path, depth + 1), Flatten(f.rest, base, depth);
    FlattenSize(f.children, path, depth + 1);
    FlattenDepths(f.children, path, depth + 1);
    RowAt(Row(path, depth, f.entry, f.expansion), c, s, i);
    if i + 1 < 1 + |c| + |s| {
      RowAt(Row(path, depth, f.entry, f.expansion), c, s, i + 1);
    }
  }

  lemma NextHolds(st: TreeState, f: Forest, h: Heard, op: Op)
    requires Represents(st, f) && Legal(st, op) && Holds(f, h)
    requires forall id :: id in st.placements ==> id in h.groups
    ensures Holds(TreeNext(f, op), Hear(h, st, op))
  {
    match op
    case ExtendRoot(entries) =>
      EntriesAppend(f, Leaves(entries));
      EntriesLeaves(entries);
      LeavesInside(entries, h.groups);
      AppendInside(f, Leaves(entries), h.groups);
    case Begin(index, id) =>
      CarriedInRows(f, st.rootPath, 0, id);
      OpenInside(f, st.rootPath, 0, index, h.groups, id);
      OpenKeepsTop(f, index, id);
    case ExtendChild(id, entries) =>
      if id in st.placements {
        InFlightNotEnded(st, f, id);
        GrowInside(f, h.groups, id, entries);
        GrowKeepsTop(f, id, entries);
      } else {
        PlacedOnly(st.rows, st.placements, id);
        GrowAbsent(f, st.rootPath, 0, id, entries);
      }
    case FinishChild(id, result) => SettleInside(f, h.groups, id, result);
    case Collapse(index) => CloseInside(f, h.groups, index);
    case _ =>
  }

  /** Every request in flight has been heard of. */
  lemma NextKnown(st: TreeState, f: Forest, h: Heard, op: Op)
    requires Represents(st, f) && Legal(st, op)
    requires forall id :: id in st.placements ==> id in h.groups
    ensures forall id :: id in Next(st, op).placements ==> id in Hear(h, st, op).groups
  {
  }

  /**
    The groups of a run, told apart by request and nothing else: each opened directory holds exactly its own, in the
    order they came, and what came for a request no longer in flight is nowhere.
  */
  lemma {:induction false} RunHolds(st: TreeState, f: Forest, h: Heard, ops: seq<Op>)
    requires Represents(st, f) && LegalRun(st, f, ops) && Holds(f, h)
    requires forall id :: id in st.placements ==> id in h.groups
    ensures Holds(TreeRun(f, ops), HeardBy(h, st, f, ops))
    decreases |ops|
  {
    if ops != [] {
      NextRepresents(st, f, ops[0]);
      NextHolds(st, f, h, ops[0]);
      NextKnown(st, f, h, ops[0]);
      RunHolds(Next(st, ops[0]), TreeNext(f, ops[0]), Hear(h, st, ops[0]), ops[1..]);
    }
  }
}
