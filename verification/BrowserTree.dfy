/** The rows of a browsed root, and where a subtree ends among them. */
module BrowserRows {
  import opened Wrappers
  import opened Utf8
  import opened PathString

  /** Depths are 16 bits wide, and stop there. */
  const MAX_DEPTH: nat := 0xFFFF

  datatype DirectoryEntry = DirectoryEntry(name: Bytes, navigable: bool)

  datatype Expansion =
    | Collapsed
    | Loading(requestId: nat)
    | Expanded(requestId: nat)
    | Failed(requestId: nat, error: string)
  {
    function RequestId(): Option<nat> {
      if Collapsed? then None else Some(requestId)
    }
  }

  datatype Row = Row(path: Bytes, depth: nat, entry: DirectoryEntry, expansion: Expansion)

  /** Where the next group of a loading row's children lands. */
  datatype Placement = Placement(parent: nat, depth: nat, insertion: nat)

  function ChildDepth(depth: nat): nat {
    if depth < MAX_DEPTH then depth + 1 else MAX_DEPTH
  }

  /** The subtree of row `i` is the rows from it up to `e`. */
  ghost predicate EndsAt(rows: seq<Row>, i: nat, e: nat) {
    && i < e <= |rows|
    && (forall j :: i < j < e ==> rows[j].depth > rows[i].depth)
    && (e < |rows| ==> rows[e].depth <= rows[i].depth)
  }

  /** A row with nothing beneath it. */
  predicate Childless(rows: seq<Row>, i: nat)
    requires i < |rows|
  {
    i + 1 == |rows| || rows[i + 1].depth <= rows[i].depth
  }

  function NewRows(entries: seq<DirectoryEntry>, parent: Bytes, depth: nat): (rows: seq<Row>)
    ensures |rows| == |entries|
    ensures forall k :: 0 <= k < |rows| ==> rows[k].depth == depth && rows[k].expansion == Collapsed
  {
    if entries == [] then []
    else [Row(Join(parent, entries[0].name), depth, entries[0], Collapsed)] + NewRows(entries[1..], parent, depth)
  }

  function Insert(rows: seq<Row>, at: nat, new_: seq<Row>): (r: seq<Row>)
    requires at <= |rows|
    ensures |r| == |rows| + |new_|
  {
    rows[..at] + new_ + rows[at..]
  }

  function Remove(rows: seq<Row>, start: nat, end: nat): (r: seq<Row>)
    requires start <= end <= |rows|
    ensures |r| == |rows| - (end - start)
  {
    rows[..start] + rows[end..]
  }

  /** Rows at depth `depth` belong at `at`: whatever subtree goes on past there is shallower than they are. */
  ghost predicate Belongs(rows: seq<Row>, at: nat, depth: nat)
    requires at <= |rows|
  {
    forall i: nat, e: nat :: i < at < e && EndsAt(rows, i, e) ==> rows[i].depth < depth
  }

  /** How one placement moves when `count` rows at depth `depth` land at `at`. */
  function ShiftIn(p: Placement, at: nat, count: nat, depth: nat): Placement {
    if at <= p.parent then p.(parent := p.parent + count, insertion := p.insertion + count)
    else if at < p.insertion || (at == p.insertion && depth >= p.depth) then p.(insertion := p.insertion + count)
    else p
  }

  /** How one placement moves when the rows in `start..end` go. */
  function ShiftOut(p: Placement, start: nat, end: nat): Placement
    requires start <= end && p.parent <= p.insertion
  {
    if p.parent >= end then p.(parent := p.parent - (end - start), insertion := p.insertion - (end - start))
    else if p.insertion >= end then p.(insertion := p.insertion - (end - start))
    else if p.insertion > start then p.(insertion := start)
    else p
  }

  lemma InsertIndex(rows: seq<Row>, at: nat, new_: seq<Row>)
    requires at <= |rows|
    ensures forall j :: 0 <= j < at ==> Insert(rows, at, new_)[j] == rows[j]
    ensures forall j :: at <= j < at + |new_| ==> Insert(rows, at, new_)[j] == new_[j - at]
    ensures forall j :: at + |new_| <= j < |rows| + |new_| ==> Insert(rows, at, new_)[j] == rows[j - |new_|]
  {
  }

  /** A shifted placement still ends its row's subtree. */
  lemma EndAfterInsertion(rows: seq<Row>, p: Placement, at: nat, new_: seq<Row>, depth: nat)
    requires at <= |rows| && Belongs(rows, at, depth)
    requires forall k :: 0 <= k < |new_| ==> new_[k].depth == depth
    requires EndsAt(rows, p.parent, p.insertion) && p.depth == rows[p.parent].depth + 1
    ensures var q := ShiftIn(p, at, |new_|, depth);
            EndsAt(Insert(rows, at, new_), q.parent, q.insertion) && Insert(rows, at, new_)[q.parent] == rows[p.parent]
  {
    InsertIndex(rows, at, new_);
    var q := ShiftIn(p, at, |new_|, depth);
    var r := Insert(rows, at, new_);
    hide Insert;
    assert r[q.parent] == rows[p.parent];
    forall j | q.parent < j < q.insertion
      ensures r[j].depth > r[q.parent].depth
    {
      if j < at {
        assert r[j] == rows[j];
      } else if j < at + |new_| {
        assert r[j] == new_[j - at];
      } else {
        assert r[j] == rows[j - |new_|];
      }
    }
    if q.insertion < |r| {
      if q.insertion < at {
      } else if q.insertion < at + |new_| {
        assert r[q.insertion] == new_[q.insertion - at];
      } else {
        assert r[q.insertion] == rows[q.insertion - |new_|];
      }
    }
  }

  lemma RemoveIndex(rows: seq<Row>, start: nat, end: nat)
    requires start <= end <= |rows|
    ensures forall j :: 0 <= j < start ==> Remove(rows, start, end)[j] == rows[j]
    ensures forall j :: start <= j < |rows| - (end - start) ==> Remove(rows, start, end)[j] == rows[j + (end - start)]
  {
  }

  /** An end outside a removed subtree is at or before its start, or at or after its end. */
  lemma EndsNest(rows: seq<Row>, index: nat, end: nat, i: nat, e: nat)
    requires EndsAt(rows, index, end) && EndsAt(rows, i, e)
    requires i < index || i >= end
    ensures i >= end || e >= end || e <= index
  {
  }

  lemma EndAfterRemoval(rows: seq<Row>, p: Placement, index: nat, end: nat)
    requires EndsAt(rows, index, end) && EndsAt(rows, p.parent, p.insertion)
    requires p.parent < index || p.parent >= end
    ensures var q := ShiftOut(p, index + 1, end);
            && EndsAt(Remove(rows, index + 1, end), q.parent, q.insertion)
            && Remove(rows, index + 1, end)[q.parent] == rows[p.parent]
  {
    var q := ShiftOut(p, index + 1, end);
    var r := Remove(rows, index + 1, end);
    RemoveIndex(rows, index + 1, end);
    EndsNest(rows, index, end, p.parent, p.insertion);
    hide Remove;
    assert r[q.parent] == rows[p.parent];
    forall j | q.parent < j < q.insertion
      ensures r[j].depth > r[q.parent].depth
    {
      if j < index + 1 {
        assert r[j] == rows[j];
      } else {
        assert r[j] == rows[j + (end - index - 1)];
      }
    }
  }
}

/**
  The ordered tree the rows stand for, kept as first child and next sibling, and
  what each operation does to it.
*/
module BrowserForest {
  import opened Utf8
  import opened PathString
  import opened BrowserRows

  datatype Forest =
    | Empty
    | Dir(entry: DirectoryEntry, expansion: Expansion, children: Forest, rest: Forest)

  /** The rows of `f` in pre-order. */
  function Flatten(f: Forest, base: Bytes, depth: nat): seq<Row> {
    match f
    case Empty => []
    case Dir(entry, expansion, children, rest) =>
      var path := Join(base, entry.name);
      [Row(path, depth, entry, expansion)] + Flatten(children, path, depth + 1) + Flatten(rest, base, depth)
  }

  function Size(f: Forest): nat {
    match f
    case Empty => 0
    case Dir(_, _, children, rest) => 1 + Size(children) + Size(rest)
  }

  function Leaves(entries: seq<DirectoryEntry>): Forest {
    if entries == [] then Empty else Dir(entries[0], Collapsed, Empty, Leaves(entries[1..]))
  }

  function Append(f: Forest, g: Forest): Forest {
    match f
    case Empty => g
    case Dir(entry, expansion, children, rest) => Dir(entry, expansion, children, Append(rest, g))
  }

  /** The directory loading under `id` takes one more group, at the end of its children. */
  function Grow(f: Forest, id: nat, entries: seq<DirectoryEntry>): Forest {
    match f
    case Empty => Empty
    case Dir(entry, expansion, children, rest) =>
      var grown := Grow(children, id, entries);
      Dir(entry, expansion, if expansion == Loading(id) then Append(grown, Leaves(entries)) else grown, Grow(rest, id, entries))
  }

  /** The directory loading under `id` stops loading. */
  function Settle(f: Forest, id: nat, outcome: Expansion): Forest {
    match f
    case Empty => Empty
    case Dir(entry, expansion, children, rest) =>
      Dir(entry, if expansion == Loading(id) then outcome else expansion, Settle(children, id, outcome), Settle(rest, id, outcome))
  }

  /** The `i`th directory in pre-order starts loading. */
  function Open(f: Forest, i: nat, id: nat): Forest {
    match f
    case Empty => Empty
    case Dir(entry, expansion, children, rest) =>
      if i == 0 then Dir(entry, Loading(id), children, rest)
      else if i <= Size(children) then Dir(entry, expansion, Open(children, i - 1, id), rest)
      else Dir(entry, expansion, children, Open(rest, i - 1 - Size(children), id))
  }

  /** The `i`th directory in pre-order loses its children. */
  function Close(f: Forest, i: nat): Forest {
    match f
    case Empty => Empty
    case Dir(entry, expansion, children, rest) =>
      if i == 0 then Dir(entry, Collapsed, Empty, rest)
      else if i <= Size(children) then Dir(entry, expansion, Close(children, i - 1), rest)
      else Dir(entry, expansion, children, Close(rest, i - 1 - Size(children)))
  }

  lemma {:induction false} FlattenSize(f: Forest, base: Bytes, depth: nat)
    ensures |Flatten(f, base, depth)| == Size(f)
  {
    match f
    case Empty =>
    case Dir(entry, _, children, rest) =>
      FlattenSize(children, Join(base, entry.name), depth + 1);
      FlattenSize(rest, base, depth);
  }

  /** The pieces of a flattened tree. */
  lemma FlattenParts(f: Forest, base: Bytes, depth: nat)
    requires f.Dir?
    ensures var rows := Flatten(f, base, depth);
            var n := Size(f.children);
            var path := Join(base, f.entry.name);
            && |rows| == 1 + n + Size(f.rest)
            && rows[0] == Row(path, depth, f.entry, f.expansion)
            && rows[1..1 + n] == Flatten(f.children, path, depth + 1)
            && rows[1 + n..] == Flatten(f.rest, base, depth)
  {
    FlattenSize(f.children, Join(base, f.entry.name), depth + 1);
    FlattenSize(f.rest, base, depth);
  }

  lemma {:induction false} FlattenDepths(f: Forest, base: Bytes, depth: nat)
    ensures forall j :: 0 <= j < |Flatten(f, base, depth)| ==> Flatten(f, base, depth)[j].depth >= depth
    ensures f.Dir? ==> Flatten(f, base, depth)[0].depth == depth
  {
    match f
    case Empty =>
    case Dir(entry, _, children, rest) =>
      FlattenDepths(children, Join(base, entry.name), depth + 1);
      FlattenDepths(rest, base, depth);
  }

  lemma {:induction false} FlattenAppend(f: Forest, g: Forest, base: Bytes, depth: nat)
    ensures Flatten(Append(f, g), base, depth) == Flatten(f, base, depth) + Flatten(g, base, depth)
  {
    match f
    case Empty =>
    case Dir(_, _, _, rest) =>
      FlattenAppend(rest, g, base, depth);
  }

  lemma {:induction false} FlattenLeaves(entries: seq<DirectoryEntry>, base: Bytes, depth: nat)
    ensures Flatten(Leaves(entries), base, depth) == NewRows(entries, base, depth)
  {
    if entries != [] {
      FlattenLeaves(entries[1..], base, depth);
    }
  }

  ghost predicate Absent(rows: seq<Row>, id: nat) {
    forall j :: 0 <= j < |rows| ==> rows[j].expansion != Loading(id)
  }

  lemma {:induction false} GrowAbsent(f: Forest, base: Bytes, depth: nat, id: nat, entries: seq<DirectoryEntry>)
    requires Absent(Flatten(f, base, depth), id)
    ensures Grow(f, id, entries) == f
  {
    match f
    case Empty =>
    case Dir(entry, expansion, children, rest) =>
      AbsentParts(f, base, depth, id);
      GrowAbsent(children, Join(base, entry.name), depth + 1, id, entries);
      GrowAbsent(rest, base, depth, id, entries);
  }

  lemma {:induction false} SettleAbsent(f: Forest, base: Bytes, depth: nat, id: nat, outcome: Expansion)
    requires Absent(Flatten(f, base, depth), id)
    ensures Settle(f, id, outcome) == f
  {
    match f
    case Empty =>
    case Dir(entry, expansion, children, rest) =>
      AbsentParts(f, base, depth, id);
      SettleAbsent(children, Join(base, entry.name), depth + 1, id, outcome);
      SettleAbsent(rest, base, depth, id, outcome);
  }

  lemma AbsentParts(f: Forest, base: Bytes, depth: nat, id: nat)
    requires f.Dir? && Absent(Flatten(f, base, depth), id)
    ensures f.expansion != Loading(id)
    ensures Absent(Flatten(f.children, Join(base, f.entry.name), depth + 1), id)
    ensures Absent(Flatten(f.rest, base, depth), id)
  {
    hide Flatten;
    var rows, n := Flatten(f, base, depth), Size(f.children);
    FlattenParts(f, base, depth);
    var c, s := rows[1..1 + n], rows[1 + n..];
    assert forall j :: 0 <= j < |c| ==> c[j] == rows[j + 1];
    assert forall j :: 0 <= j < |s| ==> s[j] == rows[1 + n + j];
    assert rows[0].expansion == f.expansion;
  }

  /** Row `p` is the only one loading under `id`. */
  ghost predicate OnlyAt(rows: seq<Row>, p: nat, id: nat) {
    && p < |rows|
    && rows[p].expansion == Loading(id)
    && (forall j :: 0 <= j < |rows| && j != p ==> rows[j].expansion != Loading(id))
  }

  /** In which part of the tree the only such row is. */
  lemma OnlyAtParts(f: Forest, base: Bytes, depth: nat, p: nat, id: nat)
    requires f.Dir? && OnlyAt(Flatten(f, base, depth), p, id)
    ensures var n := Size(f.children);
            var c := Flatten(f.children, Join(base, f.entry.name), depth + 1);
            var s := Flatten(f.rest, base, depth);
            && (p == 0 ==> f.expansion == Loading(id) && Absent(c, id) && Absent(s, id))
            && (1 <= p <= n ==> f.expansion != Loading(id) && OnlyAt(c, p - 1, id) && Absent(s, id))
            && (p > n ==> f.expansion != Loading(id) && Absent(c, id) && OnlyAt(s, p - 1 - n, id))
  {
    hide Flatten, OnlyAt, Absent, Join, Size;
    FlattenParts(f, base, depth);
    FlattenFirst(f, base, depth);
    OnlyAtSplit(Flatten(f, base, depth), Size(f.children), p, id);
  }

  lemma FlattenFirst(f: Forest, base: Bytes, depth: nat)
    requires f.Dir?
    ensures var rows := Flatten(f, base, depth); rows != [] && rows[0].expansion == f.expansion
  {
  }

  lemma OnlyAtSplit(rows: seq<Row>, n: nat, p: nat, id: nat)
    requires OnlyAt(rows, p, id) && 1 + n <= |rows|
    ensures p == 0 ==> rows[0].expansion == Loading(id) && Absent(rows[1..1 + n], id) && Absent(rows[1 + n..], id)
    ensures 1 <= p <= n ==> rows[0].expansion != Loading(id) && OnlyAt(rows[1..1 + n], p - 1, id) && Absent(rows[1 + n..], id)
    ensures p > n ==> rows[0].expansion != Loading(id) && Absent(rows[1..1 + n], id) && OnlyAt(rows[1 + n..], p - 1 - n, id)
  {
    var c, s := rows[1..1 + n], rows[1 + n..];
    assert forall j :: 0 <= j < |c| ==> c[j] == rows[j + 1];
    assert forall j :: 0 <= j < |s| ==> s[j] == rows[1 + n + j];
  }

  /** Where a subtree ends, in the part of the rows that holds it. */
  lemma EndsAtSplit(row: Row, c: seq<Row>, s: seq<Row>, p: nat, e: nat)
    requires EndsAt([row] + c + s, p, e)
    requires forall j :: 0 <= j < |c| ==> c[j].depth > row.depth
    requires forall j :: 0 <= j < |s| ==> s[j].depth >= row.depth
    requires s != [] ==> s[0].depth == row.depth
    ensures p == 0 ==> e == 1 + |c|
    ensures 1 <= p <= |c| ==> e <= 1 + |c| && EndsAt(c, p - 1, e - 1)
    ensures p > |c| ==> EndsAt(s, p - 1 - |c|, e - 1 - |c|)
  {
    var rows := [row] + c + s;
    assert forall j :: 0 <= j < |c| ==> rows[j + 1] == c[j];
    assert forall j :: 0 <= j < |s| ==> rows[1 + |c| + j] == s[j];
    assert |rows| == 1 + |c| + |s| && rows[0] == row;
    EndsAtIn(rows, row, c, s, p, e);
  }

  lemma EndsAtIn(rows: seq<Row>, row: Row, c: seq<Row>, s: seq<Row>, p: nat, e: nat)
    requires |rows| == 1 + |c| + |s| && rows[0] == row && EndsAt(rows, p, e)
    requires forall j :: 0 <= j < |c| ==> rows[j + 1] == c[j]
    requires forall j :: 0 <= j < |s| ==> rows[1 + |c| + j] == s[j]
    requires forall j :: 0 <= j < |c| ==> c[j].depth > row.depth
    requires forall j :: 0 <= j < |s| ==> s[j].depth >= row.depth
    requires s != [] ==> s[0].depth == row.depth
    ensures p == 0 ==> e == 1 + |c|
    ensures 1 <= p <= |c| ==> e <= 1 + |c| && EndsAt(c, p - 1, e - 1)
    ensures p > |c| ==> EndsAt(s, p - 1 - |c|, e - 1 - |c|)
  {
    assert s != [] ==> rows[1 + |c|] == s[0];
    if p == 0 {
      assert forall j :: 1 <= j < 1 + |c| ==> rows[j] == c[j - 1];
    } else if p <= |c| {
      assert rows[p] == c[p - 1];
    } else {
      assert rows[p] == s[p - 1 - |c|];
    }
  }

  lemma EndsAtParts(f: Forest, base: Bytes, depth: nat, p: nat, e: nat)
    requires f.Dir? && EndsAt(Flatten(f, base, depth), p, e)
    ensures var n := Size(f.children);
            var c := Flatten(f.children, Join(base, f.entry.name), depth + 1);
            var s := Flatten(f.rest, base, depth);
            && (p == 0 ==> e == 1 + n)
            && (1 <= p <= n ==> e <= 1 + n && EndsAt(c, p - 1, e - 1))
            && (p > n ==> EndsAt(s, p - 1 - n, e - 1 - n))
  {
    hide EndsAt, Join;
    var path := Join(base, f.entry.name);
    FlattenSize(f.children, path, depth + 1);
    FlattenDepths(f.children, path, depth + 1);
    FlattenDepths(f.rest, base, depth);
    var c, s := Flatten(f.children, path, depth + 1), Flatten(f.rest, base, depth);
    assert s != [] ==> f.rest.Dir?;
    EndsAtSplit(Row(path, depth, f.entry, f.expansion), c, s, p, e);
  }

  lemma RowAt(row: Row, c: seq<Row>, s: seq<Row>, p: nat)
    requires p < 1 + |c| + |s|
    ensures ([row] + c + s)[p] == if p == 0 then row else if p <= |c| then c[p - 1] else s[p - 1 - |c|]
  {
  }

  lemma InsertFirst(rows: seq<Row>, row: Row, c: seq<Row>, s: seq<Row>, at: nat, new_: seq<Row>)
    requires rows == [row] + c + s && 1 <= at <= 1 + |c|
    ensures Insert(rows, at, new_) == [row] + Insert(c, at - 1, new_) + s
  {
  }

  lemma InsertLast(c: seq<Row>, new_: seq<Row>)
    ensures Insert(c, |c|, new_) == c + new_
  {
  }

  lemma InsertSecond(rows: seq<Row>, row: Row, c: seq<Row>, s: seq<Row>, at: nat, new_: seq<Row>)
    requires rows == [row] + c + s && 1 + |c| <= at <= |rows|
    ensures Insert(rows, at, new_) == [row] + c + Insert(s, at - 1 - |c|, new_)
  {
  }

  lemma GrowHere(f: Forest, base: Bytes, depth: nat, id: nat, entries: seq<DirectoryEntry>)
    requires f.Dir? && f.expansion == Loading(id)
    requires Grow(f.children, id, entries) == f.children && Grow(f.rest, id, entries) == f.rest
    ensures var rows := Flatten(f, base, depth);
            && 1 + Size(f.children) <= |rows|
            && Flatten(Grow(f, id, entries), base, depth) ==
               Insert(rows, 1 + Size(f.children), NewRows(entries, rows[0].path, rows[0].depth + 1))
  {
    hide Insert, NewRows, Size, Join, Leaves, Append;
    var path := Join(base, f.entry.name);
    var row, c, s := Row(path, depth, f.entry, f.expansion), Flatten(f.children, path, depth + 1), Flatten(f.rest, base, depth);
    FlattenSize(f.children, path, depth + 1);
    FlattenAppend(f.children, Leaves(entries), path, depth + 1);
    FlattenLeaves(entries, path, depth + 1);
    var new_ := NewRows(entries, path, depth + 1);
    assert Flatten(f, base, depth) == [row] + c + s;
    assert Flatten(Grow(f, id, entries), base, depth) == [row] + (c + new_) + s;
    assert row.path == path && row.depth == depth && |c| == Size(f.children);
    hide *;
    InsertFirst([row] + c + s, row, c, s, 1 + |c|, new_);
    InsertLast(c, new_);
  }

  lemma GrowInChildren(f: Forest, base: Bytes, depth: nat, e: nat, id: nat, entries: seq<DirectoryEntry>, c: seq<Row>, new_: seq<Row>)
    requires f.Dir? && f.expansion != Loading(id) && Grow(f.rest, id, entries) == f.rest
    requires c == Flatten(f.children, Join(base, f.entry.name), depth + 1) && 1 <= e <= 1 + |c|
    requires Flatten(Grow(f.children, id, entries), Join(base, f.entry.name), depth + 1) == Insert(c, e - 1, new_)
    ensures e <= |Flatten(f, base, depth)| && Flatten(Grow(f, id, entries), base, depth) == Insert(Flatten(f, base, depth), e, new_)
  {
    hide Insert, Join;
    var row := Row(Join(base, f.entry.name), depth, f.entry, f.expansion);
    InsertFirst(Flatten(f, base, depth), row, c, Flatten(f.rest, base, depth), e, new_);
  }

  lemma GrowInRest(f: Forest, base: Bytes, depth: nat, e: nat, id: nat, entries: seq<DirectoryEntry>, c: seq<Row>, new_: seq<Row>)
    requires f.Dir? && f.expansion != Loading(id) && Grow(f.children, id, entries) == f.children
    requires c == Flatten(f.children, Join(base, f.entry.name), depth + 1)
    requires 1 + |c| <= e <= 1 + |c| + |Flatten(f.rest, base, depth)|
    requires Flatten(Grow(f.rest, id, entries), base, depth) == Insert(Flatten(f.rest, base, depth), e - 1 - |c|, new_)
    ensures e <= |Flatten(f, base, depth)| && Flatten(Grow(f, id, entries), base, depth) == Insert(Flatten(f, base, depth), e, new_)
  {
    hide Insert, Join;
    var row := Row(Join(base, f.entry.name), depth, f.entry, f.expansion);
    InsertSecond(Flatten(f, base, depth), row, c, Flatten(f.rest, base, depth), e, new_);
  }

  /** In which part of the tree row `p` is, and its subtree. */
  lemma PartOf(f: Forest, base: Bytes, depth: nat, p: nat, e: nat, c: seq<Row>, s: seq<Row>)
    requires EndsAt(Flatten(f, base, depth), p, e) && f.Dir?
    requires c == Flatten(f.children, Join(base, f.entry.name), depth + 1) && s == Flatten(f.rest, base, depth)
    ensures |c| == Size(f.children) && |Flatten(f, base, depth)| == 1 + |c| + |s|
    ensures var row := Flatten(f, base, depth)[p];
            && (p == 0 ==> e == 1 + |c| && row == Row(Join(base, f.entry.name), depth, f.entry, f.expansion))
            && (1 <= p <= |c| ==> p < e <= 1 + |c| && EndsAt(c, p - 1, e - 1) && row == c[p - 1])
            && (p > |c| ==> p < e <= 1 + |c| + |s| && EndsAt(s, p - 1 - |c|, e - 1 - |c|) && row == s[p - 1 - |c|])
  {
    FlattenSize(f.children, Join(base, f.entry.name), depth + 1);
    EndsAtParts(f, base, depth, p, e);
    RowAt(Row(Join(base, f.entry.name), depth, f.entry, f.expansion), c, s, p);
  }

  /**
    The simple tree and the spliced rows agree: the group lands, in the rows, at the end of the subtree of the row that
    was waiting for it.
  */
  lemma {:induction false} GrowIsInsertion(f: Forest, base: Bytes, depth: nat, p: nat, e: nat, id: nat, entries: seq<DirectoryEntry>)
    requires f.Dir? && OnlyAt(Flatten(f, base, depth), p, id) && EndsAt(Flatten(f, base, depth), p, e)
    ensures var rows := Flatten(f, base, depth);
            Flatten(Grow(f, id, entries), base, depth) == Insert(rows, e, NewRows(entries, rows[p].path, rows[p].depth + 1))
  {
    hide *;
    var path := Join(base, f.entry.name);
    var c, s := Flatten(f.children, path, depth + 1), Flatten(f.rest, base, depth);
    PartOf(f, base, depth, p, e, c, s);
    OnlyAtParts(f, base, depth, p, id);
    var row := Flatten(f, base, depth)[p];
    var new_ := NewRows(entries, row.path, row.depth + 1);
    if p == 0 {
      GrowAbsent(f.children, path, depth + 1, id, entries);
      GrowAbsent(f.rest, base, depth, id, entries);
      GrowHere(f, base, depth, id, entries);
    } else if p <= |c| {
      EndsInDir(f.children, path, depth + 1, p - 1, e - 1);
      GrowAbsent(f.rest, base, depth, id, entries);
      GrowIsInsertion(f.children, path, depth + 1, p - 1, e - 1, id, entries);
      GrowInChildren(f, base, depth, e, id, entries, c, new_);
    } else {
      EndsInDir(f.rest, base, depth, p - 1 - |c|, e - 1 - |c|);
      GrowAbsent(f.children, path, depth + 1, id, entries);
      GrowIsInsertion(f.rest, base, depth, p - 1 - |c|, e - 1 - |c|, id, entries);
      GrowInRest(f, base, depth, e, id, entries, c, new_);
    }
  }

  lemma EndsInDir(f: Forest, base: Bytes, depth: nat, p: nat, e: nat)
    requires EndsAt(Flatten(f, base, depth), p, e)
    ensures f.Dir?
  {
  }

  lemma UpdateParts(row: Row, c: seq<Row>, s: seq<Row>, p: nat, r: Row)
    requires p < 1 + |c| + |s|
    ensures ([row] + c + s)[p := r] ==
            if p == 0 then [r] + c + s else if p <= |c| then [row] + c[p - 1 := r] + s else [row] + c + s[p - 1 - |c| := r]
  {
  }

  lemma {:induction false} SettleIsUpdate(f: Forest, base: Bytes, depth: nat, p: nat, id: nat, outcome: Expansion)
    requires OnlyAt(Flatten(f, base, depth), p, id)
    ensures var rows := Flatten(f, base, depth);
            Flatten(Settle(f, id, outcome), base, depth) == rows[p := rows[p].(expansion := outcome)]
  {
    var Dir(entry, expansion, children, rest) := f;
    var path, n := Join(base, entry.name), Size(children);
    FlattenSize(children, path, depth + 1);
    OnlyAtParts(f, base, depth, p, id);
    var row, c, s := Row(path, depth, entry, expansion), Flatten(children, path, depth + 1), Flatten(rest, base, depth);
    RowAt(row, c, s, p);
    UpdateParts(row, c, s, p, ([row] + c + s)[p].(expansion := outcome));
    hide OnlyAt, Absent, Join, Size;
    if p == 0 {
      SettleAbsent(children, path, depth + 1, id, outcome);
      SettleAbsent(rest, base, depth, id, outcome);
    } else if p <= n {
      SettleAbsent(rest, base, depth, id, outcome);
      SettleIsUpdate(children, path, depth + 1, p - 1, id, outcome);
    } else {
      SettleAbsent(children, path, depth + 1, id, outcome);
      SettleIsUpdate(rest, base, depth, p - 1 - n, id, outcome);
    }
  }

  lemma {:induction false} OpenIsUpdate(f: Forest, base: Bytes, depth: nat, i: nat, id: nat)
    requires i < |Flatten(f, base, depth)|
    ensures var rows := Flatten(f, base, depth);
            Flatten(Open(f, i, id), base, depth) == rows[i := rows[i].(expansion := Loading(id))]
  {
    var Dir(entry, expansion, children, rest) := f;
    var path, n := Join(base, entry.name), Size(children);
    FlattenSize(children, path, depth + 1);
    if i == 0 {
    } else if i <= n {
      OpenIsUpdate(children, path, depth + 1, i - 1, id);
    } else {
      OpenIsUpdate(rest, base, depth, i - 1 - n, id);
    }
  }

  function Closed(rows: seq<Row>, i: nat, e: nat): seq<Row>
    requires i < e <= |rows|
  {
    Remove(rows, i + 1, e)[i := rows[i].(expansion := Collapsed)]
  }

  lemma ClosedWhole(row: Row, c: seq<Row>, s: seq<Row>)
    ensures Closed([row] + c + s, 0, 1 + |c|) == [row.(expansion := Collapsed)] + s
  {
  }

  lemma ClosedFirst(rows: seq<Row>, row: Row, c: seq<Row>, s: seq<Row>, i: nat, e: nat)
    requires rows == [row] + c + s && 1 <= i < e <= 1 + |c|
    ensures Closed(rows, i, e) == [row] + Closed(c, i - 1, e - 1) + s
  {
  }

  lemma ClosedSecond(rows: seq<Row>, row: Row, c: seq<Row>, s: seq<Row>, i: nat, e: nat)
    requires rows == [row] + c + s && 1 + |c| <= i < e <= |rows|
    ensures Closed(rows, i, e) == [row] + c + Closed(s, i - 1 - |c|, e - 1 - |c|)
  {
  }

  lemma CloseInChildren(f: Forest, base: Bytes, depth: nat, i: nat, e: nat, c: seq<Row>, s: seq<Row>)
    requires f.Dir? && 1 <= i <= Size(f.children) && i < e <= 1 + |c|
    requires c == Flatten(f.children, Join(base, f.entry.name), depth + 1) && s == Flatten(f.rest, base, depth)
    requires Flatten(Close(f.children, i - 1), Join(base, f.entry.name), depth + 1) == Closed(c, i - 1, e - 1)
    ensures e <= |Flatten(f, base, depth)| && Flatten(Close(f, i), base, depth) == Closed(Flatten(f, base, depth), i, e)
  {
    hide Closed;
    var row := Row(Join(base, f.entry.name), depth, f.entry, f.expansion);
    assert Close(f, i) == Dir(f.entry, f.expansion, Close(f.children, i - 1), f.rest);
    hide Close, Size, Join;
    ClosedFirst(Flatten(f, base, depth), row, c, s, i, e);
  }

  lemma CloseInRest(f: Forest, base: Bytes, depth: nat, i: nat, e: nat, c: seq<Row>, s: seq<Row>)
    requires f.Dir? && |c| == Size(f.children) && 1 + |c| <= i < e <= 1 + |c| + |s|
    requires c == Flatten(f.children, Join(base, f.entry.name), depth + 1) && s == Flatten(f.rest, base, depth)
    requires Flatten(Close(f.rest, i - 1 - |c|), base, depth) == Closed(s, i - 1 - |c|, e - 1 - |c|)
    ensures e <= |Flatten(f, base, depth)| && Flatten(Close(f, i), base, depth) == Closed(Flatten(f, base, depth), i, e)
  {
    hide Closed;
    var row := Row(Join(base, f.entry.name), depth, f.entry, f.expansion);
    assert Close(f, i) == Dir(f.entry, f.expansion, f.children, Close(f.rest, i - 1 - |c|));
    hide Close, Size, Join;
    ClosedSecond(Flatten(f, base, depth), row, c, s, i, e);
  }

  lemma CloseHere(f: Forest, base: Bytes, depth: nat, c: seq<Row>)
    requires f.Dir? && c == Flatten(f.children, Join(base, f.entry.name), depth + 1)
    ensures |Flatten(f, base, depth)| >= 1 + |c|
    ensures Flatten(Close(f, 0), base, depth) == Closed(Flatten(f, base, depth), 0, 1 + |c|)
  {
    ClosedWhole(Row(Join(base, f.entry.name), depth, f.entry, f.expansion), c, Flatten(f.rest, base, depth));
  }

  lemma {:induction false} CloseIsRemoval(f: Forest, base: Bytes, depth: nat, i: nat, e: nat)
    requires f.Dir? && EndsAt(Flatten(f, base, depth), i, e)
    ensures Flatten(Close(f, i), base, depth) == Closed(Flatten(f, base, depth), i, e)
  {
    hide *;
    var path := Join(base, f.entry.name);
    var c, s := Flatten(f.children, path, depth + 1), Flatten(f.rest, base, depth);
    PartOf(f, base, depth, i, e, c, s);
    if i == 0 {
      CloseHere(f, base, depth, c);
    } else if i <= |c| {
      EndsInDir(f.children, path, depth + 1, i - 1, e - 1);
      CloseIsRemoval(f.children, path, depth + 1, i - 1, e - 1);
      CloseInChildren(f, base, depth, i, e, c, s);
    } else {
      EndsInDir(f.rest, base, depth, i - 1 - |c|, e - 1 - |c|);
      CloseIsRemoval(f.rest, base, depth, i - 1 - |c|, e - 1 - |c|);
      CloseInRest(f, base, depth, i, e, c, s);
    }
  }
}
