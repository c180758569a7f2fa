/** Which rows a filter leaves on screen. */
module BrowserWindow {
  import opened Wrappers
  import opened Utf8
  import opened PathString
  import opened BrowserRows
  import opened BrowserForest

  /**
    A filter: its text, and the directory matching is confined to. Whether a name has the text in it, and whether a
    path lies inside the directory, are left to the two predicates.
  */
  datatype Query = Query(text: Bytes, scope: Option<Bytes>, matches: Bytes -> bool, inScope: Bytes -> bool)

  predicate Entered(q: Query, row: Row) {
    q.scope == Some(row.path)
  }

  predicate Hit(q: Query, row: Row) {
    && !Entered(q, row)
    && (q.scope.None? || q.inScope(row.path))
    && (q.text == [] || q.matches(row.entry.name))
  }

  predicate Wanted(q: Query, row: Row) {
    Hit(q, row) || Entered(q, row)
  }

  datatype VisibleRow = VisibleRow(row: nat, matched: bool)

  datatype VisibleRows = All(count: nat) | Filtered(rows: seq<VisibleRow>, matches: nat)

  // ----- what is on screen -----

  /** Rows in pre-order: each at most one deeper than the one before it, the first at the top. */
  ghost predicate PreOrder(rows: seq<Row>) {
    && (rows != [] ==> rows[0].depth == 0)
    && (forall i :: 0 < i < |rows| ==> rows[i].depth <= rows[i - 1].depth + 1)
  }

  ghost predicate Ancestor(rows: seq<Row>, i: nat, j: nat) {
    i < j < |rows| && forall k :: i < k <= j ==> rows[k].depth > rows[i].depth
  }

  /** On screen on account of the rows before `n`: wanted itself, or above one that is. */
  ghost predicate Shown(q: Query, rows: seq<Row>, i: nat, n: nat)
    requires n <= |rows|
  {
    i < n && (Wanted(q, rows[i]) || exists j :: i < j < n && Ancestor(rows, i, j) && Wanted(q, rows[j]))
  }

  function Hits(q: Query, rows: seq<Row>): nat {
    if rows == [] then 0
    else Hits(q, rows[..|rows| - 1]) + (if Hit(q, rows[|rows| - 1]) then 1 else 0)
  }

  ghost predicate Increasing(visible: seq<VisibleRow>) {
    forall a, b :: 0 <= a < b < |visible| ==> visible[a].row < visible[b].row
  }

  /** Some position holds row `i`. */
  ghost predicate Holds(visible: seq<VisibleRow>, i: nat) {
    exists a :: 0 <= a < |visible| && visible[a].row == i
  }

  /** Exactly the rows on account of those before `n`, in order, each marked by whether it matched. */
  ghost predicate Exact(q: Query, rows: seq<Row>, n: nat, visible: seq<VisibleRow>)
    requires n <= |rows|
  {
    && Increasing(visible)
    && (forall i: nat :: Holds(visible, i) <==> Shown(q, rows, i, n))
    && (forall a :: 0 <= a < |visible| ==> visible[a].row < n && visible[a].matched == Hit(q, rows[visible[a].row]))
  }

  // ----- the ancestor chain -----

  datatype Link = Link(row: nat, emitted: bool)

  /** The chain holds, at each depth, the last row of that depth, with nothing as shallow since. */
  ghost predicate Chain(rows: seq<Row>, n: nat, links: seq<Link>)
    requires n <= |rows|
  {
    forall d :: 0 <= d < |links| ==>
      links[d].row < n && rows[links[d].row].depth == d && (forall k :: links[d].row < k < n ==> rows[k].depth > d)
  }

  ghost predicate Emitted(links: seq<Link>, visible: seq<VisibleRow>) {
    forall d :: 0 <= d < |links| ==> (links[d].emitted <==> Holds(visible, links[d].row))
  }

  lemma ChainIncreases(rows: seq<Row>, n: nat, links: seq<Link>, d: nat, e: nat)
    requires n <= |rows| && Chain(rows, n, links) && d < e < |links|
    ensures links[d].row < links[e].row
  {
  }

  /** A truncated chain is the ancestors of the row it was truncated for. */
  lemma ChainIsAncestors(rows: seq<Row>, n: nat, links: seq<Link>, i: nat)
    requires n < |rows| && Chain(rows, n, links) && |links| == rows[n].depth
    ensures Ancestor(rows, i, n) <==> exists d :: 0 <= d < |links| && links[d].row == i
  {
    if Ancestor(rows, i, n) {
      var d := rows[i].depth;
      assert rows[n].depth > d;
      assert forall k :: links[d].row < k < n ==> rows[k].depth > d;
    }
  }

  lemma TruncatedChain(rows: seq<Row>, n: nat, links: seq<Link>, visible: seq<VisibleRow>)
    requires n < |rows| && PreOrder(rows) && Chain(rows, n, links) && Emitted(links, visible)
    requires |links| == if n == 0 then 0 else rows[n - 1].depth + 1
    ensures rows[n].depth <= |links|
    ensures Chain(rows, n, links[..rows[n].depth]) && Emitted(links[..rows[n].depth], visible)
  {
  }

  lemma ExtendedChain(rows: seq<Row>, n: nat, links: seq<Link>, emitted: bool)
    requires n < |rows| && Chain(rows, n, links) && |links| == rows[n].depth
    ensures Chain(rows, n + 1, links + [Link(n, emitted)])
  {
  }

  /** Whatever is shown below an ancestor of the next row brings the ancestor with it. */
  lemma ShownAbove(q: Query, rows: seq<Row>, n: nat, i: nat, j: nat)
    requires n < |rows| && Ancestor(rows, i, n)
    ensures i < j && Shown(q, rows, j, n) ==> Shown(q, rows, i, n)
  {
    if i < j && Shown(q, rows, j, n) {
      var k :| j <= k < n && Wanted(q, rows[k]);
      assert Ancestor(rows, i, k);
    }
  }

  /** How one more row changes what is shown. */
  lemma ShownGrows(q: Query, rows: seq<Row>, n: nat, i: nat)
    requires n < |rows|
    ensures Shown(q, rows, i, n + 1) <==>
            Shown(q, rows, i, n) || (Wanted(q, rows[n]) && (i == n || Ancestor(rows, i, n)))
  {
    if i < n && Ancestor(rows, i, n) && Wanted(q, rows[n]) {
      assert i < n < n + 1;
    }
  }

  // ----- building the window -----

  /** Puts the ancestors not yet on screen there, and marks them. */
  method EmitAncestors(q: Query, rows: seq<Row>, n: nat, visible: seq<VisibleRow>, links: seq<Link>)
    returns (out: seq<VisibleRow>, marked: seq<Link>)
    requires n < |rows| && Chain(rows, n, links) && Emitted(links, visible) && |links| == rows[n].depth
    requires Exact(q, rows, n, visible)
    ensures Increasing(out)
    ensures forall i: nat :: Holds(out, i) <==> Holds(visible, i) || exists d :: 0 <= d < |links| && links[d].row == i
    ensures forall a :: 0 <= a < |out| ==> out[a].row < n && out[a].matched == Hit(q, rows[out[a].row])
    ensures |marked| == |links| && forall d :: 0 <= d < |links| ==> marked[d] == Link(links[d].row, true)
  {
    out, marked := visible, links;
    var d := 0;
    while d < |links|
      invariant 0 <= d <= |links| == |marked|
      invariant Increasing(out)
      invariant forall i: nat :: Holds(out, i) <==> Holds(visible, i) || exists e :: 0 <= e < d && links[e].row == i
      invariant forall a :: 0 <= a < |out| ==> out[a].row < n && out[a].matched == Hit(q, rows[out[a].row])
      invariant forall e :: 0 <= e < |links| ==> marked[e] == if e < d then Link(links[e].row, true) else links[e]
    {
      if !marked[d].emitted {
        var ancestor := marked[d].row;
        LastIsBelow(q, rows, n, visible, links, d, out);
        AppendVisible(out, VisibleRow(ancestor, false));
        out := out + [VisibleRow(ancestor, false)];
        marked := marked[d := Link(ancestor, true)];
      }
      d := d + 1;
    }
  }

  lemma AppendVisible(visible: seq<VisibleRow>, v: VisibleRow)
    ensures forall i: nat :: Holds(visible + [v], i) <==> Holds(visible, i) || i == v.row
    ensures Increasing(visible) && (forall a :: 0 <= a < |visible| ==> visible[a].row < v.row) ==> Increasing(visible + [v])
  {
    var all := visible + [v];
    forall i: nat
      ensures Holds(all, i) <==> Holds(visible, i) || i == v.row
    {
      if Holds(visible, i) {
        var a :| 0 <= a < |visible| && visible[a].row == i;
        assert all[a].row == i;
      }
      if i == v.row {
        assert all[|visible|].row == i;
      }
    }
  }

  /** An ancestor still to be emitted comes after everything emitted so far, and did not match. */
  lemma LastIsBelow(q: Query, rows: seq<Row>, n: nat, visible: seq<VisibleRow>, links: seq<Link>, d: nat, out: seq<VisibleRow>)
    requires n < |rows| && Chain(rows, n, links) && Emitted(links, visible) && |links| == rows[n].depth
    requires Exact(q, rows, n, visible) && d < |links| && !links[d].emitted
    requires forall i: nat :: Holds(out, i) <==> Holds(visible, i) || exists e :: 0 <= e < d && links[e].row == i
    ensures !Hit(q, rows[links[d].row])
    ensures forall a :: 0 <= a < |out| ==> out[a].row < links[d].row
  {
    var ancestor := links[d].row;
    ChainIsAncestors(rows, n, links, ancestor);
    assert Ancestor(rows, ancestor, n) && !Holds(visible, ancestor);
    assert !Shown(q, rows, ancestor, n);
    forall a | 0 <= a < |out|
      ensures out[a].row < ancestor
    {
      var i := out[a].row;
      assert Holds(out, i);
      if Holds(visible, i) {
        assert Shown(q, rows, i, n);
        ShownAbove(q, rows, n, ancestor, i);
      } else {
        var e :| 0 <= e < d && links[e].row == i;
        ChainIncreases(rows, n, links, e, d);
      }
    }
  }

  method Window(rows: seq<Row>, q: Query) returns (window: VisibleRows)
    requires PreOrder(rows)
    ensures window.All? <==> q.text == [] && q.scope.None?
    ensures window.All? ==> window.count == |rows|
    ensures window.Filtered? ==> Exact(q, rows, |rows|, window.rows) && window.matches == Hits(q, rows)
  {
    if q.text == [] && q.scope.None? {
      return All(|rows|);
    }
    var visible: seq<VisibleRow>, matches, ancestors: seq<Link> := [], 0, [];
    var index := 0;
    while index < |rows|
      invariant 0 <= index <= |rows|
      invariant Exact(q, rows, index, visible) && matches == Hits(q, rows[..index])
      invariant Chain(rows, index, ancestors) && Emitted(ancestors, visible)
      invariant |ancestors| == if index == 0 then 0 else rows[index - 1].depth + 1
    {
      var row := rows[index];
      TruncatedChain(rows, index, ancestors, visible);
      ancestors := ancestors[..row.depth];
      var entered := Entered(q, row);
      var hit := Hit(q, row);
      ghost var before, links := visible, ancestors;
      if hit || entered {
        visible, ancestors := EmitAncestors(q, rows, index, visible, ancestors);
        AppendVisible(visible, VisibleRow(index, hit));
        visible := visible + [VisibleRow(index, hit)];
        matches := matches + if hit then 1 else 0;
      }
      ExactAfterRow(q, rows, index, before, links, visible);
      EmittedAfterRow(rows, index, before, links, visible, ancestors, hit || entered);
      ancestors := ancestors + [Link(index, hit || entered)];
      assert rows[..index + 1][..index] == rows[..index];
      index := index + 1;
    }
    assert rows[..index] == rows;
    return Filtered(visible, matches);
  }

  lemma ExactAfterRow(q: Query, rows: seq<Row>, n: nat, before: seq<VisibleRow>, links: seq<Link>, visible: seq<VisibleRow>)
    requires n < |rows| && Exact(q, rows, n, before) && Chain(rows, n, links) && |links| == rows[n].depth
    requires Increasing(visible)
    requires forall a :: 0 <= a < |visible| ==> visible[a].row <= n && visible[a].matched == Hit(q, rows[visible[a].row])
    requires forall i: nat :: Holds(visible, i) <==>
               Holds(before, i) || (Wanted(q, rows[n]) && (i == n || exists d :: 0 <= d < |links| && links[d].row == i))
    ensures Exact(q, rows, n + 1, visible)
  {
    forall i: nat
      ensures Holds(visible, i) <==> Shown(q, rows, i, n + 1)
    {
      ShownGrows(q, rows, n, i);
      ChainIsAncestors(rows, n, links, i);
    }
  }

  lemma EmittedAfterRow(rows: seq<Row>, n: nat, before: seq<VisibleRow>, links: seq<Link>, visible: seq<VisibleRow>,
                        marked: seq<Link>, wanted: bool)
    requires n < |rows| && Chain(rows, n, links) && Emitted(links, before) && |links| == rows[n].depth == |marked|
    requires forall i :: 0 <= i < |before| ==> before[i].row < n
    requires forall d :: 0 <= d < |links| ==> marked[d] == if wanted then Link(links[d].row, true) else links[d]
    requires forall i: nat :: Holds(visible, i) <==>
               Holds(before, i) || (wanted && (i == n || exists d :: 0 <= d < |links| && links[d].row == i))
    ensures Chain(rows, n + 1, marked + [Link(n, wanted)]) && Emitted(marked + [Link(n, wanted)], visible)
  {
    assert Chain(rows, n, marked);
    ExtendedChain(rows, n, marked, wanted);
    var all := marked + [Link(n, wanted)];
    forall d | 0 <= d < |all|
      ensures all[d].emitted <==> Holds(visible, all[d].row)
    {
      if d < |marked| {
        assert all[d] == marked[d] && links[d].row == all[d].row;
      } else {
        assert !Holds(before, n);
        ChainBelow(rows, n, links);
      }
    }
  }

  lemma ChainBelow(rows: seq<Row>, n: nat, links: seq<Link>)
    requires n <= |rows| && Chain(rows, n, links)
    ensures !exists d :: 0 <= d < |links| && links[d].row == n
  {
  }

  /** The rows of an ordered tree are in pre-order. */
  lemma {:induction false} FlattenPreOrder(f: Forest, base: Bytes, depth: nat)
    ensures var rows := Flatten(f, base, depth);
            && (rows != [] ==> rows[0].depth == depth)
            && (forall i :: 0 < i < |rows| ==> rows[i].depth <= rows[i - 1].depth + 1)
  {
    if f.Dir? {
      var path := Join(base, f.entry.name);
      FlattenPreOrder(f.children, path, depth + 1);
      FlattenPreOrder(f.rest, base, depth);
      FlattenDepths(f.children, path, depth + 1);
      PreOrderParts(Row(path, depth, f.entry, f.expansion), Flatten(f.children, path, depth + 1), Flatten(f.rest, base, depth));
    }
  }

  lemma PreOrderParts(row: Row, c: seq<Row>, s: seq<Row>)
    requires forall i :: 0 < i < |c| ==> c[i].depth <= c[i - 1].depth + 1
    requires forall i :: 0 < i < |s| ==> s[i].depth <= s[i - 1].depth + 1
    requires forall i :: 0 <= i < |c| ==> c[i].depth >= row.depth
    requires c != [] ==> c[0].depth == row.depth + 1
    requires s != [] ==> s[0].depth == row.depth
    ensures var rows := [row] + c + s; forall i :: 0 < i < |rows| ==> rows[i].depth <= rows[i - 1].depth + 1
  {
    var rows := [row] + c + s;
    forall i | 0 < i < |rows|
      ensures rows[i].depth <= rows[i - 1].depth + 1
    {
      RowAt(row, c, s, i);
      RowAt(row, c, s, i - 1);
    }
  }

  // ----- finding rows on screen -----

  function Len(w: VisibleRows): nat {
    match w
    case All(count) => count
    case Filtered(rows, _) => |rows|
  }

  /** The first position holding `row` or a later row, found one by one. */
  function StartOf(rows: seq<VisibleRow>, row: nat): (start: nat)
    ensures start <= |rows|
    ensures forall a :: 0 <= a < start ==> rows[a].row < row
    ensures start < |rows| ==> rows[start].row >= row
  {
    if rows == [] || rows[0].row >= row then 0 else 1 + StartOf(rows[1..], row)
  }

  /** The same by halving, which an increasing list allows. */
  method PartitionPoint(rows: seq<VisibleRow>, row: nat) returns (start: nat)
    requires Increasing(rows)
    ensures start == StartOf(rows, row)
  {
    var low, high := 0, |rows|;
    while low < high
      invariant 0 <= low <= high <= |rows|
      invariant forall a :: 0 <= a < low ==> rows[a].row < row
      invariant high < |rows| ==> rows[high].row >= row
    {
      var middle := (low + high) / 2;
      if rows[middle].row < row {
        low := middle + 1;
      } else {
        high := middle;
      }
    }
    start := low;
    var linear := StartOf(rows, row);
    assert low <= linear;
  }

  method PositionOf(w: VisibleRows, row: nat) returns (position: Option<nat>)
    requires w.Filtered? ==> Increasing(w.rows)
    ensures position.None? <==> Len(w) == 0
    ensures w.All? && w.count > 0 ==> position == Some(if row < w.count then row else w.count - 1)
    ensures w.Filtered? && w.rows != [] ==>
              && position.value < |w.rows|
              && (forall a :: 0 <= a < position.value ==> w.rows[a].row < row)
              && (w.rows[position.value].row >= row || position.value == |w.rows| - 1)
  {
    if Len(w) == 0 {
      return None;
    }
    var last := Len(w) - 1;
    if w.All? {
      return Some(if row < last then row else last);
    }
    var start := PartitionPoint(w.rows, row);
    return Some(if start < last then start else last);
  }

  method Matched(w: VisibleRows, row: nat) returns (matched: bool)
    requires w.Filtered? ==> Increasing(w.rows)
    ensures w.All? ==> matched
    ensures w.Filtered? ==> (matched <==> VisibleRow(row, true) in w.rows)
  {
    if w.All? {
      return true;
    }
    var start := PartitionPoint(w.rows, row);
    matched := start < |w.rows| && w.rows[start].row == row && w.rows[start].matched;
    if VisibleRow(row, true) in w.rows {
      var a :| 0 <= a < |w.rows| && w.rows[a] == VisibleRow(row, true);
      assert a >= start && start < |w.rows|;
      assert forall b :: start < b < |w.rows| ==> w.rows[start].row < w.rows[b].row;
    }
  }

  /** Nothing matched in `rows[from..to]`. */
  ghost predicate NoMatch(rows: seq<VisibleRow>, from: nat, to: nat)
    requires to <= |rows|
  {
    forall a :: from <= a < to ==> !rows[a].matched
  }

  /** The nearest match at or after `row`, and otherwise the last match there is. */
  method MatchPositionOf(w: VisibleRows, row: nat) returns (position: Option<nat>)
    requires w.Filtered? ==> Increasing(w.rows)
    ensures w.Filtered? && position.Some? ==>
              && position.value < |w.rows| && w.rows[position.value].matched
              && (w.rows[position.value].row >= row ==> NoMatch(w.rows, StartOf(w.rows, row), position.value))
              && (w.rows[position.value].row < row ==> NoMatch(w.rows, position.value + 1, |w.rows|))
    ensures w.Filtered? ==> (position.None? <==> NoMatch(w.rows, 0, |w.rows|))
    ensures w.All? ==> position == if w.count == 0 then None else Some(if row < w.count then row else w.count - 1)
  {
    if w.All? {
      position := PositionOf(w, row);
      return;
    }
    var start := PartitionPoint(w.rows, row);
    var a := start;
    while a < |w.rows|
      invariant start <= a <= |w.rows| && NoMatch(w.rows, start, a)
    {
      if w.rows[a].matched {
        assert start < a ==> w.rows[start].row < w.rows[a].row;
        return Some(a);
      }
      a := a + 1;
    }
    a := |w.rows|;
    while a > 0
      invariant 0 <= a <= |w.rows| && NoMatch(w.rows, a, |w.rows|)
    {
      a := a - 1;
      if w.rows[a].matched {
        return Some(a);
      }
    }
    return None;
  }

  // ----- what the two promise together -----

  /** In a window of `rows`, a row is found as matched exactly when it hits. */
  lemma MatchedMeansHit(q: Query, rows: seq<Row>, visible: seq<VisibleRow>, i: nat)
    requires Exact(q, rows, |rows|, visible)
    ensures VisibleRow(i, true) in visible <==> i < |rows| && Hit(q, rows[i])
  {
    if i < |rows| && Hit(q, rows[i]) {
      assert Shown(q, rows, i, |rows|);
      var a :| 0 <= a < |visible| && visible[a].row == i;
      assert visible[a] == VisibleRow(i, true);
    }
  }

  /** A row in scope whose name has the text in it, and which is not the directory the scope names. */
  predicate Meets(q: Query, row: Row) {
    && (q.scope.Some? ==> q.scope.value != row.path && q.inScope(row.path))
    && (q.text != [] ==> q.matches(row.entry.name))
  }

  /**
    What a window shows of its rows: as matched, those in scope whose names have the text in them; and with them the scope's
    own directory, and whatever lies above any of these.
  */
  lemma WindowShows(q: Query, rows: seq<Row>, visible: seq<VisibleRow>, i: nat)
    requires Exact(q, rows, |rows|, visible)
    ensures VisibleRow(i, true) in visible <==> i < |rows| && Meets(q, rows[i])
    ensures VisibleRow(i, false) in visible
       <==> && i < |rows| && !Meets(q, rows[i])
            && (q.scope == Some(rows[i].path)
                || exists j :: i < j < |rows| && Ancestor(rows, i, j) && (Meets(q, rows[j]) || q.scope == Some(rows[j].path)))
  {
    forall j | 0 <= j < |rows|
      ensures Meets(q, rows[j]) <==> Hit(q, rows[j])
      ensures Wanted(q, rows[j]) <==> Meets(q, rows[j]) || q.scope == Some(rows[j].path)
    {
      MeetsIsHit(q, rows[j]);
    }
    MatchedMeansHit(q, rows, visible, i);
    hide Meets, Hit, Wanted;
    if i < |rows| && Shown(q, rows, i, |rows|) {
      assert Holds(visible, i);
      var a :| 0 <= a < |visible| && visible[a].row == i;
      assert visible[a] == VisibleRow(i, Hit(q, rows[i]));
    }
    if VisibleRow(i, false) in visible {
      var a :| 0 <= a < |visible| && visible[a] == VisibleRow(i, false);
      assert Holds(visible, i);
      assert Shown(q, rows, i, |rows|);
    }
  }

  lemma MeetsIsHit(q: Query, row: Row)
    ensures Meets(q, row) <==> Hit(q, row)
    ensures Wanted(q, row) <==> Meets(q, row) || q.scope == Some(row.path)
  {
  }

  lemma {:induction false} NoHits(q: Query, rows: seq<Row>)
    ensures Hits(q, rows) == 0 <==> forall i :: 0 <= i < |rows| ==> !Hit(q, rows[i])
  {
    if rows != [] {
      var init := rows[..|rows| - 1];
      NoHits(q, init);
      assert forall i :: 0 <= i < |init| ==> rows[i] == init[i];
    }
  }

  /** The directory a scope names is among the rows. */
  ghost predicate ScopeListed(q: Query, rows: seq<Row>) {
    exists i :: 0 <= i < |rows| && Entered(q, rows[i])
  }

  /**
    A list that is not empty has a match to land on exactly unless the directory its scope names is on screen and nothing
    hits; with no scope it always has one.
  */
  lemma MatchToLandOn(q: Query, rows: seq<Row>, visible: seq<VisibleRow>)
    requires Exact(q, rows, |rows|, visible)
    ensures NoMatch(visible, 0, |visible|) <==> Hits(q, rows) == 0
    ensures visible != [] && NoMatch(visible, 0, |visible|) <==> ScopeListed(q, rows) && Hits(q, rows) == 0
    ensures q.scope.None? && visible != [] ==> !NoMatch(visible, 0, |visible|)
  {
    NoHits(q, rows);
    forall i | 0 <= i < |rows|
      ensures VisibleRow(i, true) in visible <==> Hit(q, rows[i])
      ensures Wanted(q, rows[i]) ==> visible != []
    {
      MatchedMeansHit(q, rows, visible, i);
      assert Wanted(q, rows[i]) ==> Shown(q, rows, i, |rows|) && Holds(visible, i);
    }
    if visible != [] {
      assert Holds(visible, visible[0].row);
      assert Shown(q, rows, visible[0].row, |rows|);
    }
    if !NoMatch(visible, 0, |visible|) {
      var a :| 0 <= a < |visible| && visible[a].matched;
      assert visible[a] == VisibleRow(visible[a].row, true);
    }
  }

  lemma ShownWithoutMatch()
    ensures var rows := [Row([0x61], 0, DirectoryEntry([0x61], true), Collapsed)];
            var q := Query([0x7A], Some([0x61]), name => false, path => true);
            PreOrder(rows) && Shown(q, rows, 0, 1) && Hits(q, rows) == 0
  {
  }
}
