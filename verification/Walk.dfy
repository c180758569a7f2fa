/** The walk of a directory tree with an explicit stack, against the recursive one. */
module DirectoryWalk {
  import opened Wrappers
  import opened Utf8
  import opened PathString

  datatype Kind = File | Directory | Symlink | Other

  /** What opening a directory gives: an error, or its entries in the filesystem's order. */
  datatype Dir = Unreadable(error: string) | Readable(items: Items)

  /**
    A directory's entries, ended by their end or by a failure to read the next. `described` is false when an entry's stat
    was refused; `below` is what opening the entry would give.
  */
  datatype Items =
    | End
    | Broken(error: string)
    | Item(name: Bytes, kind: Kind, described: bool, below: Dir, rest: Items)

  datatype WalkEntry = WalkEntry(relativePath: Bytes, name: Bytes, kind: Kind, depth: nat)

  /** What a walk yields: entries, and the error that ended it, if one did. */
  datatype Outcome = Outcome(entries: seq<WalkEntry>, error: Option<string>)

  const NOTHING := Outcome([], None)

  /** A real directory whose stat was not refused. */
  predicate Descends(kind: Kind, described: bool) {
    kind.Directory? && described
  }

  function Then(first: Outcome, second: Outcome): Outcome {
    if first.error.Some? then first else Outcome(first.entries + second.entries, second.error)
  }

  // ----- the recursive walk, by names -----

  function JoinNames(names: seq<Bytes>): Bytes {
    if names == [] then [] else Join(JoinNames(names[..|names| - 1]), names[|names| - 1])
  }

  function EntryAt(names: seq<Bytes>, kind: Kind): WalkEntry
    requires names != []
  {
    WalkEntry(Escaped(JoinNames(names)), Escaped(names[|names| - 1]), kind, |names|)
  }

  /** Everything below a directory reached by `above`, each directory's entries after it and before its siblings. */
  function PreOrder(items: Items, above: seq<Bytes>): Outcome {
    match items
    case End => NOTHING
    case Broken(error) => Outcome([], Some(error))
    case Item(name, kind, described, below, rest) =>
      var entry := Outcome([EntryAt(above + [name], kind)], None);
      var inside := if Descends(kind, described) then PreOrderOf(below, above + [name]) else NOTHING;
      Then(Then(entry, inside), PreOrder(rest, above))
  }

  function PreOrderOf(dir: Dir, above: seq<Bytes>): Outcome {
    match dir
    case Unreadable(error) => Outcome([], Some(error))
    case Readable(items) => PreOrder(items, above)
  }

  // ----- what is left of the walk under way -----

  datatype Frame = Frame(entries: Items, relativeDir: Bytes, childDepth: nat)

  datatype Descent = Descent(dir: Dir, relativeDir: Bytes, childDepth: nat)

  /** The same walk by the relative path and depth a frame carries. */
  function Left(items: Items, relativeDir: Bytes, depth: nat): Outcome {
    match items
    case End => NOTHING
    case Broken(error) => Outcome([], Some(error))
    case Item(name, kind, described, below, rest) =>
      var path := Join(relativeDir, Escaped(name));
      var entry := Outcome([WalkEntry(path, Escaped(name), kind, depth)], None);
      var inside := if Descends(kind, described) then LeftOf(below, path, depth + 1) else NOTHING;
      Then(Then(entry, inside), Left(rest, relativeDir, depth))
  }

  function LeftOf(dir: Dir, relativeDir: Bytes, depth: nat): Outcome {
    match dir
    case Unreadable(error) => Outcome([], Some(error))
    case Readable(items) => Left(items, relativeDir, depth)
  }

  function LeftOn(stack: seq<Frame>): Outcome {
    if stack == [] then NOTHING
    else
      var top := stack[|stack| - 1];
      Then(Left(top.entries, top.relativeDir, top.childDepth), LeftOn(stack[..|stack| - 1]))
  }

  function LeftIn(stack: seq<Frame>, into: Option<Descent>): Outcome {
    match into
    case None => LeftOn(stack)
    case Some(descent) => Then(LeftOf(descent.dir, descent.relativeDir, descent.childDepth), LeftOn(stack))
  }

  lemma ThenAssociates(a: Outcome, b: Outcome, c: Outcome)
    ensures Then(Then(a, b), c) == Then(a, Then(b, c))
    ensures Then(NOTHING, a) == a && Then(a, NOTHING) == a
  {
  }

  /** A frame's path and depth are those of the names that lead to it, so what is left of it is what the names say. */
  lemma {:induction false} LeftIsPreOrder(items: Items, above: seq<Bytes>)
    ensures Left(items, Escaped(JoinNames(above)), |above| + 1) == PreOrder(items, above)
    decreases items, 1
  {
    match items
    case Item(name, kind, described, below, rest) =>
      JoinOne(above, name);
      LeftIsPreOrder(rest, above);
      LeftOfIsPreOrder(below, above + [name]);
      hide Escaped, Join, JoinNames, Then;
    case _ =>
  }

  lemma {:induction false} LeftOfIsPreOrder(dir: Dir, above: seq<Bytes>)
    ensures LeftOf(dir, Escaped(JoinNames(above)), |above| + 1) == PreOrderOf(dir, above)
    decreases dir, 0
  {
    match dir
    case Unreadable(_) =>
    case Readable(items) => LeftIsPreOrder(items, above);
  }

  lemma JoinOne(above: seq<Bytes>, name: Bytes)
    ensures var names := above + [name];
            && names[|names| - 1] == name && |names| == |above| + 1
            && Join(Escaped(JoinNames(above)), Escaped(name)) == Escaped(JoinNames(names))
  {
    var names := above + [name];
    assert names[..|names| - 1] == above;
    JoinEscaped(JoinNames(above), name);
    hide Escaped, Join;
  }

  /** The walk a stream of entries goes through, one entry at a time. */
  class Walk {
    var stack: seq<Frame>
    var descendInto: Option<Descent>
    var ended: bool

    function Ahead(): Outcome
      reads this
    {
      if ended then NOTHING else LeftIn(stack, descendInto)
    }

    constructor (items: Items)
      ensures Ahead() == PreOrder(items, [])
    {
      stack := [Frame(items, [], 1)];
      descendInto, ended := None, false;
      new;
      assert stack[..0] == [];
      LeftIsPreOrder(items, []);
      assert JoinNames([]) == [] && Escaped([]) == [];
      ThenAssociates(Left(items, [], 1), NOTHING, NOTHING);
      assert LeftOn(stack) == Then(Left(items, [], 1), LeftOn([]));
    }

    /** The next entry, or the error that ends the walk, or nothing once it has ended. */
    method Next() returns (item: Option<Result<WalkEntry, string>>)
      modifies this
      ensures item.None? ==> old(Ahead()) == NOTHING && Ahead() == NOTHING
      ensures item.Some? && item.value.Ok? ==> old(Ahead()) == Then(Outcome([item.value.value], None), Ahead())
      ensures item.Some? && item.value.Err? ==> old(Ahead()) == Outcome([], Some(item.value.error)) && Ahead() == NOTHING
    {
      if ended {
        return None;
      }
      ghost var ahead := Ahead();
      if descendInto.Some? {
        var descent := descendInto.value;
        descendInto := None;
        match descent.dir {
          case Unreadable(error) =>
            ended := true;
            return Some(Err(error));
          case Readable(entries) =>
            var frame := Frame(entries, descent.relativeDir, descent.childDepth);
            assert (stack + [frame])[..|stack|] == stack;
            stack := stack + [frame];
        }
      }
      while true
        invariant !ended && descendInto.None? && LeftOn(stack) == ahead
        decreases |stack|
      {
        if stack == [] {
          ended := true;
          return None;
        }
        var frame := stack[|stack| - 1];
        ghost var others := stack[..|stack| - 1];
        match frame.entries {
          case End =>
            ThenAssociates(LeftOn(others), NOTHING, NOTHING);
            stack := stack[..|stack| - 1];
          case Broken(error) =>
            ended := true;
            return Some(Err(error));
          case Item(name, kind, described, below, rest) =>
            var entry := Emit(frame, name, kind, described, below, rest);
            return Some(Ok(entry));
        }
      }
    }

    method Emit(frame: Frame, name: Bytes, kind: Kind, described: bool, below: Dir, rest: Items) returns (entry: WalkEntry)
      requires stack != [] && stack[|stack| - 1] == frame && frame.entries == Item(name, kind, described, below, rest)
      requires !ended && descendInto.None?
      modifies this
      ensures old(LeftOn(stack)) == Then(Outcome([entry], None), Ahead())
    {
      ghost var others := stack[..|stack| - 1];
      var relativePath := Join(frame.relativeDir, Escaped(name));
      entry := WalkEntry(relativePath, Escaped(name), kind, frame.childDepth);
      stack := stack[|stack| - 1 := frame.(entries := rest)];
      assert stack[..|stack| - 1] == others;
      if Descends(kind, described) {
        descendInto := Some(Descent(below, relativePath, frame.childDepth + 1));
      }
      ghost var inside := if Descends(kind, described) then LeftOf(below, relativePath, frame.childDepth + 1) else NOTHING;
      EmitLeaves(entry, inside, Left(rest, frame.relativeDir, frame.childDepth), LeftOn(others));
    }
  }

  lemma EmitLeaves(entry: WalkEntry, inside: Outcome, siblings: Outcome, others: Outcome)
    ensures Then(Then(Then(Outcome([entry], None), inside), siblings), others)
         == Then(Outcome([entry], None), Then(inside, Then(siblings, others)))
    ensures Then(NOTHING, Then(siblings, others)) == Then(siblings, others)
  {
  }

  /** The stream as a whole is the recursive walk, up to its first error. */
  method WalkDir(root: Dir) returns (result: Result<Outcome, string>)
    ensures result == match root
                      case Unreadable(error) => Err(error)
                      case Readable(items) => Ok(PreOrder(items, []))
  {
    match root {
      case Unreadable(error) =>
        return Err(error);
      case Readable(items) =>
        var walk := new Walk(items);
        var entries: seq<WalkEntry> := [];
        while true
          invariant Then(Outcome(entries, None), walk.Ahead()) == PreOrder(items, [])
          decreases |walk.Ahead().entries|
        {
          ghost var ahead := walk.Ahead();
          var item := walk.Next();
          assert entries + [] == entries;
          match item {
            case None =>
              return Ok(Outcome(entries, None));
            case Some(Err(error)) =>
              return Ok(Outcome(entries, Some(error)));
            case Some(Ok(entry)) =>
              ThenAssociates(Outcome(entries, None), Outcome([entry], None), walk.Ahead());
              entries := entries + [entry];
          }
        }
    }
  }

  // ----- depth and components -----

  function Separators(s: Bytes): nat {
    if s == [] then 0 else Separators(s[..|s| - 1]) + if s[|s| - 1] == SLASH then 1 else 0
  }

  lemma {:induction false} SeparatorsConcat(a: Bytes, b: Bytes)
    ensures Separators(a + b) == Separators(a) + Separators(b)
    decreases |b|
  {
    if b == [] {
      assert a + b == a;
    } else {
      assert (a + b)[..|a + b| - 1] == a + b[..|b| - 1];
      SeparatorsConcat(a, b[..|b| - 1]);
    }
  }

  /** A name as a directory may hold it. */
  predicate IsName(name: Bytes) {
    name != [] && Separators(name) == 0
  }

  lemma {:induction false} NoSeparatorAtEnd(name: Bytes)
    requires IsName(name)
    ensures !EndsInSeparator(name)
  {
  }

  lemma {:induction false} JoinedComponents(names: seq<Bytes>)
    requires names != [] && forall k :: 0 <= k < |names| ==> IsName(names[k])
    ensures JoinNames(names) != [] && !EndsInSeparator(JoinNames(names)) && Separators(JoinNames(names)) == |names| - 1
    decreases |names|
  {
    var init, last := names[..|names| - 1], names[|names| - 1];
    NoSeparatorAtEnd(last);
    if init == [] {
      assert JoinNames(init) == [];
    } else {
      JoinedComponents(init);
      var path := JoinNames(init);
      SeparatorsConcat(path + [SLASH], last);
      SeparatorsConcat(path, [SLASH]);
      assert Separators([SLASH]) == 1 by { assert [SLASH][..0] == []; }
      assert JoinNames(names) == path + [SLASH] + last;
    }
  }

  /** Every name under a directory is one. */
  predicate AllNames(items: Items) {
    match items
    case Item(name, _, _, below, rest) => IsName(name) && AllNames(rest) && (below.Readable? ==> AllNames(below.items))
    case _ => true
  }

  /** An entry's path decodes, to as many components as it is deep. */
  predicate AsDeep(entry: WalkEntry) {
    var path := Unescaped(entry.relativePath);
    path.Ok? && Separators(path.value) + 1 == entry.depth
  }

  lemma EntryAsDeep(names: seq<Bytes>, kind: Kind)
    requires names != [] && forall k :: 0 <= k < |names| ==> IsName(names[k])
    ensures AsDeep(EntryAt(names, kind))
  {
    JoinedComponents(names);
    RoundTrip(JoinNames(names));
    hide Escaped, Unescaped, JoinNames, Separators;
  }

  ghost predicate AllAsDeep(outcome: Outcome) {
    forall k :: 0 <= k < |outcome.entries| ==> AsDeep(outcome.entries[k])
  }

  lemma ThenAsDeep(first: Outcome, second: Outcome)
    requires AllAsDeep(first) && AllAsDeep(second)
    ensures AllAsDeep(Then(first, second))
  {
  }

  /** Every entry a walk yields is as deep as its relative path has components. */
  lemma {:induction false} EntriesAsDeep(items: Items, above: seq<Bytes>)
    requires AllNames(items) && forall k :: 0 <= k < |above| ==> IsName(above[k])
    ensures AllAsDeep(PreOrder(items, above))
  {
    match items
    case Item(name, kind, described, below, rest) =>
      var names := above + [name];
      EntryAsDeep(names, kind);
      EntriesAsDeep(rest, above);
      if below.Readable? {
        EntriesAsDeep(below.items, names);
      }
      var entry := Outcome([EntryAt(names, kind)], None);
      var inside := if Descends(kind, described) then PreOrderOf(below, names) else NOTHING;
      assert AllAsDeep(entry) && AllAsDeep(inside) by { hide AsDeep, EntryAt, Descends; }
      hide AsDeep, EntryAt, AllAsDeep;
      ThenAsDeep(entry, inside);
      ThenAsDeep(Then(entry, inside), PreOrder(rest, above));
    case _ =>
  }

  // ----- what is entered, and what is yielded -----

  /** The same but for what lies below items that are no described directories. */
  predicate SameEntered(items: Items, others: Items) {
    match items
    case Item(name, kind, described, below, rest) =>
      && others.Item? && others.name == name && others.kind == kind && others.described == described
      && (kind == Directory && described ==> SameWithin(below, others.below))
      && SameEntered(rest, others.rest)
    case _ => others == items
  }

  predicate SameWithin(dir: Dir, other: Dir) {
    if dir.Readable? && other.Readable? then SameEntered(dir.items, other.items) else dir == other
  }

  /** Nothing below an item that is not a described directory makes a difference: symlinks are not followed. */
  lemma {:induction false} OnlyDirectoriesEntered(items: Items, others: Items, above: seq<Bytes>)
    requires SameEntered(items, others)
    ensures PreOrder(items, above) == PreOrder(others, above)
  {
    if items.Item? {
      OnlyDirectoriesEntered(items.rest, others.rest, above);
      if items.kind == Directory && items.described && items.below.Readable? && others.below.Readable? {
        OnlyDirectoriesEntered(items.below.items, others.below.items, above + [items.name]);
      }
    }
  }

  /** The first error a walk comes to. */
  function ErrorOf(items: Items): Option<string> {
    match items
    case End => None
    case Broken(error) => Some(error)
    case Item(_, kind, described, below, rest) =>
      var inside := if kind == Directory && described then ErrorWithin(below) else None;
      if inside.Some? then inside else ErrorOf(rest)
  }

  function ErrorWithin(dir: Dir): Option<string> {
    match dir
    case Unreadable(error) => Some(error)
    case Readable(items) => ErrorOf(items)
  }

  lemma {:induction false} EndsAtError(items: Items, above: seq<Bytes>)
    ensures PreOrder(items, above).error == ErrorOf(items)
  {
    if items.Item? {
      EndsAtError(items.rest, above);
      if items.below.Readable? {
        EndsAtError(items.below.items, above + [items.name]);
      }
      hide EntryAt;
    }
  }

  /** An item of some kind stands at `names`, and no error comes before it. */
  predicate Reached(items: Items, above: seq<Bytes>, names: seq<Bytes>, kind: Kind) {
    && items.Item?
    && (|| (names == above + [items.name] && kind == items.kind)
        || (items.kind == Directory && items.described && items.below.Readable?
            && Reached(items.below.items, above + [items.name], names, kind))
        || ((items.kind == Directory && items.described ==> ErrorWithin(items.below).None?)
            && Reached(items.rest, above, names, kind)))
  }

  /** Whatever is reached is yielded. */
  lemma {:induction false} ReachedYielded(items: Items, above: seq<Bytes>, names: seq<Bytes>, kind: Kind)
    requires Reached(items, above, names, kind)
    ensures names != [] && EntryAt(names, kind) in PreOrder(items, above).entries
  {
    hide EntryAt;
    var own := above + [items.name];
    EndsAtErrorWithin(items.below, own);
    ItemYields(items, above);
    if names == own && kind == items.kind {
    } else if items.kind == Directory && items.described && items.below.Readable? && Reached(items.below.items, own, names, kind) {
      ReachedYielded(items.below.items, own, names, kind);
    } else {
      ReachedYielded(items.rest, above, names, kind);
    }
  }

  lemma EndsAtErrorWithin(dir: Dir, above: seq<Bytes>)
    ensures PreOrderOf(dir, above).error == ErrorWithin(dir)
  {
    if dir.Readable? {
      EndsAtError(dir.items, above);
    }
  }

  /** What an item adds to a walk: itself, then all that is yielded below it if it is a described directory, then its siblings. */
  lemma ItemYields(items: Items, above: seq<Bytes>)
    requires items.Item?
    ensures var own := above + [items.name];
            var inside := if items.kind == Directory && items.described then PreOrderOf(items.below, own) else NOTHING;
            && PreOrder(items, above).entries
               == [EntryAt(own, items.kind)] + inside.entries
                  + (if inside.error.Some? then [] else PreOrder(items.rest, above).entries)
            && PreOrder(items, above).error == (if inside.error.Some? then inside.error else PreOrder(items.rest, above).error)
  {
    hide EntryAt;
    var own := above + [items.name];
    var inside := if items.kind == Directory && items.described then PreOrderOf(items.below, own) else NOTHING;
    assert [EntryAt(own, items.kind)] + inside.entries + [] == [EntryAt(own, items.kind)] + inside.entries;
  }

  /** And whatever is yielded was reached. */
  lemma {:induction false} YieldedReached(items: Items, above: seq<Bytes>, entry: WalkEntry) returns (names: seq<Bytes>)
    requires entry in PreOrder(items, above).entries
    ensures names != [] && Reached(items, above, names, entry.kind) && entry == EntryAt(names, entry.kind)
  {
    ItemYields(items, above);
    var own := above + [items.name];
    EndsAtErrorWithin(items.below, own);
    var inside := if items.kind == Directory && items.described then PreOrderOf(items.below, own) else NOTHING;
    if entry == EntryAt(own, items.kind) {
      names := own;
    } else if entry in inside.entries {
      names := YieldedReached(items.below.items, own, entry);
    } else {
      names := YieldedReached(items.rest, above, entry);
    }
  }

  /**
    A walk yields exactly the items there are at the top and below described directories that were themselves yielded, up
    to the first error: every symlink among them, and nothing behind one.
  */
  lemma YieldsExactly(items: Items, above: seq<Bytes>, entry: WalkEntry)
    ensures entry in PreOrder(items, above).entries
       <==> exists names :: names != [] && Reached(items, above, names, entry.kind) && entry == EntryAt(names, entry.kind)
    ensures PreOrder(items, above).error == ErrorOf(items)
  {
    EndsAtError(items, above);
    if entry in PreOrder(items, above).entries {
      var names := YieldedReached(items, above, entry);
    }
    if names :| names != [] && Reached(items, above, names, entry.kind) && entry == EntryAt(names, entry.kind) {
      ReachedYielded(items, above, names, entry.kind);
    }
  }

  /** A described directory, come to before any error, and what is below it. */
  predicate Enters(items: Items, above: seq<Bytes>, names: seq<Bytes>, below: Dir) {
    && items.Item?
    && (|| (names == above + [items.name] && items.kind == Directory && items.described && below == items.below)
        || (items.kind == Directory && items.described && items.below.Readable?
            && Enters(items.below.items, above + [items.name], names, below))
        || ((items.kind == Directory && items.described ==> ErrorWithin(items.below).None?)
            && Enters(items.rest, above, names, below)))
  }

  /** At `k` comes the entry, then all of `inside`, and nothing more if that ends in an error. */
  predicate Follows(walk: Outcome, k: nat, entry: WalkEntry, inside: Outcome) {
    && k + 1 + |inside.entries| <= |walk.entries|
    && walk.entries[k] == entry
    && walk.entries[k + 1..k + 1 + |inside.entries|] == inside.entries
    && (inside.error.Some? ==> walk.error == inside.error && k + 1 + |inside.entries| == |walk.entries|)
  }

  lemma FollowsWithin(walk: Outcome, first: seq<WalkEntry>, part: Outcome, last: seq<WalkEntry>, j: nat, entry: WalkEntry, inside: Outcome)
    requires walk.entries == first + part.entries + last && Follows(part, j, entry, inside)
    requires part.error.Some? ==> walk.error == part.error && last == []
    ensures Follows(walk, |first| + j, entry, inside)
  {
    var k, n := |first| + j, |inside.entries|;
    assert walk.entries[k + 1..k + 1 + n] == part.entries[j + 1..j + 1 + n];
  }

  lemma FollowsFirst(walk: Outcome, entry: WalkEntry, inside: Outcome, last: seq<WalkEntry>)
    requires walk.entries == [entry] + inside.entries + last
    requires inside.error.Some? ==> walk.error == inside.error && last == []
    ensures Follows(walk, 0, entry, inside)
  {
  }

  /** Right after a directory's entry comes everything it yields, and nothing more if that ends in an error. */
  lemma {:induction false} FollowedByItsOwn(items: Items, above: seq<Bytes>, names: seq<Bytes>, below: Dir) returns (k: nat)
    requires Enters(items, above, names, below)
    ensures names != [] && Follows(PreOrder(items, above), k, EntryAt(names, Directory), PreOrderOf(below, names))
  {
    hide EntryAt, PreOrder, PreOrderOf, ErrorWithin, Follows;
    var own := above + [items.name];
    ItemYields(items, above);
    EndsAtErrorWithin(items.below, own);
    var walk, rest := PreOrder(items, above), PreOrder(items.rest, above);
    var inside := if items.kind == Directory && items.described then PreOrderOf(items.below, own) else NOTHING;
    var entry := EntryAt(own, items.kind);
    var last := if inside.error.Some? then [] else rest.entries;
    if names == own && items.kind == Directory && items.described && below == items.below {
      k := 0;
      FollowsFirst(walk, entry, inside, last);
    } else if items.kind == Directory && items.described && items.below.Readable? && Enters(items.below.items, own, names, below) {
      var j := FollowedByItsOwn(items.below.items, own, names, below);
      k := 1 + j;
      ReadableYields(items.below, own);
      FollowsWithin(walk, [entry], inside, last, j, EntryAt(names, Directory), PreOrderOf(below, names));
    } else {
      var j := FollowedByItsOwn(items.rest, above, names, below);
      k := |[entry] + inside.entries| + j;
      assert walk.entries == ([entry] + inside.entries) + rest.entries + [];
      FollowsWithin(walk, [entry] + inside.entries, rest, [], j, EntryAt(names, Directory), PreOrderOf(below, names));
    }
  }

  lemma ReadableYields(dir: Dir, above: seq<Bytes>)
    requires dir.Readable?
    ensures PreOrderOf(dir, above) == PreOrder(dir.items, above)
  {
  }

  /** The entry is at the top, or lies directly in a directory yielded before it. */
  ghost predicate Under(entries: seq<WalkEntry>, k: nat, top: Bytes, depth: nat)
    requires k < |entries|
  {
    || (entries[k].depth == depth && entries[k].relativePath == Join(top, entries[k].name))
    || exists j :: 0 <= j < k && DirectlyIn(entries[k], entries[j])
  }

  predicate DirectlyIn(entry: WalkEntry, directory: WalkEntry) {
    && directory.kind == Directory && directory.depth + 1 == entry.depth
    && entry.relativePath == Join(directory.relativePath, entry.name)
  }

  ghost predicate AllUnder(entries: seq<WalkEntry>, top: Bytes, depth: nat) {
    forall k :: 0 <= k < |entries| ==> Under(entries, k, top, depth)
  }

  /** Every entry deeper than the top lies directly in a directory yielded before it. */
  lemma {:induction false} EntriesUnder(items: Items, above: seq<Bytes>)
    ensures AllUnder(PreOrder(items, above).entries, Escaped(JoinNames(above)), |above| + 1)
  {
    if items.Item? {
      var own := above + [items.name];
      EntriesUnder(items.rest, above);
      if items.below.Readable? {
        EntriesUnder(items.below.items, own);
      }
      ItemYields(items, above);
      JoinOne(above, items.name);
      var inside := if items.kind == Directory && items.described then PreOrderOf(items.below, own) else NOTHING;
      var entry := EntryAt(own, items.kind);
      hide PreOrder, PreOrderOf, Escaped, JoinNames, Join;
      UnderItem(entry, inside.entries, if inside.error.Some? then [] else PreOrder(items.rest, above).entries,
                Escaped(JoinNames(above)), |above| + 1);
    }
  }

  lemma UnderItem(entry: WalkEntry, inside: seq<WalkEntry>, rest: seq<WalkEntry>, top: Bytes, depth: nat)
    requires entry.depth == depth && entry.relativePath == Join(top, entry.name) && (inside != [] ==> entry.kind == Directory)
    requires AllUnder(inside, entry.relativePath, depth + 1) && AllUnder(rest, top, depth)
    ensures AllUnder([entry] + inside + rest, top, depth)
  {
    var all := [entry] + inside + rest;
    hide Join;
    forall k | 0 <= k < |all|
      ensures Under(all, k, top, depth)
    {
      if 1 <= k < 1 + |inside| {
        assert all[k] == inside[k - 1] && Under(inside, k - 1, entry.relativePath, depth + 1);
        if j :| 0 <= j < k - 1 && DirectlyIn(inside[k - 1], inside[j]) {
          assert all[j + 1] == inside[j];
        } else {
          assert DirectlyIn(all[k], all[0]);
        }
      } else if k >= 1 + |inside| {
        var m := k - 1 - |inside|;
        assert all[k] == rest[m] && Under(rest, m, top, depth);
        if j :| 0 <= j < m && DirectlyIn(rest[m], rest[j]) {
          assert all[1 + |inside| + j] == rest[j];
        }
      }
    }
  }
}
