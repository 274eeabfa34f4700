/** What a collection of pending changes keeps over every run of adds, appends, steals and clears. */
module PendingRuns {
  import opened CookieName
  import opened PendingModel
  import opened RadixTree
  import Runs

  // ----- Coverage

  /** Processing the item takes care of the path. */
  predicate Covers(e: Item, path: Path) {
    e.path == path || (e.flags.recursive && Below(path, e.path))
  }

  ghost predicate Covered(items: seq<Item>, path: Path) { exists e :: e in items && Covers(e, path) }

  lemma PruneKeepsCover(items: seq<Item>, top: Item, path: Path)
    requires Covered(items, path) && top in items
    ensures Covered(Pruned(items, top.path, top.flags), path)
  {
    hide Pruned, Unique;
    var r := Pruned(items, top.path, top.flags);
    assert top in r;
    var e :| e in items && Covers(e, path);
    if e !in r {
      if e.path != path { BelowIsTransitive(path, e.path, top.path); }
      assert Covers(top, path);
    }
  }

  lemma StrengthenKeepsCover(items: seq<Item>, i: nat, flags: Flags, path: Path)
    requires Covered(items, path) && i < |items|
    ensures Covered(Strengthened(items, i, flags), path)
  {
    var e :| e in items && Covers(e, path);
    var j :| 0 <= j < |items| && items[j] == e;
    var r := Strengthened(items, i, flags);
    assert r[j] in r && Covers(r[j], path);
  }

  lemma AddKeepsCover(items: seq<Item>, e: Item, path: Path)
    requires Covered(items, path)
    ensures Covered(Added(items, e), path)
  {
    hide Pruned, Strengthened, Obsolete, Covered;
    if e.path in Paths(items) {
      var i := IndexOf(items, e.path);
      var s := Strengthened(items, i, e.flags);
      StrengthenKeepsCover(items, i, e.flags, path);
      SameLength(items, i, e.flags);
      PruneKeepsCover(s, s[i], path);
    } else if !Obsolete(items, e.path) {
      LinkKeepsCover(items, e, path);
    }
  }

  lemma SameLength(items: seq<Item>, i: nat, flags: Flags)
    requires i < |items|
    ensures |Strengthened(items, i, flags)| == |items|
    ensures Strengthened(items, i, flags)[i].path == items[i].path
  {}

  lemma LinkKeepsCover(items: seq<Item>, e: Item, path: Path)
    requires Covered(items, path)
    ensures Covered([e] + Pruned(items, e.path, e.flags), path)
  {
    hide Pruned;
    var rest := Pruned(items, e.path, e.flags);
    var d :| d in items && Covers(d, path);
    if d in rest {
      assert d in [e] + rest;
    } else {
      if d.path != path { BelowIsTransitive(path, d.path, e.path); }
      assert e in [e] + rest && Covers(e, path);
    }
  }

  /** The path just added is in the collection, or below a recursive entry of it. */
  lemma AddCovers(items: seq<Item>, e: Item)
    ensures Covered(Added(items, e), e.path)
    ensures PossiblyACookie(e.path) ==> e.path in Paths(Added(items, e))
  {
    hide Pruned, Strengthened, LongestMatch;
    if e.path in Paths(items) {
      var i := IndexOf(items, e.path);
      var s := Strengthened(items, i, e.flags);
      SameLength(items, i, e.flags);
      assert s[i] in s && s[i] in Pruned(s, s[i].path, s[i].flags);
      assert Covers(s[i], e.path);
    } else if Obsolete(items, e.path) {
      ObsoleteIsBelow(items, e.path);
    } else {
      assert e in Added(items, e) && Covers(e, e.path);
    }
  }

  lemma ObsoleteIsBelow(items: seq<Item>, path: Path)
    requires path !in Paths(items) && Obsolete(items, path)
    ensures exists d :: d in items && Sweeping(d.flags) && Below(path, d.path)
                        && LonePrefix(Paths(items), path, d.path)
  {
    hide LongestMatch, LonePrefix;
    var k := LongestMatch(Paths(items), path).value;
    LongestMatchIsExact(Paths(items), path, k);
    LoneIsPrefix(Paths(items), path, k);
    var d := items[IndexOf(items, k)];
    assert d in items && Below(path, d.path);
  }

  lemma LoneIsPrefix(keys: set<Path>, path: Path, k: Path)
    requires LonePrefix(keys, path, k) && path !in keys
    ensures k <= path && k != path && |k| < |path|
  {}

  // ----- Cookies

  /** An entry that may be a cookie is never merged away. */
  lemma AddKeepsCookie(items: seq<Item>, e: Item, path: Path)
    requires path in Paths(items) && PossiblyACookie(path)
    ensures path in Paths(Added(items, e))
  {
    hide Pruned, Strengthened, Obsolete, PossiblyACookie;
    if e.path in Paths(items) {
      var i := IndexOf(items, e.path);
      var s := Strengthened(items, i, e.flags);
      SameLength(items, i, e.flags);
      var d :| d in s && d.path == path;
      assert d in Pruned(s, s[i].path, s[i].flags);
    } else if !Obsolete(items, e.path) {
      var d :| d in items && d.path == path;
      assert d in Pruned(items, e.path, e.flags);
      assert d in Added(items, e);
    }
  }

  // ----- Flags

  /** Everything `asked` asks for is set in `have`; VIA_NOTIFY is a fact about the entry, not a request. */
  predicate Honours(have: Flags, asked: Flags) {
    && (asked.recursive ==> have.recursive) && (asked.crawlOnly ==> have.crawlOnly)
    && (asked.nonrecursiveScan ==> have.nonrecursiveScan) && (asked.isDesynced ==> have.isDesynced)
  }

  /** An entry keeps all it was asked for and where it came from, and asks for nothing nobody asked for. */
  lemma AddHonoursFlags(items: seq<Item>, e: Item, d: Item)
    requires Unique(items) && d in Added(items, e)
    ensures d.path == e.path ==> Honours(d.flags, e.flags)
    ensures d == e || exists o :: o in items && o.path == d.path && o.now == d.now
                                  && o.flags.viaNotify == d.flags.viaNotify && Honours(d.flags, o.flags)
                                  && Honours(Merged(o.flags, if d.path == e.path then e.flags else o.flags), d.flags)
  {
    hide Pruned, Obsolete, Unique;
    if e.path in Paths(items) {
      var i := IndexOf(items, e.path);
      var s := Strengthened(items, i, e.flags);
      assert d in s;
      var j :| 0 <= j < |s| && s[j] == d;
      assert items[j] in items;
      assert s[i].path == items[i].path;
      if d.path == e.path { SamePosition(s, items, i, j); }
    } else if d != e {
      assert d in items;
    }
  }

  lemma SamePosition(s: seq<Item>, items: seq<Item>, i: nat, j: nat)
    requires Unique(items) && |s| == |items| && i < |s| && j < |s| && s[j].path == s[i].path
    requires forall k :: 0 <= k < |s| ==> s[k].path == items[k].path
    ensures i == j
  {}

  // ----- What an add takes out and what it skips

  /** The path continues the directory's name with a slash. */
  ghost predicate Inside(path: Path, dir: Path) { exists more :: path == dir + "/" + more }

  ghost predicate Marked(path: Path) { exists i: nat :: MarkedAt(path, i) }

  lemma BelowIsInside(path: Path, dir: Path)
    ensures Below(path, dir) <==> Inside(path, dir)
  {
    if Below(path, dir) { assert path == dir + "/" + path[|dir| + 1..]; }
  }

  /** An add takes out exactly the other entries inside the path that are not crawl-only and hold no cookie marker, and
      those only if the path ends up with an entry that is recursive and not crawl-only. */
  lemma AddTakesExactly(items: seq<Item>, e: Item, d: Item)
    requires Unique(items) && d in items && d.path != e.path
    ensures d !in Added(items, e) <==>
              && (exists t :: t in Added(items, e) && t.path == e.path && t.flags.recursive && !t.flags.crawlOnly)
              && Inside(d.path, e.path) && !d.flags.crawlOnly && !Marked(d.path)
  {
    hide Pruned, Obsolete, Below;
    BelowIsInside(d.path, e.path);
    MarkerIsFound(d.path);
    NotBelowItself(e.path);
    if e.path in Paths(items) {
      var i := IndexOf(items, e.path);
      var s := Strengthened(items, i, e.flags);
      OthersStay(items, i, e.flags, d);
      assert s[i].path == e.path && s[i] in s && s[i] in Added(items, e);
      forall t | t in Added(items, e) && t.path == e.path ensures t == s[i] { ItemIsUnique(s, t, s[i]); }
    } else if !Obsolete(items, e.path) {
      var rest := Pruned(items, e.path, e.flags);
      assert e in Added(items, e);
      assert forall t :: t in rest ==> t in items && t.path in Paths(items);
    } else {
      assert forall t :: t in items ==> t.path in Paths(items);
    }
  }

  lemma OthersStay(items: seq<Item>, i: nat, flags: Flags, d: Item)
    requires i < |items| && d in items && d.path != items[i].path
    ensures d in Strengthened(items, i, flags)
  {
    var j :| 0 <= j < |items| && items[j] == d;
    assert Strengthened(items, i, flags)[j] == d;
  }

  /** An add of a new path is skipped, and then changes nothing, if and only if the path holds no cookie marker and is
      inside a recursive entry, not crawl-only, whose name no other entry extends. */
  lemma AddSkipsExactly(items: seq<Item>, e: Item)
    requires Unique(items) && e.path !in Paths(items)
    ensures e.path !in Paths(Added(items, e)) <==>
              && !Marked(e.path)
              && exists d :: && d in items && d.path != "" && d.flags.recursive && !d.flags.crawlOnly
                             && Inside(e.path, d.path) && forall o :: o in items && d.path <= o.path ==> o == d
    ensures e.path !in Paths(Added(items, e)) ==> Added(items, e) == items
  {
    hide Pruned, Below, LongestMatch, Unique, Obsolete;
    MarkerIsFound(e.path);
    if Obsolete(items, e.path) {
      ObsoleteIsBelow(items, e.path);
      var d :| d in items && Sweeping(d.flags) && Below(e.path, d.path) && LonePrefix(Paths(items), e.path, d.path);
      BelowIsInside(e.path, d.path);
      forall o | o in items && d.path <= o.path
        ensures o == d
      {
        assert o.path in Paths(items);
        ItemIsUnique(items, o, d);
      }
      ObsoleteIsUnmarked(items, e.path);
    } else {
      assert e in Added(items, e);
      if d :| && d in items && d.path != "" && Sweeping(d.flags)
              && Inside(e.path, d.path) && forall o :: o in items && d.path <= o.path ==> o == d {
        BelowIsInside(e.path, d.path);
        LoneObsoletes(items, e.path, d);
      }
    }
  }

  lemma ObsoleteIsUnmarked(items: seq<Item>, path: Path)
    requires Obsolete(items, path)
    ensures !PossiblyACookie(path)
  {}

  lemma LoneObsoletes(items: seq<Item>, path: Path, d: Item)
    requires Unique(items) && path !in Paths(items) && d in items && d.path != "" && Sweeping(d.flags)
    requires Below(path, d.path) && forall o :: o in items && d.path <= o.path ==> o == d
    ensures Obsolete(items, path) <==> !PossiblyACookie(path)
  {
    hide LongestMatch, PossiblyACookie;
    LongestMatchIsExact(Paths(items), path, d.path);
    assert d.path in Paths(items);
    var at := items[IndexOf(items, d.path)];
    assert at in items;
    ItemIsUnique(items, at, d);
  }

  // ----- Runs

  /** `added`: the paths handed in since the items were last stolen or cleared. */
  datatype World = World(items: seq<Item>, added: set<Path>)

  datatype Op = Add(e: Item) | Append(chain: seq<Item>) | Steal | Clear

  ghost predicate Next(w: World, op: Op, x: World) {
    match op
    case Add(e) => x == World(Added(w.items, e), w.added + {e.path})
    case Append(chain) => x == World(AddedAll(w.items, chain), w.added + Paths(chain))
    case Steal => x == World([], {})
    case Clear => x == World([], {})
  }

  ghost predicate Kept(items: seq<Item>, added: set<Path>) {
    forall p :: p in added ==> Covered(items, p) && (PossiblyACookie(p) ==> p in Paths(items))
  }

  ghost predicate Complete(w: World) { Unique(w.items) && Kept(w.items, w.added) }

  lemma AddKeeps(items: seq<Item>, added: set<Path>, e: Item)
    requires Kept(items, added)
    ensures Kept(Added(items, e), added + {e.path})
  {
    hide Added, Covered, PossiblyACookie, Paths;
    AddCovers(items, e);
    forall p | p in added
      ensures Covered(Added(items, e), p) && (PossiblyACookie(p) ==> p in Paths(Added(items, e)))
    {
      AddKeepsCover(items, e, p);
      if PossiblyACookie(p) { AddKeepsCookie(items, e, p); }
    }
  }

  lemma {:induction false} AppendKeeps(items: seq<Item>, added: set<Path>, chain: seq<Item>)
    requires Kept(items, added)
    ensures Kept(AddedAll(items, chain), added + Paths(chain))
    decreases chain
  {
    hide Added, Kept;
    if chain == [] {
      assert added + Paths(chain) == added;
    } else {
      AddKeeps(items, added, chain[0]);
      AppendKeeps(Added(items, chain[0]), added + {chain[0].path}, chain[1..]);
      assert forall e :: e in chain <==> e == chain[0] || e in chain[1..];
      assert added + {chain[0].path} + Paths(chain[1..]) == added + Paths(chain);
    }
  }

  /** In every run each path stays covered and each possible cookie stays an entry of its own, until the
      items are stolen or cleared. */
  lemma NothingIsLost(b: seq<World>, ops: seq<Op>, i: nat)
    requires Runs.Joined(b, ops, Next) && b[0] == World([], {}) && i < |b|
    ensures Complete(b[i])
  {
    forall w, op, x | Complete(w) && Next(w, op, x)
      ensures Complete(x)
    {
      CompleteStep(w, op, x);
    }
    Runs.Throughout(b, ops, Complete, Next, i);
  }

  lemma CompleteStep(w: World, op: Op, x: World)
    requires Complete(w) && Next(w, op, x)
    ensures Complete(x)
  {
    hide Added, AddedAll, Covered, Paths, PossiblyACookie;
    match op
    case Add(e) => AddKeeps(w.items, w.added, e);
    case Append(chain) => AppendKeeps(w.items, w.added, chain);
    case _ =>
  }

  // ----- Nothing below a recursive entry

  predicate PlainItem(e: Item) { !e.flags.crawlOnly && !PossiblyACookie(e.path) }

  ghost predicate Plain(items: seq<Item>) { forall e :: e in items ==> PlainItem(e) }

  /** No entry lies strictly below a recursive one. */
  ghost predicate Flat(items: seq<Item>) {
    forall d, e :: d in items && e in items && d.flags.recursive ==> !Below(e.path, d.path)
  }

  /** A recursive entry contains the path, but longestMatch cannot stop at it: another key extends its name, as
      foo/bard extends foo/bar. */
  ghost predicate Shadowed(items: seq<Item>, path: Path) {
    path !in Paths(items)
    && exists d :: d in items && d.flags.recursive && Below(path, d.path) && !LonePrefix(Paths(items), path, d.path)
  }

  lemma ConsolidateKeepsFlat(items: seq<Item>, i: nat, flags: Flags)
    requires i < |items| && Unique(items) && Plain(items) && Flat(items) && !flags.crawlOnly
    ensures Flat(Consolidated(items, i, flags)) && Plain(Consolidated(items, i, flags))
  {
    hide Pruned, Below, PossiblyACookie;
    var s := Strengthened(items, i, flags);
    assert forall e :: e in s ==> e == s[i] || e in items;
    assert s[i].path == items[i].path && items[i] in items;
    var r := Pruned(s, s[i].path, s[i].flags);
    assert forall d, e :: d in s && e in s && d.flags.recursive && Below(e.path, d.path) ==> d == s[i];
    assert forall e :: e in s && Below(e.path, s[i].path) ==> Prunable(e, s[i].path);
  }

  /** With a recursive entry above the path, the add is skipped if and only if that entry is a lone prefix. */
  lemma ObsoleteWhenLone(items: seq<Item>, path: Path, d: Item)
    requires Unique(items) && Flat(items) && Plain(items) && path !in Paths(items) && !PossiblyACookie(path)
    requires d in items && d.flags.recursive && Below(path, d.path)
    ensures Obsolete(items, path) <==> LonePrefix(Paths(items), path, d.path)
  {
    hide LongestMatch, LonePrefix, PossiblyACookie;
    if LonePrefix(Paths(items), path, d.path) {
      LongestMatchIsExact(Paths(items), path, d.path);
      assert items[IndexOf(items, d.path)] in items;
      ItemIsUnique(items, items[IndexOf(items, d.path)], d);
    }
    if Obsolete(items, path) {
      ObsoleteIsBelow(items, path);
      var o :| o in items && Sweeping(o.flags) && Below(path, o.path) && LonePrefix(Paths(items), path, o.path);
      BothAbove(path, d.path, o.path);
    }
  }

  lemma ItemIsUnique(items: seq<Item>, d: Item, e: Item)
    requires Unique(items) && d in items && e in items && d.path == e.path
    ensures d == e
  {}

  /** Of two directories above a path one contains the other. */
  lemma BothAbove(path: Path, d: Path, e: Path)
    requires Below(path, d) && Below(path, e)
    ensures d == e || Below(d, e) || Below(e, d)
  {
    assert d == path[..|d|] && e == path[..|e|];
  }

  lemma LinkIsFlat(items: seq<Item>, e: Item)
    requires Plain(items) && Flat(items) && PlainItem(e)
    ensures var r := [e] + Pruned(items, e.path, e.flags);
            Plain(r) && (Flat(r) <==> forall d :: d in items && d.flags.recursive ==> !Below(e.path, d.path))
  {
    hide Pruned, PossiblyACookie;
    var rest := Pruned(items, e.path, e.flags);
    var r := [e] + rest;
    assert forall d :: d in r <==> d == e || d in rest;
    forall d | d in items && d.flags.recursive && Below(e.path, d.path)
      ensures d in r && !Flat(r)
    {
      assert !Prunable(d, e.path);
      assert d in r && e in r;
    }
  }

  /** An add keeps the collection flat if and only if the path is not shadowed. */
  lemma AddIsFlat(items: seq<Item>, e: Item)
    requires Unique(items) && Plain(items) && Flat(items) && PlainItem(e)
    ensures Flat(Added(items, e)) <==> !Shadowed(items, e.path)
    ensures Plain(Added(items, e))
  {
    hide Consolidated, Pruned, Flat, Plain, LonePrefix, Below, Obsolete, Unique;
    if e.path in Paths(items) {
      ConsolidateKeepsFlat(items, IndexOf(items, e.path), e.flags);
    } else {
      LinkIsFlat(items, e);
      forall d | d in items && d.flags.recursive && Below(e.path, d.path)
        ensures Obsolete(items, e.path) <==> LonePrefix(Paths(items), e.path, d.path)
      {
        ObsoleteWhenLone(items, e.path, d);
      }
      if Obsolete(items, e.path) { ObsoleteIsBelow(items, e.path); }
    }
  }

  /** foo/bar is to be crawled, foo/bard and then foo/bar/x are added: foo/bar/x is linked all the same. */
  lemma SiblingShadowsDirectory() returns (b: seq<World>, ops: seq<Op>)
    ensures Runs.Joined(b, ops, Next) && b[0] == World([], {}) && |ops| == 3
    ensures forall i :: 0 <= i < 3 ==> ops[i].Add? && PlainItem(ops[i].e)
    ensures Flat(b[2].items) && !Flat(b[3].items)
  {
    hide Added, PossiblyACookie, Below, Flat;
    var f := Flags(false, false, false, false, false);
    var bar, bard := Item("foo/bar", 0, f.(recursive := true)), Item("foo/bard", 0, f);
    var x := Item("foo/bar/x", 0, f);
    NotCookies();
    SiblingExtends();
    FirstAdd(bar);
    SecondAdd(bar, bard);
    var items := [bard, bar];
    b := [World([], {}), World([bar], {bar.path}), World(items, {bar.path} + {bard.path}),
          World(Added(items, x), {bar.path} + {bard.path} + {x.path})];
    ops := [Add(bar), Add(bard), Add(x)];
    assert Next(b[0], ops[0], b[1]) && Next(b[1], ops[1], b[2]) && Next(b[2], ops[2], b[3]);
    PairIsFlat(bard, bar);
    assert items[0] in items && items[1] in items && bard.path in Paths(items);
    assert Shadowed(items, x.path);
    AddIsFlat(items, x);
  }

  lemma FirstAdd(e: Item)
    ensures Added([], e) == [e]
  {
    assert Paths([]) == {};
    var r := Pruned([], e.path, e.flags);
    assert forall d :: d in r ==> d in [];
  }

  lemma SecondAdd(d: Item, e: Item)
    requires e.path != d.path && !Below(e.path, d.path) && !Sweeping(e.flags)
    ensures Added([d], e) == [e, d]
  {
    hide Obsolete, Below;
    if Obsolete([d], e.path) {
      ObsoleteIsBelow([d], e.path);
      assert false;
    }
  }

  lemma PairIsFlat(d: Item, e: Item)
    requires d.path != e.path && !Below(d.path, e.path) && !Below(e.path, d.path) && PlainItem(d) && PlainItem(e)
    ensures Unique([d, e]) && Plain([d, e]) && Flat([d, e])
  {
    NotBelowItself(d.path);
    NotBelowItself(e.path);
  }

  lemma NotBelowItself(p: Path)
    ensures !Below(p, p)
  {}

  lemma SiblingExtends()
    ensures "foo/bar" <= "foo/bard" && |"foo/bard"| == 8 && |"foo/bar"| == 7
    ensures Below("foo/bar/x", "foo/bar") && !Below("foo/bard", "foo/bar") && !Below("foo/bar", "foo/bard")
    ensures "foo/bar/x" != "foo/bard" && "foo/bar/x" != "foo/bar"
  {
    assert "foo/bard"[7] == 'd' && "foo/bar/x"[7] == '/';
  }

  lemma NotCookies()
    ensures !PossiblyACookie("foo/bard") && !PossiblyACookie("foo/bar") && !PossiblyACookie("foo/bar/x")
  {
    TooShort("foo/bard");
    TooShort("foo/bar");
    TooShort("foo/bar/x");
  }

  lemma TooShort(path: Path)
    ensures |path| < |COOKIE_PREFIX| ==> !PossiblyACookie(path)
  {}

  // ----- Runs that stay flat

  ghost predicate Unshadowed(items: seq<Item>, chain: seq<Item>)
    decreases chain
  {
    chain != [] ==> PlainItem(chain[0]) && !Shadowed(items, chain[0].path)
                    && Unshadowed(Added(items, chain[0]), chain[1..])
  }

  /** Additions without CRAWL_ONLY, cookies or shadowed paths. */
  ghost predicate PlainNext(w: World, op: Op, x: World) {
    && Next(w, op, x)
    && (op.Add? ==> PlainItem(op.e) && !Shadowed(w.items, op.e.path))
    && (op.Append? ==> Unshadowed(w.items, op.chain))
  }

  ghost predicate FlatWorld(w: World) { Unique(w.items) && Plain(w.items) && Flat(w.items) }

  lemma {:induction false} AppendIsFlat(items: seq<Item>, chain: seq<Item>)
    requires Unique(items) && Plain(items) && Flat(items) && Unshadowed(items, chain)
    ensures Plain(AddedAll(items, chain)) && Flat(AddedAll(items, chain))
    decreases chain
  {
    hide Flat, Plain, Unique, Added, Shadowed;
    if chain != [] {
      AddIsFlat(items, chain[0]);
      AppendIsFlat(Added(items, chain[0]), chain[1..]);
    }
  }

  /** In every such run no entry ever lies strictly below a recursive one. */
  lemma RunIsFlat(b: seq<World>, ops: seq<Op>, i: nat)
    requires Runs.Joined(b, ops, PlainNext) && b[0] == World([], {}) && i < |b|
    ensures Flat(b[i].items)
  {
    forall w, op, x | FlatWorld(w) && PlainNext(w, op, x)
      ensures FlatWorld(x)
    {
      FlatStep(w, op, x);
    }
    Runs.Throughout(b, ops, FlatWorld, PlainNext, i);
  }

  lemma FlatStep(w: World, op: Op, x: World)
    requires FlatWorld(w) && PlainNext(w, op, x)
    ensures FlatWorld(x)
  {
    hide Added, AddedAll, Shadowed;
    match op
    case Add(e) => AddIsFlat(w.items, e);
    case Append(chain) => AppendIsFlat(w.items, chain);
    case _ =>
  }
}
