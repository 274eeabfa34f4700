/** PendingChanges of PendingCollection.cpp as a value: its items, the most recently linked first. */
module PendingModel {
  import opened CookieName
  import opened Filters
  import opened RadixTree

  datatype Flags = Flags(recursive: bool, crawlOnly: bool, nonrecursiveScan: bool, viaNotify: bool, isDesynced: bool)

  datatype Item = Item(path: Path, now: int, flags: Flags)

  /** A recursive entry whose stat has not been done yet obsoletes what lies below it. */
  predicate Sweeping(f: Flags) { f.recursive && !f.crawlOnly }

  /** is_path_prefix for a key that is a string prefix of the path. */
  predicate IsPathPrefix(path: Path, key: Path) {
    |key| <= |path| && (|key| == |path| || path[|key|] == '/')
  }

  /** The path lies strictly below the directory; foo/bard does not lie below foo/bar. */
  predicate Below(path: Path, dir: Path) { dir <= path && |dir| < |path| && IsPathPrefix(path, dir) }

  lemma BelowIsTransitive(a: Path, b: Path, c: Path)
    requires Below(a, b) && Below(b, c)
    ensures Below(a, c)
  {}

  ghost function Paths(items: seq<Item>): set<Path> { set e | e in items :: e.path }

  ghost predicate Unique(items: seq<Item>) {
    forall i, j :: 0 <= i < j < |items| ==> items[i].path != items[j].path
  }

  // ----- Pruning

  predicate Prunable(e: Item, path: Path) {
    !e.flags.crawlOnly && Below(e.path, path) && !PossiblyACookie(e.path)
  }

  function NotPrunable(path: Path): Item -> bool { (e: Item) => !Prunable(e, path) }

  /** maybePruneObsoletedChildren */
  ghost function Pruned(items: seq<Item>, path: Path, flags: Flags): (r: seq<Item>)
    ensures forall e :: e in r ==> e in items
    ensures forall e :: e in items && e !in r ==> Sweeping(flags) && Prunable(e, path)
    ensures Sweeping(flags) ==> forall e :: e in r ==> !Prunable(e, path)
    ensures Unique(items) ==> Unique(r)
  {
    if Sweeping(flags) then
      assert Unique(items) ==> Unique(Filter(items, NotPrunable(path))) by {
        if Unique(items) { FilterKeepsUnique(items, NotPrunable(path)); }
      }
      Filter(items, NotPrunable(path))
    else items
  }

  lemma FilterKeepsUnique(items: seq<Item>, keep: Item -> bool)
    requires Unique(items)
    ensures Unique(Filter(items, keep))
  {
    var apart := (d: Item, e: Item) => d.path != e.path;
    assert Pairwise(items, apart);
    FilterPairwise(items, keep, apart);
    var r := Filter(items, keep);
    assert forall i, j :: 0 <= i < j < |r| ==> apart(r[i], r[j]);
  }

  // ----- Adding

  function Merged(a: Flags, b: Flags): Flags {
    Flags(a.recursive || b.recursive, a.crawlOnly || b.crawlOnly, a.nonrecursiveScan || b.nonrecursiveScan,
          a.viaNotify, a.isDesynced || b.isDesynced)
  }

  ghost function IndexOf(items: seq<Item>, path: Path): (i: nat)
    requires path in Paths(items)
    ensures i < |items| && items[i].path == path
  {
    if items[0].path == path then 0
    else
      assert forall e :: e in items ==> e == items[0] || e in items[1..];
      1 + IndexOf(items[1..], path)
  }

  /** The flags of the item at position i are strengthened. */
  ghost function Strengthened(items: seq<Item>, i: nat, flags: Flags): (r: seq<Item>)
    requires i < |items|
    ensures Unique(items) ==> Unique(r)
    ensures Paths(r) == Paths(items)
  {
    var r := items[i := items[i].(flags := Merged(items[i].flags, flags))];
    assert Paths(r) == Paths(items) by {
      forall e | e in items
        ensures e.path in Paths(r)
      {
        var j :| 0 <= j < |items| && items[j] == e;
        assert r[j] in r;
      }
      assert items[i] in items;
    }
    r
  }

  /** consolidateItem */
  ghost function Consolidated(items: seq<Item>, i: nat, flags: Flags): (r: seq<Item>)
    requires i < |items|
    ensures Unique(items) ==> Unique(r)
  {
    var s := Strengthened(items, i, flags);
    Pruned(s, s[i].path, s[i].flags)
  }

  /** isObsoletedByContainingDir */
  ghost predicate Obsolete(items: seq<Item>, path: Path) {
    var m := LongestMatch(Paths(items), path);
    && m.Some? && m.value in Paths(items)
    && Sweeping(items[IndexOf(items, m.value)].flags) && IsPathPrefix(path, m.value)
    && !PossiblyACookie(path)
  }

  /** add, and one turn of the loop of append. */
  ghost function Added(items: seq<Item>, e: Item): (r: seq<Item>)
    ensures Unique(items) ==> Unique(r)
  {
    if e.path in Paths(items) then Consolidated(items, IndexOf(items, e.path), e.flags)
    else if Obsolete(items, e.path) then items
    else
      var rest := Pruned(items, e.path, e.flags);
      assert forall j :: 0 <= j < |rest| ==> rest[j] in rest && rest[j].path in Paths(items);
      [e] + rest
  }

  ghost function AddedAll(items: seq<Item>, chain: seq<Item>): (r: seq<Item>)
    ensures Unique(items) ==> Unique(r)
    decreases chain
  {
    if chain == [] then items else AddedAll(Added(items, chain[0]), chain[1..])
  }
}
