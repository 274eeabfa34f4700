/** PendingChanges on the heap: a radix tree and a doubly linked list that hold the same nodes. */
module PendingChanges {
  import opened CookieName
  import opened Filters
  import opened Options
  import opened PendingModel
  import opened RadixTree

  class Node {
    const path: Path
    const now: int
    var flags: Flags
    var next: Node?
    var prev: Node?

    constructor (path: Path, now: int, flags: Flags)
      ensures this.path == path && this.now == now && this.flags == flags && next == null && prev == null
    {
      this.path, this.now, this.flags, next, prev := path, now, flags, null, null;
    }

    ghost function Value(): Item
      reads this`flags
    {
      Item(path, now, flags)
    }
  }

  ghost predicate NoDup(s: seq<Node>) { forall i, j :: 0 <= i < j < |s| ==> s[i] != s[j] }

  ghost function IndexOfNode(s: seq<Node>, n: Node): (i: nat)
    requires n in s
    ensures i < |s| && s[i] == n
  {
    if s[0] == n then 0 else 1 + IndexOfNode(s[1..], n)
  }

  lemma RemovalKeepsDistinct(s: seq<Node>, i: nat)
    requires NoDup(s) && i < |s|
    ensures NoDup(s[..i] + s[i + 1..])
    ensures forall j, k {:trigger s[j], s[k]} :: 0 <= j < |s| && 0 <= k < |s| && s[j] == s[k] ==> j == k
  {}

  class PendingChanges {
    var pending: Node?
    var tree: map<Path, Node>
    ghost var contents: seq<Node>
    ghost var items: seq<Item>

    ghost function NodeAt(i: int): Node?
      reads this`contents
    {
      if 0 <= i < |contents| then contents[i] else null
    }

    /** The links spell `contents`, forward and backward. */
    ghost predicate Linked()
      reads this`pending, this`contents, contents`next, contents`prev
    {
      && NoDup(contents)
      && pending == NodeAt(0)
      && (forall i {:trigger contents[i].next} :: 0 <= i < |contents| ==> contents[i].next == NodeAt(i + 1))
      && (forall i {:trigger contents[i].prev} :: 0 <= i < |contents| ==> contents[i].prev == NodeAt(i - 1))
    }

    ghost predicate Shown()
      reads this`items, this`contents, contents`flags
    {
      |items| == |contents| && forall i {:trigger items[i]} :: 0 <= i < |items| ==> items[i] == contents[i].Value()
    }

    /** The tree holds the nodes of the list and no others, each under its path. */
    ghost predicate Filed()
      reads this`tree, this`contents
    {
      && (forall p :: p in tree ==> tree[p].path == p && tree[p] in contents)
      && (forall n :: n in contents ==> n.path in tree && tree[n.path] == n)
    }

    ghost predicate Valid()
      reads this, contents
    {
      Linked() && Shown() && Filed() && Unique(items)
    }

    constructor ()
      ensures Valid() && items == []
    {
      pending, tree, contents, items := null, map[], [], [];
    }

    lemma SamePaths()
      requires Shown() && Filed()
      ensures tree.Keys == Paths(items)
    {
      forall p | p in tree
        ensures p in Paths(items)
      {
        assert items[IndexOfNode(contents, tree[p])] in items;
      }
      forall e | e in items
        ensures e.path in tree
      {
        var j :| 0 <= j < |items| && items[j] == e;
        assert contents[j] in contents;
      }
    }

    // ----- The list

    method LinkHead(p: Node)
      requires Linked() && p !in contents
      modifies this`pending, this`contents, contents`prev, p`next, p`prev
      ensures Linked() && contents == [p] + old(contents)
    {
      ghost var c := contents;
      assert forall j :: 0 <= j < |c| ==> c[j] in c && c[j] != p;
      p.prev := null;
      p.next := pending;
      if p.next != null {
        p.next.prev := p;
      }
      pending := p;
      contents := [p] + contents;
      forall j | 0 <= j < |contents|
        ensures contents[j].next == NodeAt(j + 1) && contents[j].prev == NodeAt(j - 1)
      {
        if j > 0 {
          assert contents[j] == c[j - 1];
          assert c[j - 1].next == old(c[j - 1].next);
          assert j != 1 ==> c[j - 1].prev == old(c[j - 1].prev);
        }
      }
    }

    method UnlinkItem(p: Node, ghost i: nat)
      requires Linked() && i < |contents| && contents[i] == p
      modifies this`pending, this`contents, contents`next, contents`prev
      ensures Linked() && contents == old(contents)[..i] + old(contents)[i + 1..]
    {
      hide NoDup;
      ghost var c := contents;
      RemovalKeepsDistinct(c, i);
      assert p.next == NodeAt(i + 1) && p.prev == NodeAt(i - 1);
      assert pending == p <==> i == 0;
      if pending == p {
        pending := p.next;
      }
      if p.prev != null {
        p.prev.next := p.next;
      }
      if p.next != null {
        p.next.prev := p.prev;
      }
      p.next := null;
      p.prev := null;
      contents := contents[..i] + contents[i + 1..];
      assert pending == NodeAt(0);
      forall j | 0 <= j < |contents|
        ensures contents[j].next == NodeAt(j + 1) && contents[j].prev == NodeAt(j - 1)
      {
        var o := if j < i then j else j + 1;
        assert contents[j] == c[o];
        assert j + 1 != i ==> c[o].next == old(c[o].next);
        assert j != i ==> c[o].prev == old(c[o].prev);
      }
    }

    // ----- Pruning

    /** Unlinks a node and erases it from the tree. */
    method Drop(p: Node, ghost i: nat)
      requires Valid() && i < |contents| && contents[i] == p
      modifies this, contents`next, contents`prev
      ensures Valid() && contents == old(contents)[..i] + old(contents)[i + 1..]
      ensures items == old(items)[..i] + old(items)[i + 1..]
    {
      hide NoDup, PendingChanges.Linked;
      ghost var c, l := contents, items;
      DistinctNodes();
      UnlinkItem(p, i);
      tree := tree - {p.path};
      items := items[..i] + items[i + 1..];
      RemovalKeepsDistinct(c, i);
      assert forall n :: n in contents ==> n in c && n != p;
      DroppedShown(c, l, i);
    }

    lemma DistinctNodes()
      requires Linked()
      ensures NoDup(contents)
    {}

    lemma DroppedShown(c: seq<Node>, l: seq<Item>, i: nat)
      requires |c| == |l| && i < |l| && contents == c[..i] + c[i + 1..] && items == l[..i] + l[i + 1..]
      requires forall j {:trigger l[j]} :: 0 <= j < |l| ==> l[j] == c[j].Value()
      ensures Shown()
    {
      forall j | 0 <= j < |items|
        ensures items[j] == contents[j].Value()
      {
        var o := if j < i then j else j + 1;
        assert items[j] == l[o] && contents[j] == c[o];
      }
    }

    /** Repeats until a pass finds nothing to erase. */
    method MaybePruneObsoletedChildren(path: Path, flags: Flags)
      requires Valid()
      modifies this, contents`next, contents`prev
      ensures Valid() && items == Pruned(old(items), path, flags)
      ensures forall n :: n in contents ==> n in old(contents)
      ensures forall n :: n in old(contents) && !Prunable(n.Value(), path) ==> n in contents
    {
      hide PendingChanges.Valid, Prunable, Filter, NotPrunable;
      if flags.recursive && !flags.crawlOnly {
        var more := true;
        while more
          invariant Valid() && Filter(items, NotPrunable(path)) == Filter(old(items), NotPrunable(path))
          invariant !more ==> items == Filter(items, NotPrunable(path))
          invariant forall n :: n in contents ==> n in old(contents)
          invariant forall n :: n in old(contents) && !Prunable(n.Value(), path) ==> n in contents
          decreases |contents|, more
        {
          assert forall j :: 0 <= j < |contents| ==> contents[j] in contents && contents[j] in old(contents);
          more := PruneOne(path);
        }
      }
    }

    /** One pass: iterPrefix stops after the first erasure. */
    method PruneOne(path: Path) returns (more: bool)
      requires Valid()
      modifies this, contents`next, contents`prev
      ensures Valid() && Filter(items, NotPrunable(path)) == Filter(old(items), NotPrunable(path))
      ensures forall n :: n in contents ==> n in old(contents)
      ensures forall n :: n in old(contents) && !Prunable(n.Value(), path) ==> n in contents
      ensures if more then |contents| < |old(contents)| else items == Filter(items, NotPrunable(path))
      ensures !more ==> contents == old(contents)
    {
      hide PendingChanges.Linked, PendingChanges.Filed, Unique, Prunable, NoDup;
      var key := FindObsoleted(path);
      more := key.Some?;
      if more {
        ghost var c, i := contents, IndexOfNode(contents, tree[key.value]);
        FilterSkips(items, NotPrunable(path), i);
        Drop(tree[key.value], i);
        assert forall n :: n in c ==> n == c[i] || n in contents;
      } else {
        FilterAll(items, NotPrunable(path));
      }
    }

    /** iterPrefix with the pruning callback: stops at the first entry to erase. */
    method FindObsoleted(path: Path) returns (r: Option<Path>)
      requires Valid()
      ensures r.Some? ==> r.value in tree && tree[r.value] in contents && Prunable(tree[r.value].Value(), path)
      ensures r.None? ==> forall i :: 0 <= i < |items| ==> !Prunable(items[i], path)
    {
      if k :| k in tree && Prunable(Item(k, 0, tree[k].flags), path) {
        return Some(k);
      }
      r := None;
      forall i | 0 <= i < |items|
        ensures !Prunable(items[i], path)
      {
        assert contents[i] in contents && contents[i].path in tree;
      }
    }

    // ----- Adding

    /** The node of a path in the tree is the one at the path's position in the list. */
    lemma NodeOf(path: Path)
      requires Shown() && Filed() && path in tree
      ensures path in Paths(items) && contents[IndexOf(items, path)] == tree[path]
      ensures items[IndexOf(items, path)] == tree[path].Value()
    {
      SamePaths();
      var i := IndexOf(items, path);
      assert items[i] == contents[i].Value() && contents[i] in contents;
    }

    method ConsolidateItem(p: Node, flags: Flags)
      requires Valid() && p.path in tree && tree[p.path] == p
      modifies this, contents`next, contents`prev, p`flags
      ensures Valid() && p.path in Paths(old(items))
      ensures items == Consolidated(old(items), IndexOf(old(items), p.path), flags)
      ensures forall n :: n in contents ==> n in old(contents)
    {
      hide NoDup, Unique, Prunable, PendingChanges.Linked, PendingChanges.Filed;
      NodeOf(p.path);
      DistinctNodes();
      ghost var i := IndexOf(items, p.path);
      RemovalKeepsDistinct(contents, i);
      p.flags := Merged(p.flags, flags);
      items := Strengthened(items, i, flags);
      MaybePruneObsoletedChildren(p.path, p.flags);
    }

    method IsObsoletedByContainingDir(path: Path) returns (r: bool)
      requires Valid()
      ensures r == Obsolete(items, path)
    {
      hide LongestMatch, NoDup, Unique, PendingChanges.Linked;
      SamePaths();
      var leaf := FindLongestMatch(tree.Keys, path);
      if leaf.None? || leaf.value !in tree {
        return false;
      }
      NodeOf(leaf.value);
      var p := tree[leaf.value];
      if p.flags.recursive && !p.flags.crawlOnly && IsPathPrefix(path, leaf.value) {
        return !PossiblyACookie(path);
      }
      r := false;
    }

    /** Inserts an unlinked node in the tree and at the head of the list. */
    method Insert(p: Node)
      requires Valid() && p !in contents && p.path !in tree
      modifies this, contents`prev, p`next, p`prev
      ensures Valid() && contents == [p] + old(contents) && items == [p.Value()] + old(items)
    {
      hide NoDup, PendingChanges.Linked;
      SamePaths();
      tree := tree[p.path := p];
      LinkHead(p);
      items := [p.Value()] + items;
      assert forall j :: 0 <= j < |old(items)| ==> old(items)[j] in old(items);
    }

    method Add(path: Path, now: int, flags: Flags)
      requires Valid()
      modifies this, contents
      ensures Valid() && items == Added(old(items), Item(path, now, flags))
      ensures forall n :: n in contents ==> n in old(contents) || fresh(n)
    {
      hide NoDup, Unique, Obsolete, Consolidated, Pruned, PendingChanges.Linked, PendingChanges.Shown;
      PathsAgree();
      if path in tree {
        ConsolidateItem(tree[path], flags);
        return;
      }
      var obsolete := IsObsoletedByContainingDir(path);
      if obsolete {
        return;
      }
      var p := new Node(path, now, flags);
      MaybePruneObsoletedChildren(path, flags);
      PathsAgree();
      assert path !in Paths(items);
      assert forall j :: 0 <= j < |contents| ==> contents[j] in contents && contents[j] in old(contents);
      Insert(p);
    }

    /** One turn of the loop of append. */
    method AppendOne(p: Node)
      requires Valid() && p !in contents
      modifies this, contents, p`next, p`prev
      ensures Valid() && items == Added(old(items), old(p.Value()))
      ensures forall n :: n in contents ==> n in old(contents) || n == p
    {
      hide NoDup, Unique, Obsolete, Consolidated, Pruned, PendingChanges.Linked, PendingChanges.Shown;
      PathsAgree();
      if p.path in tree {
        ConsolidateItem(tree[p.path], p.flags);
        return;
      }
      var obsolete := IsObsoletedByContainingDir(p.path);
      if obsolete {
        return;
      }
      MaybePruneObsoletedChildren(p.path, p.flags);
      PathsAgree();
      assert p.path !in Paths(items);
      assert forall j :: 0 <= j < |contents| ==> contents[j] in contents && contents[j] in old(contents);
      Insert(p);
    }

    lemma PathsAgree()
      requires Valid()
      ensures tree.Keys == Paths(items)
    {
      SamePaths();
    }

    method StealItems() returns (chain: Node?, ghost nodes: seq<Node>)
      requires Valid()
      modifies this
      ensures Valid() && items == [] && nodes == old(contents) && Chained(chain, nodes)
      ensures |nodes| == |old(items)| && forall i :: 0 <= i < |nodes| ==> nodes[i].Value() == old(items)[i]
    {
      chain, nodes := pending, contents;
      pending, tree := null, map[];
      contents, items := [], [];
    }

    method Clear()
      requires Valid()
      modifies this
      ensures Valid() && items == []
    {
      pending, tree := null, map[];
      contents, items := [], [];
    }

    /** Adds the nodes of a stolen chain, in order; they are relinked, not copied. */
    method Append(chain: Node?, ghost nodes: seq<Node>)
      requires Valid() && Chained(chain, nodes) && forall n :: n in nodes ==> n !in contents
      modifies this, contents, nodes
      ensures Valid() && items == AddedAll(old(items), old(Values(nodes)))
    {
      hide Chained, Values, Added, PendingChanges.Valid;
      var p := chain;
      ghost var rest := nodes;
      while p != null
        invariant Valid() && Chained(p, rest)
        invariant forall n :: n in rest ==> n in nodes && n !in contents
        invariant forall n :: n in contents ==> n in old(contents) || n in nodes
        invariant AddedAll(items, Values(rest)) == AddedAll(old(items), old(Values(nodes)))
        decreases |rest|
      {
        ChainedTail(p, rest);
        assert forall j :: 0 <= j < |contents| ==> contents[j] in contents
                                                    && (contents[j] in old(contents) || contents[j] in nodes);
        assert p in nodes;
        var next := p.next;
        AppendOne(p);
        p, rest := next, rest[1..];
      }
      ChainEnds(rest);
    }
  }

  lemma ChainedTail(p: Node, rest: seq<Node>)
    requires Chained(p, rest)
    ensures rest != [] && rest[0] == p && Chained(p.next, rest[1..]) && p !in rest[1..]
    ensures Values(rest) == [p.Value()] + Values(rest[1..])
  {}

  lemma ChainEnds(rest: seq<Node>)
    requires Chained(null, rest)
    ensures Values(rest) == []
  {}

  /** The `next` pointers from position k on. */
  ghost predicate Suffix(nodes: seq<Node>, k: nat)
    reads nodes`next
  {
    forall j {:trigger nodes[j]} :: k <= j < |nodes| ==> nodes[j].next == if j + 1 < |nodes| then nodes[j + 1] else null
  }

  ghost predicate Chained(chain: Node?, nodes: seq<Node>)
    reads nodes`next
  {
    NoDup(nodes) && chain == (if nodes == [] then null else nodes[0]) && Suffix(nodes, 0)
  }

  ghost function Values(nodes: seq<Node>): (r: seq<Item>)
    reads nodes`flags
    ensures |r| == |nodes| && forall i {:trigger nodes[i]} :: 0 <= i < |nodes| ==> r[i] == nodes[i].Value()
  {
    if nodes == [] then [] else [nodes[0].Value()] + Values(nodes[1..])
  }
}
