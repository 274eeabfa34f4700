/** longestMatch of the radix tree in thirdparty/libart, as a descent over the set of stored keys. */
module RadixTree {
  import opened Options

  type Path = string

  /** The byte at depth d of a key; the end of a key counts as one more byte. */
  function KeyAt(key: Path, d: nat): Option<char> { if d < |key| then Some(key[d]) else None }

  /** The keys below the child for the byte of `path` at depth d. */
  function Child(keys: set<Path>, path: Path, d: nat): set<Path> {
    set k | k in keys && KeyAt(k, d) == KeyAt(path, d)
  }

  /** Descends while a branch is left to take; a subtree of one key is a leaf, compared over the shorter length. */
  ghost function Descend(keys: set<Path>, path: Path, d: nat): Option<Path>
    decreases |path| + 1 - d
  {
    if keys == {} then None
    else if exists k :: keys == {k} then
      var k :| keys == {k};
      var n := if |k| < |path| then |k| else |path|;
      if n > 0 && k[..n] == path[..n] then Some(k) else None
    else if d > |path| then None
    else Descend(Child(keys, path, d), path, d + 1)
  }

  ghost function LongestMatch(keys: set<Path>, path: Path): Option<Path> { Descend(keys, path, 0) }

  /** `k` is a stored prefix of `path` that no other stored key extends. */
  ghost predicate LonePrefix(keys: set<Path>, path: Path, k: Path) {
    k in keys && k != "" && k <= path && forall o :: o in keys && k <= o ==> o == k
  }

  lemma {:induction false} DescentIsExact(keys: set<Path>, path: Path, d: nat, k: Path)
    requires path !in keys && d <= |path| && forall o :: o in keys ==> |o| >= d && o[..d] == path[..d]
    ensures Descend(keys, path, d) == Some(k) && |k| <= |path| <==> LonePrefix(keys, path, k)
    decreases |path| - d
  {
    if keys != {} && !exists k :: keys == {k} {
      var next := Child(keys, path, d);
      if d == |path| {
        assert forall o :: o in next ==> o == path;
        assert next == {};
      } else {
        assert forall o :: o in next <==> o in keys && |o| > d && o[d] == path[d];
        forall o | o in next
          ensures |o| >= d + 1 && o[..d + 1] == path[..d + 1]
        {
          assert o[..d + 1] == o[..d] + [o[d]] && path[..d + 1] == path[..d] + [path[d]];
        }
        DescentIsExact(next, path, d + 1, k);
        SamePrefix(keys, path, d, k);
      }
    }
  }

  lemma Alone(keys: set<Path>, k: Path)
    requires k in keys && forall o :: o in keys && k <= o ==> o == k
    ensures (forall o :: o in keys ==> |o| >= |k| && o[..|k|] == k) ==> keys == {k}
  {
    if forall o :: o in keys ==> |o| >= |k| && o[..|k|] == k {
      assert forall o :: o in keys ==> k <= o;
    }
  }

  /** A branch loses no lone prefix and makes none. */
  lemma SamePrefix(keys: set<Path>, path: Path, d: nat, k: Path)
    requires d < |path| && keys != {} && !exists k :: keys == {k}
    requires forall o :: o in keys ==> |o| >= d && o[..d] == path[..d]
    ensures LonePrefix(keys, path, k) <==> LonePrefix(Child(keys, path, d), path, k)
  {
    var next := Child(keys, path, d);
    if LonePrefix(keys, path, k) {
      if |k| == d {
        Alone(keys, k);
        assert false;
      }
      assert k[d] == path[d];
    }
    if LonePrefix(next, path, k) {
      forall o | o in keys && k <= o
        ensures o == k
      {
        assert |k| > d && o[d] == k[d];
        assert o in next;
      }
    }
  }

  /** longestMatch finds a stored prefix of the path if and only if no other stored key extends it. */
  lemma LongestMatchIsExact(keys: set<Path>, path: Path, k: Path)
    requires path !in keys
    ensures LongestMatch(keys, path) == Some(k) && |k| <= |path| <==> LonePrefix(keys, path, k)
  {
    DescentIsExact(keys, path, 0, k);
  }

  /** The loop of longestMatch. */
  method FindLongestMatch(keys: set<Path>, path: Path) returns (r: Option<Path>)
    ensures r == LongestMatch(keys, path)
  {
    var below, d := keys, 0;
    while below != {}
      invariant LongestMatch(keys, path) == Descend(below, path, d)
      decreases |path| + 1 - d
    {
      var k :| k in below;
      if below == {k} {
        var n := if |k| < |path| then |k| else |path|;
        return if n > 0 && k[..n] == path[..n] then Some(k) else None;
      }
      if d > |path| {
        return None;
      }
      below, d := Child(below, path, d), d + 1;
    }
    r := None;
  }
}
