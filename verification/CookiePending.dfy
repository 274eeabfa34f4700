/** Sync cookies in the collection of pending changes: the notification of a cookie file is never merged into that of
    a directory above it. */
module CookiePending {
  import opened CookieModel
  import opened CookieName
  import opened PendingModel
  import opened PendingRuns
  import C = CookieRuns
  import Runs

  /** The operation hands in the path. */
  ghost predicate Adds(op: Op, path: string) {
    (op.Add? && op.e.path == path) || (op.Append? && exists e :: e in op.chain && e.path == path)
  }

  /** From its addition to the next steal or clear the path counts as added. */
  lemma {:induction false} StaysAdded(b: seq<World>, ops: seq<Op>, j: nat, i: nat, path: string)
    requires Runs.Joined(b, ops, Next) && j < i < |b| && Adds(ops[j], path)
    requires forall k :: j < k < i ==> !ops[k].Steal? && !ops[k].Clear?
    ensures path in b[i].added
    decreases i
  {
    hide Added, AddedAll;
    assert Next(b[i - 1], ops[i - 1], b[i]);
    if i - 1 > j { StaysAdded(b, ops, j, i - 1, path); }
  }

  lemma CookiesAreMarked(dir: string, prefix: string, serial: nat)
    requires CookiePrefix(prefix)
    ensures PossiblyACookie(CookiePath(dir, prefix, serial))
  {
    var p := CookiePath(dir, prefix, serial);
    var i := |dir| + 1;
    assert p[i..] == prefix + Decimal(serial);
    assert MarkedAt(p, i);
    MarkerIsFound(p);
  }

  /** In every run of adds, appends, steals and clears, whatever else is added: a cookie file that was handed in has an
      entry of its own until the items are stolen or cleared. */
  lemma CookieHasItsEntry(
    b: seq<World>, ops: seq<Op>, j: nat, i: nat, dir: string, prefix: string, serial: nat)
    requires Runs.Joined(b, ops, Next) && b[0] == World([], {}) && CookiePrefix(prefix)
    requires j < i < |b| && Adds(ops[j], CookiePath(dir, prefix, serial))
    requires forall k :: j < k < i ==> !ops[k].Steal? && !ops[k].Clear?
    ensures exists e :: e in b[i].items && e.path == CookiePath(dir, prefix, serial)
  {
    hide Next, CookiePath, Covered;
    var path := CookiePath(dir, prefix, serial);
    CookiesAreMarked(dir, prefix, serial);
    StaysAdded(b, ops, j, i, path);
    NothingIsLost(b, ops, i);
    assert path in Paths(b[i].items);
  }

  /** So has every file that a sync, in any interleaving, is still waiting for. */
  lemma AwaitedCookieHasItsEntry(w: C.World, b: seq<World>, ops: seq<Op>, j: nat, i: nat, path: string)
    requires C.Sound(w) && path in w.s.files
    requires Runs.Joined(b, ops, Next) && b[0] == World([], {}) && j < i < |b| && Adds(ops[j], path)
    requires forall k :: j < k < i ==> !ops[k].Steal? && !ops[k].Clear?
    ensures exists e :: e in b[i].items && e.path == path
  {
    hide Next, CookiePath, Counted;
    assert C.Earlier(w, path);
    var dir, serial: nat :| serial < w.s.issued && path == CookiePath(dir, w.prefix, serial);
    CookieHasItsEntry(b, ops, j, i, dir, w.prefix, serial);
  }
}
