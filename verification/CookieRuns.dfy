/** What the sync cookies keep in every interleaving of sync, notifyCookie, removeCookieDir and abortAllCookies. */
module CookieRuns {
  import opened CookieModel
  import Runs

  /** With the history: which cookie each file was made for, and which files were served and which aborted. */
  datatype World = World(prefix: string, s: State, made: map<Path, nat>, served: set<Path>, aborted: set<Path>)

  datatype Op =
    | AddDir(dir: Path)
    | SetDir(dir: Path)
    | EraseDir(dir: Path)
    | Sync(failed: set<Path>)
    | Take(path: Path)
    | Notify(path: Path)
    | Cancel(dir: Path, path: Path)
    | Swap
    | Abort(path: Path)

  /** The files of a sync that succeeds in creating some. */
  function New(w: World, failed: set<Path>): map<Path, nat> {
    map p | p in Attempted(w.s, w.prefix) - failed :: |w.s.table|
  }

  /** A file can be retired when its cookie's counter is where it should be. */
  ghost predicate Retires(w: World, path: Path, stage: Stage, how: Outcome, x: World) {
    && IsAt(w.s, path, stage) && w.s.files[path].cookie < |w.s.table|
    && w.s.table[w.s.files[path].cookie].numPending > 0
    && x == w.(s := Retire(w.s, path, how),
               served := if how == Fulfilled then w.served + {path} else w.served,
               aborted := if how == Fulfilled then w.aborted else w.aborted + {path})
  }

  /** One step, up to the last serial number. */
  ghost predicate Next(w: World, op: Op, x: World) {
    match op
    case AddDir(d) => x == w.(s := w.s.(dirs := w.s.dirs + {d}))
    case SetDir(d) => x == w.(s := w.s.(dirs := {d}))
    case EraseDir(d) => x == w.(s := w.s.(dirs := w.s.dirs - {d}))
    case Sync(failed) =>
      w.s.issued < SERIALS && x == w.(s := CookieModel.Sync(w.s, w.prefix, failed), made := w.made + New(w, failed))
    case Take(p) => x == w.(s := CookieModel.Take(w.s, p))
    case Notify(p) => Retires(w, p, Taken, Fulfilled, x)
    case Cancel(d, p) => d <= p && Retires(w, p, Listed, Fulfilled, x)
    case Swap => x == w.(s := CookieModel.Swap(w.s))
    case Abort(p) => Retires(w, p, Swapped, Aborted, x)
  }

  ghost predicate Start(w: World) {
    CookiePrefix(w.prefix) && w.s.issued == 0 && w.s.files == map[] && w.s.table == []
    && w.made == map[] && w.served == {} && w.aborted == {}
  }

  // ----- Every run

  /** The path was handed out by an earlier sync. */
  ghost predicate Earlier(w: World, path: Path) {
    exists d, n: nat :: n < w.s.issued && path == CookiePath(d, w.prefix, n)
  }

  ghost predicate Ledger(w: World) {
    && w.made.Keys == w.s.files.Keys + w.served + w.aborted
    && w.s.files.Keys !! w.served && w.s.files.Keys !! w.aborted && w.served !! w.aborted
    && (forall p :: p in w.s.files ==> w.s.files[p].cookie == w.made[p])
    && (forall p :: p in w.made ==> w.made[p] < |w.s.table|)
  }

  ghost predicate Sound(w: World) {
    && CookiePrefix(w.prefix) && w.s.issued <= SERIALS && Counted(w.s) && Ledger(w)
    && forall p :: p in w.made ==> Earlier(w, p)
  }

  /** Until the serial wraps, a sync's files were never used before. */
  lemma PathsAreNew(w: World, failed: set<Path>)
    requires Sound(w) && w.s.issued < SERIALS
    ensures (Attempted(w.s, w.prefix) - failed) !! w.made.Keys
  {
    hide CookiePath;
    forall p | p in Attempted(w.s, w.prefix)
      ensures p !in w.made
    {
      var d :| d in w.s.dirs && p == CookiePath(d, w.prefix, w.s.issued % SERIALS);
      if p in w.made {
        assert Earlier(w, p);
        var e, n: nat :| n < w.s.issued && p == CookiePath(e, w.prefix, n);
        PathIsInjective(d, e, w.prefix, w.s.issued % SERIALS, n);
        assert false;
      }
    }
  }

  lemma SyncIsSound(w: World, failed: set<Path>, x: World)
    requires Sound(w) && Next(w, Sync(failed), x)
    ensures Sound(x)
  {
    hide Counted, CookiePath;
    PathsAreNew(w, failed);
    SyncKeepsCount(w.s, w.prefix, failed);
    forall p | p in x.made
      ensures Earlier(x, p)
    {
      if p in w.made {
        assert Earlier(w, p);
        var d, n: nat :| n < w.s.issued && p == CookiePath(d, w.prefix, n);
        assert n < x.s.issued;
      } else {
        var d :| d in w.s.dirs && p == CookiePath(d, w.prefix, w.s.issued % SERIALS);
        assert w.s.issued % SERIALS < x.s.issued;
      }
    }
  }

  lemma RetireIsSound(w: World, path: Path, stage: Stage, how: Outcome, x: World)
    requires Sound(w) && Retires(w, path, stage, how, x) && how != Waiting
    ensures Sound(x)
  {
    hide Counted, CookiePath;
    RetireKeepsCount(w.s, path, how);
    assert forall p :: p in x.made ==> Earlier(w, p);
    assert forall p :: Earlier(w, p) ==> Earlier(x, p);
  }

  lemma StepIsSound(w: World, op: Op, x: World)
    requires Sound(w) && Next(w, op, x)
    ensures Sound(x)
  {
    hide Counted, CookiePath, Retires;
    match op
    case Sync(failed) => SyncIsSound(w, failed, x);
    case Notify(p) => RetireIsSound(w, p, Taken, Fulfilled, x);
    case Cancel(d, p) => RetireIsSound(w, p, Listed, Fulfilled, x);
    case Abort(p) => RetireIsSound(w, p, Swapped, Aborted, x);
    case _ =>
      MoveKeepsCount(w.s, x.s);
      assert forall p :: p in x.made ==> Earlier(w, p);
      assert forall p :: Earlier(w, p) ==> Earlier(x, p);
  }

  /** In every run each counter is the number of the cookie's outstanding files, a promise is open exactly while
      there are any, and no file is made twice, lost, or both served and aborted. */
  lemma CookiesAreCounted(b: seq<World>, ops: seq<Op>, i: nat)
    requires Runs.Joined(b, ops, Next) && Start(b[0]) && i < |b|
    ensures Sound(b[i])
  {
    hide Next;
    forall w, op, x | Sound(w) && Next(w, op, x)
      ensures Sound(x)
    {
      StepIsSound(w, op, x);
    }
    Runs.Throughout(b, ops, Sound, Next, i);
  }

  /** A promise is completed at most once, by the step that takes its counter from one to zero. */
  lemma PromiseIsCompletedOnce(w: World, op: Op, x: World, id: nat)
    requires Sound(w) && Next(w, op, x) && id < |w.s.table|
    ensures id < |x.s.table|
    ensures x.s.table[id].outcome != w.s.table[id].outcome <==>
              w.s.table[id].numPending == 1 && x.s.table[id].numPending == 0
    ensures x.s.table[id].outcome != w.s.table[id].outcome ==>
              w.s.table[id].outcome == Waiting && x.s.table[id].outcome == if op.Abort? then Aborted else Fulfilled
  {
    hide CookiePath;
    StepIsSound(w, op, x);
  }

  // ----- What success means

  /** No notifyCookie is between its two halves when the map is swapped out. */
  ghost predicate Calm(w: World) {
    forall p, q :: IsAt(w.s, p, Taken) && IsAt(w.s, q, Listed) ==> w.s.files[p].cookie != w.s.files[q].cookie
  }

  ghost predicate CalmNext(w: World, op: Op, x: World) { Next(w, op, x) && (op.Swap? ==> Calm(w)) }

  ghost predicate Doomed(w: World, path: Path) { path in w.aborted || IsAt(w.s, path, Swapped) }

  /** Once a file of a cookie is swapped out, all that remain are, and the promise can only be aborted. */
  ghost predicate Divided(w: World) {
    && Sound(w)
    && (forall p, q :: Doomed(w, p) && q in w.s.files && w.made[p] == w.s.files[q].cookie ==>
          w.s.files[q].stage == Swapped)
    && (forall p :: Doomed(w, p) ==> w.s.table[w.made[p]].outcome != Fulfilled)
  }

  /** With notifyCookie in one piece, success means that every file was observed or cancelled. */
  lemma SuccessIsServed(b: seq<World>, ops: seq<Op>, i: nat, path: Path)
    requires Runs.Joined(b, ops, CalmNext) && Start(b[0]) && i < |b| && path in b[i].made
    ensures b[i].made[path] < |b[i].s.table|
    ensures b[i].s.table[b[i].made[path]].outcome == Fulfilled ==> path in b[i].served
  {
    hide Next, Divided, Calm;
    forall w, op, x | Divided(w) && CalmNext(w, op, x)
      ensures Divided(x)
    {
      StepIsDivided(w, op, x);
    }
    StartIsDivided(b[0]);
    Runs.Throughout(b, ops, Divided, CalmNext, i);
    FulfilledIsDone(b[i], path);
  }

  lemma StartIsDivided(w: World)
    requires Start(w)
    ensures Divided(w)
  {}

  lemma FulfilledIsDone(w: World, path: Path)
    requires Divided(w) && path in w.made
    ensures w.made[path] < |w.s.table| && (w.s.table[w.made[path]].outcome == Fulfilled ==> path in w.served)
  {
    if path in w.s.files { StillWaiting(w.s, path); }
  }

  lemma SwapIsDivided(w: World, x: World)
    requires Divided(w) && Calm(w) && Next(w, Swap, x) && Sound(x)
    ensures Divided(x)
  {
    hide CookiePath, Counted;
    assert forall p :: Doomed(x, p) ==> Doomed(w, p) || IsAt(w.s, p, Listed);
    forall p | IsAt(w.s, p, Listed)
      ensures w.s.table[w.made[p]].outcome == Waiting
    {
      StillWaiting(w.s, p);
    }
  }

  lemma StillWaiting(s: State, path: Path)
    requires Counted(s) && path in s.files
    ensures s.files[path].cookie < |s.table| && s.table[s.files[path].cookie].outcome == Waiting
  {
    OutstandingIsPositive(s, path);
  }

  lemma RetireIsDivided(w: World, path: Path, stage: Stage, how: Outcome, x: World)
    requires Divided(w) && Retires(w, path, stage, how, x) && Sound(x) && how != Waiting
    requires how == Aborted <==> stage == Swapped
    ensures Divided(x)
  {
    hide CookiePath, Counted;
    assert forall p :: Doomed(x, p) ==> Doomed(w, p);
  }

  lemma SyncAddsFiles(w: World, failed: set<Path>, x: World)
    requires Sound(w) && Next(w, Sync(failed), x)
    ensures x.aborted == w.aborted && |w.s.table| <= |x.s.table|
    ensures forall id :: 0 <= id < |w.s.table| ==> x.s.table[id] == w.s.table[id]
    ensures forall p :: p in w.made ==> p in x.made && x.made[p] == w.made[p]
    ensures forall q :: q in x.s.files ==> (q in w.s.files && x.s.files[q] == w.s.files[q])
                                           || x.s.files[q] == File(|w.s.table|, Listed)
  {
    hide CookiePath, Counted, Ledger;
    PathsAreNew(w, failed);
  }

  lemma SyncIsDivided(w: World, failed: set<Path>, x: World)
    requires Divided(w) && Next(w, Sync(failed), x) && Sound(x)
    ensures Divided(x)
  {
    hide Next, Counted, Earlier;
    SyncAddsFiles(w, failed, x);
    assert forall p :: Doomed(x, p) ==> Doomed(w, p) && p in w.made;
  }

  lemma StepIsDivided(w: World, op: Op, x: World)
    requires Divided(w) && CalmNext(w, op, x)
    ensures Divided(x)
  {
    hide CookiePath, Counted, Calm, Retires, Divided;
    DividedIsSound(w);
    StepIsSound(w, op, x);
    match op
    case Sync(failed) => SyncIsDivided(w, failed, x);
    case Notify(p) => RetireIsDivided(w, p, Taken, Fulfilled, x);
    case Cancel(d, p) => RetireIsDivided(w, p, Listed, Fulfilled, x);
    case Abort(p) => RetireIsDivided(w, p, Swapped, Aborted, x);
    case Swap => SwapIsDivided(w, x);
    case _ => MoveIsDivided(w, op, x);
  }

  lemma DividedIsSound(w: World)
    requires Divided(w)
    ensures Sound(w)
  {}

  lemma MoveIsDivided(w: World, op: Op, x: World)
    requires Divided(w) && Next(w, op, x) && Sound(x) && (op.AddDir? || op.SetDir? || op.EraseDir? || op.Take?)
    ensures Divided(x)
  {
    hide CookiePath, Counted;
    assert forall p :: Doomed(x, p) ==> Doomed(w, p);
  }

  // ----- The condition is exact

  /** The file of a cookie can be retired at once by the thread that holds it. */
  lemma RetireStep(w: World, path: Path) returns (op: Op, x: World)
    requires Sound(w) && path in w.s.files && w.s.files[path].stage != Listed
    ensures Next(w, op, x) && Sound(x) && x.made == w.made && !op.Swap?
    ensures x.s.files == w.s.files - {path} && |x.s.table| == |w.s.table|
    ensures x.aborted == if w.s.files[path].stage == Swapped then w.aborted + {path} else w.aborted
    ensures w.s.files[path].stage == Taken && Outstanding(w.s, w.s.files[path].cookie) == {path} ==>
              x.s.table[w.s.files[path].cookie].outcome == Fulfilled
  {
    hide CookiePath, Earlier, Counted, Ledger;
    var how := if w.s.files[path].stage == Swapped then Aborted else Fulfilled;
    op := if w.s.files[path].stage == Swapped then Abort(path) else Notify(path);
    RetireKeepsCount(w.s, path, how);
    x := w.(s := Retire(w.s, path, how),
            served := if how == Fulfilled then w.served + {path} else w.served,
            aborted := if how == Fulfilled then w.aborted else w.aborted + {path});
    StepIsSound(w, op, x);
    if Outstanding(w.s, w.s.files[path].cookie) == {path} { LastOne(w.s, path); }
  }

  lemma LastOne(s: State, path: Path)
    requires Counted(s) && path in s.files && Outstanding(s, s.files[path].cookie) == {path}
    ensures s.files[path].cookie < |s.table| && s.table[s.files[path].cookie].numPending == 1
  {}

  /** With a file of the cookie taken and none listed, the threads can finish so that the taken one comes last. */
  lemma {:induction false} FinishLast(w: World, p: Path) returns (b: seq<World>, ops: seq<Op>)
    requires Sound(w) && IsAt(w.s, p, Taken)
    requires forall q :: q in Outstanding(w.s, w.s.files[p].cookie) ==> w.s.files[q].stage != Listed
    ensures Runs.Joined(b, ops, Next) && b[0] == w && EndsFulfilled(w, p, b[|ops|])
    ensures forall i :: 0 <= i < |ops| ==> !ops[i].Swap?
    decreases |w.s.files|
  {
    hide Next, Sound, EndsFulfilled;
    var id := w.s.files[p].cookie;
    assert p in Outstanding(w.s, id);
    KnownCookie(w, p);
    if q :| q in Outstanding(w.s, id) && q != p {
      var op, x := RetireStep(w, q);
      assert |x.s.files| < |w.s.files| by { FewerFiles(w.s.files, q); }
      var c, more := FinishLast(x, p);
      Runs.Preceded(w, op, c, more, Next);
      b, ops := [w] + c, [op] + more;
      RetiredEarlier(w, p, q, x, c[|more|]);
    } else {
      assert Outstanding(w.s, id) == {p};
      var op, x := RetireStep(w, p);
      b, ops := [w, x], [op];
      LastIsFulfilled(w, p, x);
    }
  }

  /** In y the cookie of p has reported success, and what w had aborted or swapped out of that cookie is aborted. */
  ghost predicate EndsFulfilled(w: World, p: Path, y: World)
    requires p in w.s.files
  {
    var id := w.s.files[p].cookie;
    && id < |y.s.table| && y.s.table[id].outcome == Fulfilled && y.made == w.made
    && forall q :: q in w.aborted || (q in Outstanding(w.s, id) && IsAt(w.s, q, Swapped)) ==> q in y.aborted
  }

  lemma RetiredEarlier(w: World, p: Path, q: Path, x: World, y: World)
    requires p in w.s.files && q in w.s.files && q != p && x.made == w.made && x.s.files == w.s.files - {q}
    requires x.aborted == if w.s.files[q].stage == Swapped then w.aborted + {q} else w.aborted
    requires EndsFulfilled(x, p, y)
    ensures EndsFulfilled(w, p, y)
  {
    var id := w.s.files[p].cookie;
    assert forall r :: r in Outstanding(w.s, id) && r != q ==> r in Outstanding(x.s, id);
  }

  lemma LastIsFulfilled(w: World, p: Path, x: World)
    requires IsAt(w.s, p, Taken) && x.made == w.made && x.aborted == w.aborted
    requires w.s.files[p].cookie < |x.s.table| && x.s.table[w.s.files[p].cookie].outcome == Fulfilled
    requires Outstanding(w.s, w.s.files[p].cookie) == {p}
    ensures EndsFulfilled(w, p, x)
  {}

  lemma KnownCookie(w: World, p: Path)
    requires Sound(w) && p in w.s.files
    ensures w.s.files[p].cookie < |w.s.table|
  {}

  lemma FewerFiles(files: map<Path, File>, q: Path)
    requires q in files
    ensures |files - {q}| < |files|
  {
    assert (files - {q}).Keys == files.Keys - {q};
    assert |(files - {q}).Keys| == |files - {q}| && |files.Keys| == |files|;
  }

  /** Whenever the map is swapped out while notifyCookie holds a file of a cookie that still has one listed, the
      threads can finish so that the promise reports success although a file was aborted. */
  lemma SplitNotifyHidesAnAbort(w: World, p: Path, q: Path) returns (b: seq<World>, ops: seq<Op>)
    requires Sound(w) && IsAt(w.s, p, Taken) && IsAt(w.s, q, Listed) && w.s.files[p].cookie == w.s.files[q].cookie
    ensures Runs.Joined(b, ops, Next) && b[0] == w && ops != [] && ops[0] == Swap
    ensures Misled(b[|ops|], q) && forall i :: 0 < i < |ops| ==> !ops[i].Swap?
  {
    hide Next, Sound;
    var x := w.(s := CookieModel.Swap(w.s));
    SwapStep(w, x);
    assert q in Outstanding(x.s, x.s.files[p].cookie);
    var c, more := FinishLast(x, p);
    Runs.Preceded(w, Swap, c, more, Next);
    b, ops := [w] + c, [Swap] + more;
    MadeFor(x, p);
    MadeFor(x, q);
  }

  lemma SwapStep(w: World, x: World)
    requires Sound(w) && x == w.(s := CookieModel.Swap(w.s))
    ensures Next(w, Swap, x) && Sound(x)
  {
    StepIsSound(w, Swap, x);
  }

  lemma MadeFor(w: World, p: Path)
    requires Sound(w) && p in w.s.files
    ensures p in w.made && w.made[p] == w.s.files[p].cookie
  {}

  /** The promise of an aborted file reports success. */
  ghost predicate Misled(w: World, q: Path) {
    q in w.aborted && q in w.made && w.made[q] < |w.s.table| && w.s.table[w.made[q]].outcome == Fulfilled
  }

  /** A run that swaps the map out at once, is calm at every later swap, and misleads about q in the end. */
  ghost predicate Misleads(w: World, b: seq<World>, ops: seq<Op>, q: Path) {
    && Runs.Joined(b, ops, Next) && b[0] == w && ops != [] && ops[0] == Swap
    && (forall i :: 0 < i < |ops| && ops[i].Swap? ==> Calm(b[i]))
    && Misled(b[|ops|], q)
  }

  lemma CalmNeverMisleads(w: World, b: seq<World>, ops: seq<Op>, q: Path)
    requires Divided(w) && Calm(w)
    ensures !Misleads(w, b, ops, q)
  {
    hide Next, Divided, Calm;
    if Misleads(w, b, ops, q) {
      forall i | 0 <= i < |ops|
        ensures CalmNext(b[i], ops[i], b[i + 1])
      {
        assert Next(b[i], ops[i], b[i + 1]);
      }
      forall u, op, x | Divided(u) && CalmNext(u, op, x)
        ensures Divided(x)
      {
        StepIsDivided(u, op, x);
      }
      Runs.Throughout(b, ops, Divided, CalmNext, |ops|);
      FulfilledIsDone(b[|ops|], q);
      NotBoth(b[|ops|], q);
      assert false;
    }
  }

  lemma NotBoth(w: World, q: Path)
    requires Divided(w)
    ensures !(q in w.served && q in w.aborted)
  {}

  /** At a world reached calmly, swapping the map out is harmless if and only if the world is calm. */
  lemma CalmIsExact(w: World)
    requires Divided(w)
    ensures Calm(w) <==> !exists b, ops, q :: Misleads(w, b, ops, q)
  {
    hide Next, Divided, Misleads;
    if Calm(w) {
      forall b, ops, q ensures !Misleads(w, b, ops, q) {
        CalmNeverMisleads(w, b, ops, q);
      }
    } else {
      var p, q :| IsAt(w.s, p, Taken) && IsAt(w.s, q, Listed) && w.s.files[p].cookie == w.s.files[q].cookie;
      var b, ops := UncalmMisleads(w, p, q);
    }
  }

  lemma UncalmMisleads(w: World, p: Path, q: Path) returns (b: seq<World>, ops: seq<Op>)
    requires Divided(w) && IsAt(w.s, p, Taken) && IsAt(w.s, q, Listed) && w.s.files[p].cookie == w.s.files[q].cookie
    ensures Misleads(w, b, ops, q)
  {
    hide Next, Calm;
    b, ops := SplitNotifyHidesAnAbort(w, p, q);
  }

  /** Two directories, one sync, and a notifyCookie that an abort splits: the whole run. */
  lemma SplitNotifyFromStart() returns (b: seq<World>, ops: seq<Op>, q: Path)
    ensures Runs.Joined(b, ops, Next) && Start(b[0]) && Misled(b[|ops|], q)
  {
    hide CookiePath, Sound;
    var w0, w1, p;
    w0, w1, p, q := TwoFiles();
    var w2 := w1.(s := CookieModel.Take(w1.s, p));
    assert Next(w1, Take(p), w2);
    StepIsSound(w1, Take(p), w2);
    var c, more := SplitNotifyHidesAnAbort(w2, p, q);
    Runs.Preceded(w1, Take(p), c, more, Next);
    Runs.Preceded(w0, Sync({}), [w1] + c, [Take(p)] + more, Next);
    b, ops := [w0] + ([w1] + c), [Sync({})] + ([Take(p)] + more);
  }

  lemma TwoFiles() returns (w: World, x: World, p: Path, q: Path)
    ensures Start(w) && Next(w, Sync({}), x) && Sound(x) && p != q
    ensures IsAt(x.s, p, Listed) && IsAt(x.s, q, Listed) && x.s.files[p].cookie == x.s.files[q].cookie
  {
    hide CookiePath, Sound, CookiePrefix;
    var prefix := ExamplePrefix();
    var s := State({"a", "b"}, 0, map[], []);
    w := World(prefix, s, map[], {}, {});
    StartIsSoundWorld(w);
    p, q := CookiePath("a", prefix, 0), CookiePath("b", prefix, 0);
    if p == q {
      PathIsInjective("a", "b", prefix, 0, 0);
      assert false;
    }
    assert Attempted(s, prefix) == {p, q};
    x := SyncOfTwo(w, p, q);
  }

  lemma SyncOfTwo(w: World, p: Path, q: Path) returns (x: World)
    requires Sound(w) && w.s.issued == 0 && w.s.files == map[] && Attempted(w.s, w.prefix) == {p, q}
    ensures Next(w, Sync({}), x) && Sound(x)
    ensures IsAt(x.s, p, Listed) && IsAt(x.s, q, Listed) && x.s.files[p].cookie == x.s.files[q].cookie
  {
    hide CookiePath, Sound, Attempted;
    assert {p, q} - {} == {p, q};
    x := w.(s := CookieModel.Sync(w.s, w.prefix, {}), made := w.made + New(w, {}));
    StepIsSound(w, Sync({}), x);
  }

  lemma ExamplePrefix() returns (prefix: string)
    ensures CookiePrefix(prefix)
  {
    prefix := ".watchman-cookie-h-1-";
    assert prefix[..17] == ".watchman-cookie-" && prefix[20] == '-';
  }

  lemma StartIsSoundWorld(w: World)
    requires Start(w)
    ensures Sound(w)
  {}
}
