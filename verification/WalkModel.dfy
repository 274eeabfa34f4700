/** The parallel walker of fs/ParallelWalk.cpp as a state machine over the steps of its tasks. */
module WalkModel {

  /** What opening and reading a directory gives: an error, a request to ignore it, its entries, or an exception
      from readDir after the first `at` of them, and nothing in the walk of that directory catches it. */
  datatype Dir = Failed | Ignored | Listing(entries: seq<Dirent>) | Broken(entries: seq<Dirent>, at: nat)

  datatype Dirent = Dirent(name: string, stat: Stat)

  datatype Stat = StatFails | NotADir | Subdir(sameMount: bool, dir: Dir)

  /** A directory below the root, by the positions of the entries that lead to it. */
  type Pos = seq<nat>

  /** What a task does, one queue or counter operation at a time. */
  datatype Act = OpenError | StatError(i: nat) | PushResult | Spawn(i: nat)

  // ----- The work of one task

  predicate Dot(e: Dirent) { e.name == "." || e.name == ".." }

  predicate Fails(e: Dirent) { !Dot(e) && e.stat.StatFails? }

  /** A subdirectory on the root's mount. */
  predicate Enters(e: Dirent) { !Dot(e) && e.stat.Subdir? && e.stat.sameMount }

  function StatErrors(es: seq<Dirent>): (r: seq<Act>)
    ensures forall a :: a in r <==> a.StatError? && a.i < |es| && Fails(es[a.i])
    ensures NoDup(r)
  {
    if es == [] then []
    else
      var n := |es| - 1;
      var rest := StatErrors(es[..n]);
      assert forall j :: 0 <= j < |rest| ==> rest[j] in rest;
      if Fails(es[n]) then rest + [StatError(n)] else rest
  }

  function Spawns(es: seq<Dirent>): (r: seq<Act>)
    ensures forall a :: a in r <==> a.Spawn? && a.i < |es| && Enters(es[a.i])
    ensures NoDup(r)
  {
    if es == [] then []
    else
      var n := |es| - 1;
      var rest := Spawns(es[..n]);
      assert forall j :: 0 <= j < |rest| ==> rest[j] in rest;
      if Enters(es[n]) then rest + [Spawn(n)] else rest
  }

  ghost predicate NoDup(s: seq<Act>) { forall i, j :: 0 <= i < j < |s| ==> s[i] != s[j] }

  /** The entries that are read. */
  function Read(d: Dir): seq<Dirent> {
    match d
    case Listing(es) => es
    case Broken(es, at) => if at < |es| then es[..at] else es
    case _ => []
  }

  /** readDirTask: errors of entries as they are read, then the result, then the subdirectories. An exception
      while reading ends it after the errors. */
  function Plan(d: Dir): seq<Act> {
    match d
    case Failed => [OpenError]
    case Ignored => []
    case Listing(es) => StatErrors(es) + [PushResult] + Spawns(es)
    case Broken(_, _) => StatErrors(Read(d))
  }

  lemma PlanActs(d: Dir, a: Act)
    ensures a in Plan(d) <==>
              match a
              case OpenError => d.Failed?
              case StatError(i) => i < |Read(d)| && Fails(Read(d)[i])
              case PushResult => d.Listing?
              case Spawn(i) => d.Listing? && i < |d.entries| && Enters(d.entries[i])
  {}

  lemma PlanIsOnce(d: Dir)
    ensures NoDup(Plan(d))
  {
    if d.Listing? {
      var x, y := StatErrors(d.entries), Spawns(d.entries);
      assert forall i :: 0 <= i < |x| ==> x[i] in x;
      assert forall i :: 0 <= i < |y| ==> y[i] in y;
    }
  }

  /** The result comes before any spawn. */
  lemma ResultFirst(d: Dir, done: seq<Act>, i: nat)
    requires done <= Plan(d) && Spawn(i) in done
    ensures PushResult in done
  {
    PlanActs(d, Spawn(i));
    var x := StatErrors(d.entries);
    var k :| 0 <= k < |done| && done[k] == Spawn(i);
    assert Plan(d)[k] == Spawn(i);
    assert forall j :: 0 <= j < |x| ==> x[j] in x;
    assert Plan(d)[|x|] == PushResult;
    assert done[|x|] == PushResult;
  }

  /** readDirTask: what it will do, the entries of its result, and the result's count of subdirectories. */
  method ReadDirTask(d: Dir) returns (plan: seq<Act>, kept: seq<nat>, subdirCount: nat)
    ensures plan == Plan(d)
    ensures d.Listing? ==> Keeps(d.entries, kept) && subdirCount == |Subdirs(d.entries)|
  {
    kept, subdirCount := [], 0;
    match d
    case Failed => plan := [OpenError];
    case Ignored => plan := [];
    case Listing(es) =>
      var errors;
      errors, kept, subdirCount := ReadEntries(es);
      var toRead := SubdirsToRead(es);
      plan := errors + [PushResult] + toRead;
    case Broken(_, _) =>
      var errors, _, _ := ReadEntries(Read(d));
      plan := errors;
  }

  /** The entries of the result: all but . and .. and those whose stat failed, in the order they were read. */
  ghost predicate Keeps(es: seq<Dirent>, kept: seq<nat>) {
    && (forall i: nat :: i in kept <==> i < |es| && es[i].name !in {".", ".."} && !es[i].stat.StatFails?)
    && (forall a, b :: 0 <= a < b < |kept| ==> kept[a] < kept[b])
  }

  /** The subdirectories among them, of any mount. */
  ghost function Subdirs(es: seq<Dirent>): set<nat> {
    set i: nat | i < |es| && es[i].name !in {".", ".."} && es[i].stat.Subdir?
  }

  /** The loop over the directory's entries. */
  method ReadEntries(es: seq<Dirent>) returns (errors: seq<Act>, kept: seq<nat>, subdirCount: nat)
    ensures errors == StatErrors(es) && Keeps(es, kept) && subdirCount == |Subdirs(es)|
  {
    errors, kept, subdirCount := [], [], 0;
    for i := 0 to |es|
      invariant errors == StatErrors(es[..i])
      invariant Keeps(es[..i], kept) && subdirCount == |Subdirs(es[..i])|
    {
      assert es[..i + 1][..i] == es[..i];
      OneMore(es, i);
      assert forall a :: 0 <= a < |kept| ==> kept[a] in kept;
      if Dot(es[i]) {
        continue;
      }
      if es[i].stat.StatFails? {
        errors := errors + [StatError(i)];
        continue;
      }
      kept := kept + [i];
      if es[i].stat.Subdir? {
        subdirCount := subdirCount + 1;
      }
    }
    assert es[..|es|] == es;
  }

  lemma OneMore(es: seq<Dirent>, i: nat)
    requires i < |es|
    ensures |Subdirs(es[..i + 1])| == |Subdirs(es[..i])| + if !Dot(es[i]) && es[i].stat.Subdir? then 1 else 0
  {
    var was, now := Subdirs(es[..i]), Subdirs(es[..i + 1]);
    assert i !in was;
    assert now == if !Dot(es[i]) && es[i].stat.Subdir? then was + {i} else was;
  }

  method SubdirsToRead(es: seq<Dirent>) returns (toRead: seq<Act>)
    ensures toRead == Spawns(es)
  {
    toRead := [];
    for i := 0 to |es|
      invariant toRead == Spawns(es[..i])
    {
      assert es[..i + 1][..i] == es[..i];
      if Enters(es[i]) {
        toRead := toRead + [Spawn(i)];
      }
    }
    assert es[..|es|] == es;
  }
}
