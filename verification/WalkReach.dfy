/** Where the walk goes: along the entries themselves, from the root down. */
module WalkReach {
  import opened Options
  import opened WalkModel
  import opened WalkRuns
  import Runs

  /** The entry is a subdirectory on the root's mount, and not the directory itself or the one above it. */
  predicate Passable(e: Dirent) { e.name !in {".", ".."} && e.stat.Subdir? && e.stat.sameMount }

  /** The position is reached from the directory through such entries only. */
  predicate Leads(d: Dir, p: Pos)
    decreases |p|
  {
    p != [] ==>
      && (d.Listing? || d.Broken?) && p[0] < |d.entries| && Passable(d.entries[p[0]])
      && Leads(d.entries[p[0]].stat.dir, p[1..])
  }

  function At(d: Dir, p: Pos): Dir
    requires Leads(d, p)
    decreases |p|
  {
    if p == [] then d else At(d.entries[p[0]].stat.dir, p[1..])
  }

  lemma {:induction false} FirstStep(d: Dir, p: Pos)
    requires p != []
    ensures var es := Entries(d);
            DirAt(d, p) == if p[0] < |es| && Passable(es[p[0]]) then DirAt(es[p[0]].stat.dir, p[1..]) else None
    decreases |p|
  {
    var last := |p| - 1;
    if last == 0 {
      assert p[..last] == [] && p[1..] == [];
    } else {
      FirstStep(d, p[..last]);
      assert p[..last][1..] == p[1..][..last - 1] && p[..last][0] == p[0] && p[1..][last - 1] == p[last];
    }
  }

  lemma {:induction false} SamePlaces(d: Dir, p: Pos)
    ensures Leads(d, p) <==> DirAt(d, p).Some?
    ensures Leads(d, p) ==> DirAt(d, p) == Some(At(d, p))
    decreases |p|
  {
    if p != [] {
      FirstStep(d, p);
      if p[0] < |Entries(d)| && Passable(Entries(d)[p[0]]) { SamePlaces(Entries(d)[p[0]].stat.dir, p[1..]); }
    }
  }

  /** In every schedule, at all times: a result is of a directory that the root leads to and that was listed; an opendir
      error is of one that failed to open; and a stat error is of an entry, other than . and .., whose stat fails. */
  lemma OnlyTheRootsMount(b: seq<World>, ops: seq<Op>, i: nat, p: Pos)
    requires Runs.Joined(b, ops, Next) && Start(b[0]) && i < |b|
    ensures Some(p) in b[i].results ==> Leads(b[i].root, p) && At(b[i].root, p).Listing?
    ensures Some(IoError(p, OpenError)) in b[i].errors ==> Leads(b[i].root, p) && At(b[i].root, p).Failed?
    ensures forall j: nat :: Some(IoError(p, StatError(j))) in b[i].errors ==>
              && Leads(b[i].root, p) && var d := At(b[i].root, p);
                 (d.Listing? || d.Broken?) && j < |d.entries| && (d.Broken? ==> j < d.at)
                 && d.entries[j].name !in {".", ".."} && d.entries[j].stat.StatFails?
  {
    hide Next, Start, Sound;
    EveryScheduleIsSound(b, ops, i);
    var w := b[i];
    SamePlaces(w.root, p);
    if p in w.task { WhatATaskDid(w, p); }
    ByTasks(w, p);
  }

  lemma ByTasks(w: World, p: Pos)
    requires Sound(w)
    ensures Some(p) in w.results <==> p in w.task && PushResult in Done(w.task[p])
    ensures forall a :: Some(IoError(p, a)) in w.errors <==> p in w.task && a in Done(w.task[p]) && IsError(a)
  {
    forall a
      ensures Some(IoError(p, a)) in w.errors <==> p in w.task && a in Done(w.task[p]) && IsError(a)
    {
      var e := IoError(p, a);
      assert Some(e) in w.errors <==> e.pos in w.task && e.act in Done(w.task[e.pos]) && IsError(e.act);
    }
  }

  lemma WhatATaskDid(w: World, p: Pos)
    requires Sound(w) && p in w.task
    ensures DirAt(w.root, p).Some?
    ensures var d := DirAt(w.root, p).value; forall a :: a in Done(w.task[p]) ==>
              match a
              case OpenError => d.Failed?
              case StatError(j) =>
                && j < |Entries(d)| && (d.Broken? ==> j < d.at)
                && Entries(d)[j].name !in {".", ".."} && Entries(d)[j].stat.StatFails?
              case PushResult => d.Listing?
              case Spawn(_) => d.Listing?
  {
    hide Counted, Recorded, Once, Plan;
    assert Follows(w, p);
    var d := DirAt(w.root, p).value;
    var s := w.task[p];
    forall a | a in Done(s) ensures a in Plan(d) { assert a in Done(s) + Todo(s); }
    forall a | a in Plan(d)
      ensures a.StatError? ==> a.i < |Entries(d)| && Fails(Entries(d)[a.i]) && (d.Broken? ==> a.i < d.at)
    {
      PlanActs(d, a);
    }
    forall a ensures a in Plan(d) ==> (a.PushResult? || a.Spawn? ==> d.Listing?) && (a.OpenError? ==> d.Failed?) {
      PlanActs(d, a);
    }
  }

  /** Reading no directory that the root leads to breaks off. */
  ghost predicate Readable(root: Dir) { forall p :: Leads(root, p) ==> !At(root, p).Broken? }

  /** The end of a schedule that was never stopped, when no reading breaks off: every directory that the root leads to
      was opened, and left its result or its opendir error, or was ignored; and every entry whose stat fails left its
      error. */
  lemma EveryPlaceIsRead(b: seq<World>, ops: seq<Op>, i: nat, p: Pos)
    requires Runs.Joined(b, ops, Next) && Start(b[0]) && i < |b|
    requires b[i].count == 0 && !b[i].stopped && Readable(b[i].root) && Leads(b[i].root, p)
    ensures var w, d := b[i], At(b[i].root, p);
            && p in w.task
            && (d.Listing? <==> Some(p) in w.results)
            && (d.Failed? <==> Some(IoError(p, OpenError)) in w.errors)
            && (forall j: nat :: Some(IoError(p, StatError(j))) in w.errors <==>
                  d.Listing? && j < |d.entries| && d.entries[j].name !in {".", ".."} && d.entries[j].stat.StatFails?)
  {
    hide Next, Start, Sound, Plan, Leads, At, Whole;
    EveryScheduleIsSound(b, ops, i);
    var w := b[i];
    SamePlaces(w.root, p);
    NothingBreaksOff(w.root);
    WasRead(w, p);
    FinishedTask(w, p);
    ByTasks(w, p);
    var d := At(w.root, p);
    PlanActs(d, PushResult);
    PlanActs(d, OpenError);
    forall j: nat
      ensures Some(IoError(p, StatError(j))) in w.errors <==>
                d.Listing? && j < |d.entries| && d.entries[j].name !in {".", ".."} && d.entries[j].stat.StatFails?
    {
      PlanActs(d, StatError(j));
    }
  }

  // ----- Stopping

  /** At p nothing was done and nothing will be. */
  ghost predicate Idle(w: World, p: Pos) {
    w.stopped && p in w.task && Done(w.task[p]) + Todo(w.task[p]) == []
  }

  lemma StaysIdle(w: World, op: Op, x: World, p: Pos)
    requires Sound(w) && Idle(w, p) && Next(w, op, x)
    ensures Idle(x, p)
  {
    hide Counted, Recorded, Once, Plan, DirAt;
    if op.Do? { NotYet(w, op.pos); }
  }

  /** Once the walk is stopped, a directory whose task has not begun is never opened: whatever follows, it leaves no
      result and no error, and none of its entries is entered. */
  lemma StopIsFinal(b: seq<World>, ops: seq<Op>, j: nat, i: nat, p: Pos)
    requires Runs.Joined(b, ops, Next) && Start(b[0]) && j <= i < |b|
    requires b[j].stopped && p in b[j].task && b[j].task[p].Queued?
    ensures Some(p) !in b[i].results && (forall a :: Some(IoError(p, a)) !in b[i].errors)
    ensures forall k: nat :: p + [k] !in b[i].task
  {
    hide Next, Start, Sound;
    IdleFrom(b, ops, j, i, p);
    EveryScheduleIsSound(b, ops, i);
    ByTasks(b[i], p);
    NothingSpawned(b[i], p);
  }

  lemma {:induction false} IdleFrom(b: seq<World>, ops: seq<Op>, j: nat, i: nat, p: Pos)
    requires Runs.Joined(b, ops, Next) && Start(b[0]) && j <= i < |b|
    requires b[j].stopped && p in b[j].task && b[j].task[p].Queued?
    ensures Idle(b[i], p)
    decreases i
  {
    hide Next, Start, Sound;
    if j < i {
      IdleFrom(b, ops, j, i - 1, p);
      EveryScheduleIsSound(b, ops, i - 1);
      assert Next(b[i - 1], ops[i - 1], b[i]);
      StaysIdle(b[i - 1], ops[i - 1], b[i], p);
    }
  }

  lemma NothingSpawned(w: World, p: Pos)
    requires Sound(w) && Idle(w, p)
    ensures Done(w.task[p]) == [] && forall k: nat :: p + [k] !in w.task
  {
    hide Counted, ResultsRecorded, ErrorsRecorded, Once, Follows;
    forall k: nat
      ensures p + [k] !in w.task
    {
      var q := p + [k];
      assert Up(q) == p && q[|q| - 1] == k;
    }
  }

  lemma NothingBreaksOff(root: Dir)
    requires Readable(root)
    ensures NoneBroken(root)
  {
    forall p | DirAt(root, p).Some? ensures !DirAt(root, p).value.Broken? { SamePlaces(root, p); }
  }

  lemma WasRead(w: World, p: Pos)
    requires Sound(w) && w.count == 0 && !w.stopped && NoneBroken(w.root) && DirAt(w.root, p).Some?
    ensures p in w.task && !DirAt(w.root, p).value.Broken?
  {
    hide Sound, Whole;
    FinishedWalkSpawns(w, p);
    if p != [] {
      assert DirAt(w.root, Up(p)).Some?;
      AllWhole(w.root, Up(p));
    }
  }
}
