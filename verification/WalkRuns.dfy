/** What the walker's queues hold, in every schedule of its tasks. */
module WalkRuns {
  import opened Options
  import opened WalkModel
  import Runs

  /** A task waits in the executor, runs, or is gone; `done` is what it did. */
  datatype Stage = Queued | Running(done: seq<Act>, todo: seq<Act>) | Gone(done: seq<Act>)

  /** An entry of the error queue. */
  datatype IoError = IoError(pos: Pos, act: Act)

  /** How far the last counter's destructor is. */
  datatype Ending = Open | ResultsToEnd | ErrorsToEnd | Over

  /** `results` and `errors` are all that was ever put in the queues; None is the end sentinel. `task`: every
      task ever spawned. */
  datatype World = World(
    root: Dir, task: map<Pos, Stage>, count: nat, stopped: bool,
    results: seq<Option<Pos>>, errors: seq<Option<IoError>>, ending: Ending)

  datatype Op = Begin(pos: Pos) | Do(pos: Pos) | Finish(pos: Pos) | EndResults | EndErrors | Stop

  // ----- Steps

  /** The entries a directory has, read or not. */
  function Entries(d: Dir): seq<Dirent> { if d.Listing? || d.Broken? then d.entries else [] }

  /** The directory at a position, when only directories on the root's mount lead to it. */
  function DirAt(root: Dir, p: Pos): Option<Dir> {
    if p == [] then Some(root)
    else
      var up := DirAt(root, p[..|p| - 1]);
      var i := p[|p| - 1];
      if up.Some? && i < |Entries(up.value)| && Enters(Entries(up.value)[i])
      then Some(Entries(up.value)[i].stat.dir)
      else None
  }

  predicate IsRunning(w: World, p: Pos) { p in w.task && w.task[p].Running? }

  /** One queue operation or spawn of a running task. */
  function Acted(w: World, p: Pos): World
    requires IsRunning(w, p) && w.task[p].todo != []
  {
    var a := w.task[p].todo[0];
    var x := w.(task := w.task[p := Running(w.task[p].done + [a], w.task[p].todo[1..])]);
    match a
    case PushResult => x.(results := w.results + [Some(p)])
    case Spawn(i) => x.(task := x.task[p + [i] := Queued], count := w.count + 1)
    case _ => x.(errors := w.errors + [Some(IoError(p, a))])
  }

  /** A task ends and its counter goes; the one that takes the count to zero ends the queues. */
  function Finished(w: World, p: Pos): World
    requires IsRunning(w, p) && w.count > 0
  {
    w.(task := w.task[p := Gone(w.task[p].done)], count := w.count - 1,
       ending := if w.count == 1 then ResultsToEnd else w.ending)
  }

  ghost predicate Next(w: World, op: Op, x: World) {
    match op
    case Begin(p) =>
      && p in w.task && w.task[p].Queued? && DirAt(w.root, p).Some?
      && x == w.(task := w.task[p := Running([], if w.stopped then [] else Plan(DirAt(w.root, p).value))])
    case Do(p) => IsRunning(w, p) && w.task[p].todo != [] && x == Acted(w, p)
    case Finish(p) => IsRunning(w, p) && w.task[p].todo == [] && w.count > 0 && x == Finished(w, p)
    case EndResults => w.ending == ResultsToEnd && x == w.(results := w.results + [None], ending := ErrorsToEnd)
    case EndErrors => w.ending == ErrorsToEnd && x == w.(errors := w.errors + [None], ending := Over)
    case Stop => x == w.(stopped := true)
  }

  ghost predicate Start(w: World) { w == World(w.root, map[[] := Queued], 1, false, [], [], Open) }

  // ----- Counters and sentinels

  ghost function Live(w: World): set<Pos> { set p | p in w.task && !w.task[p].Gone? }

  predicate Unended<T>(q: seq<Option<T>>) { forall i :: 0 <= i < |q| ==> q[i].Some? }

  /** The queue was ended once, after everything else. */
  predicate Ended<T>(q: seq<Option<T>>) { q != [] && q[|q| - 1].None? && Unended(q[..|q| - 1]) }

  /** The count is the number of live tasks; the end sentinels follow the last of them, once each. */
  ghost predicate Counted(w: World) {
    && w.count == |Live(w)|
    && (w.ending == Open <==> w.count > 0)
    && (if w.ending == Open || w.ending == ResultsToEnd then Unended(w.results) else Ended(w.results))
    && (if w.ending == Over then Ended(w.errors) else Unended(w.errors))
  }

  lemma NoneLive(w: World)
    requires Counted(w) && w.ending != Open
    ensures forall p :: p in w.task ==> w.task[p].Gone?
  {
    assert Live(w) == {};
    forall p | p in w.task
      ensures w.task[p].Gone?
    {
      assert p !in Live(w);
    }
  }

  lemma DoIsCounted(w: World, p: Pos)
    requires Counted(w) && IsRunning(w, p) && w.task[p].todo != []
    requires w.task[p].todo[0].Spawn? ==> p + [w.task[p].todo[0].i] !in w.task
    ensures Counted(Acted(w, p))
  {
    var x := Acted(w, p);
    assert p in Live(w);
    var a := w.task[p].todo[0];
    if a.Spawn? {
      assert Live(x) == Live(w) + {p + [a.i]};
    } else {
      assert Live(x) == Live(w);
    }
  }

  lemma FinishIsCounted(w: World, p: Pos)
    requires Counted(w) && IsRunning(w, p) && w.count > 0
    ensures Counted(Finished(w, p))
  {
    assert p in Live(w);
    assert Live(Finished(w, p)) == Live(w) - {p};
  }

  lemma EndIsCounted(w: World, op: Op, x: World)
    requires Counted(w) && Next(w, op, x) && (op.EndResults? || op.EndErrors?)
    ensures Counted(x)
  {
    assert Live(x) == Live(w);
    assert op.EndResults? ==> x.results[..|x.results| - 1] == w.results;
    assert op.EndErrors? ==> x.errors[..|x.errors| - 1] == w.errors;
  }

  lemma BeginIsCounted(w: World, op: Op, x: World)
    requires Counted(w) && Next(w, op, x) && (op.Begin? || op.Stop?)
    ensures Counted(x)
  {
    assert Live(x) == Live(w);
  }

  // ----- What each task has done

  function Done(s: Stage): seq<Act> { if s.Queued? then [] else s.done }

  function Todo(s: Stage): seq<Act> { if s.Running? then s.todo else [] }

  /** A task that has begun follows its plan, unless the walk was stopped before it began. */
  ghost predicate Follows(w: World, p: Pos)
    requires p in w.task
  {
    && DirAt(w.root, p).Some?
    && var s := w.task[p];
       !s.Queued? ==> Done(s) + Todo(s) == Plan(DirAt(w.root, p).value) || (w.stopped && Done(s) + Todo(s) == [])
  }

  /** The queues and the spawned tasks record exactly what was done. */
  ghost predicate ResultsRecorded(w: World) {
    forall p :: Some(p) in w.results <==> p in w.task && PushResult in Done(w.task[p])
  }

  predicate IsError(a: Act) { a.OpenError? || a.StatError? }

  ghost predicate ErrorsRecorded(w: World) {
    forall e :: Some(e) in w.errors <==> e.pos in w.task && e.act in Done(w.task[e.pos]) && IsError(e.act)
  }

  ghost predicate SpawnsRecorded(w: World) {
    && (forall q :: q in w.task && q != [] ==> Up(q) in w.task && Spawn(q[|q| - 1]) in Done(w.task[Up(q)]))
    && (forall p, i: nat :: p in w.task && Spawn(i) in Done(w.task[p]) ==> p + [i] in w.task)
  }

  ghost predicate Recorded(w: World) { ResultsRecorded(w) && ErrorsRecorded(w) && SpawnsRecorded(w) }

  function Up(p: Pos): Pos
    requires p != []
  {
    p[..|p| - 1]
  }

  ghost predicate Once<T>(q: seq<Option<T>>) {
    forall i, j :: 0 <= i < j < |q| && q[i].Some? ==> q[i] != q[j]
  }

  ghost predicate Sound(w: World) {
    && Counted(w) && [] in w.task && Recorded(w) && Once(w.results) && Once(w.errors)
    && forall p :: p in w.task ==> Follows(w, p)
  }

  // ----- A step of a task

  /** What a task is about to do it has not done. */
  lemma NotYet(w: World, p: Pos)
    requires Sound(w) && IsRunning(w, p) && w.task[p].todo != []
    ensures var a := w.task[p].todo[0];
            && a !in w.task[p].done
            && (a == PushResult ==> Some(p) !in w.results)
            && (IsError(a) ==> Some(IoError(p, a)) !in w.errors)
            && (a.Spawn? ==> p + [a.i] !in w.task)
  {
    hide Plan, Counted;
    assert Follows(w, p);
    var s := w.task[p];
    var a := s.todo[0];
    PlanIsOnce(DirAt(w.root, p).value);
    var plan := s.done + s.todo;
    assert plan[|s.done|] == a;
    assert forall k :: 0 <= k < |s.done| ==> plan[k] == s.done[k];
    if a.Spawn? {
      var q := p + [a.i];
      assert Up(q) == p;
    }
  }

  lemma DoFollows(w: World, p: Pos)
    requires Sound(w) && IsRunning(w, p) && w.task[p].todo != []
    ensures forall q :: q in Acted(w, p).task ==> Follows(Acted(w, p), q)
  {
    hide Plan, Counted, Recorded, Once;
    var x := Acted(w, p);
    var s := w.task[p];
    var a := s.todo[0];
    assert Follows(w, p);
    assert x.task[p].done + x.task[p].todo == s.done + s.todo || a.Spawn? by {
      assert s.todo == [a] + s.todo[1..];
    }
    forall q | q in x.task
      ensures Follows(x, q)
    {
      if q == p {
        assert s.todo == [a] + s.todo[1..];
      } else if q in w.task {
        assert Follows(w, q);
      } else {
        assert q == p + [a.i] && q[..|q| - 1] == p && q[|q| - 1] == a.i;
        assert (s.done + s.todo)[|s.done|] == a;
        PlanActs(DirAt(w.root, p).value, a);
      }
    }
  }

  /** After `a` at p: what changed in the queues, and what everybody has done. */
  ghost predicate Effect(w: World, p: Pos, a: Act, x: World) {
    && p in w.task
    && x.results == (if a == PushResult then w.results + [Some(p)] else w.results)
    && x.errors == (if IsError(a) then w.errors + [Some(IoError(p, a))] else w.errors)
    && (forall q :: q in x.task <==> q in w.task || (a.Spawn? && q == p + [a.i]))
    && (forall q :: q in w.task && q != p ==> Done(x.task[q]) == Done(w.task[q]))
    && (forall q :: q in x.task && q !in w.task ==> Done(x.task[q]) == [])
    && Done(x.task[p]) == Done(w.task[p]) + [a]
  }

  lemma DoHasEffect(w: World, p: Pos)
    requires Sound(w) && IsRunning(w, p) && w.task[p].todo != []
    ensures Effect(w, p, w.task[p].todo[0], Acted(w, p))
  {
    hide Follows, Counted, Recorded, Once;
    NotYet(w, p);
    var a := w.task[p].todo[0];
    assert a.Spawn? ==> |p + [a.i]| != |p|;
  }

  lemma EffectOnResults(w: World, p: Pos, a: Act, x: World)
    requires Effect(w, p, a, x) && ResultsRecorded(w) && Once(w.results)
    requires a == PushResult ==> Some(p) !in w.results
    ensures ResultsRecorded(x) && Once(x.results)
  {
    hide Done;
    assert forall q :: q in w.task ==>
             (PushResult in Done(x.task[q]) <==> PushResult in Done(w.task[q]) || (q == p && a == PushResult));
  }

  lemma EffectOnErrors(w: World, p: Pos, a: Act, x: World)
    requires Effect(w, p, a, x) && ErrorsRecorded(w) && Once(w.errors)
    requires IsError(a) ==> Some(IoError(p, a)) !in w.errors
    ensures ErrorsRecorded(x) && Once(x.errors)
  {
    hide Done;
    assert forall e: IoError :: e.pos in w.task ==>
             (e.act in Done(x.task[e.pos]) <==> e.act in Done(w.task[e.pos]) || e == IoError(p, a));
  }

  lemma EffectOnSpawns(w: World, p: Pos, a: Act, x: World)
    requires Effect(w, p, a, x) && SpawnsRecorded(w)
    ensures SpawnsRecorded(x)
  {
    hide Done;
    forall q | q in x.task && q != []
      ensures Up(q) in x.task && Spawn(q[|q| - 1]) in Done(x.task[Up(q)])
    {
      if q in w.task {
        assert Done(w.task[Up(q)]) <= Done(x.task[Up(q)]);
      } else {
        assert Up(q) == p;
      }
    }
    forall r, i: nat | r in x.task && Spawn(i) in Done(x.task[r])
      ensures r + [i] in x.task
    {
      assert r in w.task;
      assert r != p ==> Spawn(i) in Done(w.task[r]);
    }
  }

  lemma DoIsRecorded(w: World, p: Pos)
    requires Sound(w) && IsRunning(w, p) && w.task[p].todo != []
    ensures Recorded(Acted(w, p)) && Once(Acted(w, p).results) && Once(Acted(w, p).errors)
  {
    hide Follows, Counted, Acted, ResultsRecorded, ErrorsRecorded, SpawnsRecorded, Once, Effect;
    NotYet(w, p);
    DoHasEffect(w, p);
    var x, a := Acted(w, p), w.task[p].todo[0];
    EffectOnResults(w, p, a, x);
    EffectOnErrors(w, p, a, x);
    EffectOnSpawns(w, p, a, x);
  }

  /** Nothing was done: at most a sentinel was put in a queue. */
  ghost predicate Quiet(w: World, x: World) {
    && x.task.Keys == w.task.Keys && (forall q :: q in w.task ==> Done(x.task[q]) == Done(w.task[q]))
    && (x.results == w.results || x.results == w.results + [None])
    && (x.errors == w.errors || x.errors == w.errors + [None])
  }

  lemma QuietIsRecorded(w: World, x: World)
    requires Recorded(w) && Quiet(w, x)
    ensures Recorded(x)
  {
    hide Done, SpawnsRecorded, ErrorsRecorded, ResultsRecorded;
    QuietResults(w, x);
    QuietErrors(w, x);
    QuietSpawns(w, x);
  }

  lemma QuietResults(w: World, x: World)
    requires ResultsRecorded(w) && Quiet(w, x)
    ensures ResultsRecorded(x)
  {
    hide Done;
    assert forall p :: Some(p) in x.results <==> Some(p) in w.results;
  }

  lemma QuietErrors(w: World, x: World)
    requires ErrorsRecorded(w) && Quiet(w, x)
    ensures ErrorsRecorded(x)
  {
    hide Done;
    assert forall e :: Some(e) in x.errors <==> Some(e) in w.errors;
  }

  lemma QuietSpawns(w: World, x: World)
    requires SpawnsRecorded(w) && Quiet(w, x)
    ensures SpawnsRecorded(x)
  {
    hide Done;
  }

  lemma QuietIsOnce<T(!new)>(q: seq<Option<T>>, r: seq<Option<T>>)
    requires Once(q) && (r == q || r == q + [None])
    ensures Once(r)
  {}

  lemma QuietFollows(w: World, op: Op, x: World)
    requires Sound(w) && Next(w, op, x) && !op.Do?
    ensures Quiet(w, x) && forall q :: q in x.task ==> Follows(x, q)
  {
    hide Plan, Counted, Recorded, Once, DirAt;
    assert x.root == w.root && (w.stopped ==> x.stopped) && x.task.Keys == w.task.Keys;
    forall q | q in x.task
      ensures Done(x.task[q]) == Done(w.task[q]) && Follows(x, q)
    {
      assert Follows(w, q);
      if op.Begin? && q == op.pos {
        assert [] + x.task[q].todo == x.task[q].todo;
      } else if op.Finish? && q == op.pos {
        assert Done(x.task[q]) + [] == Done(w.task[q]) + w.task[q].todo;
      } else {
        assert x.task[q] == w.task[q];
      }
    }
  }

  /** A step that moves a task on without doing anything. */
  lemma QuietStep(w: World, op: Op, x: World)
    requires Sound(w) && Next(w, op, x) && !op.Do? && Counted(x)
    ensures Sound(x)
  {
    hide Follows, Recorded, Once, Counted, Next;
    QuietFollows(w, op, x);
    QuietIsRecorded(w, x);
    QuietIsOnce(w.results, x.results);
    QuietIsOnce(w.errors, x.errors);
  }

  lemma StepIsSound(w: World, op: Op, x: World)
    requires Sound(w) && Next(w, op, x)
    ensures Sound(x)
  {
    hide Plan, Counted, Acted, Finished, Follows, Recorded, Once;
    match op
    case Do(p) =>
      NotYet(w, p);
      DoIsCounted(w, p);
      DoIsRecorded(w, p);
      DoFollows(w, p);
      DoKeepsRoot(w, p);
    case Finish(p) =>
      FinishIsCounted(w, p);
      QuietStep(w, op, x);
    case Begin(_) =>
      BeginIsCounted(w, op, x);
      QuietStep(w, op, x);
    case Stop =>
      BeginIsCounted(w, op, x);
      QuietStep(w, op, x);
    case _ =>
      EndIsCounted(w, op, x);
      QuietStep(w, op, x);
  }

  lemma DoKeepsRoot(w: World, p: Pos)
    requires IsRunning(w, p) && w.task[p].todo != [] && [] in w.task
    ensures [] in Acted(w, p).task
  {}

  lemma StartIsSound(w: World)
    requires Start(w)
    ensures Sound(w)
  {
    assert Live(w) == {[]};
    assert w.task[[]] == Queued;
    forall q | q in w.task
      ensures q == [] && Follows(w, q)
    {}
  }

  /** In every schedule the count is the number of live tasks, each queue is ended once and last, and the queues
      hold each thing a task did exactly once. */
  lemma EveryScheduleIsSound(b: seq<World>, ops: seq<Op>, i: nat)
    requires Runs.Joined(b, ops, Next) && Start(b[0]) && i < |b|
    ensures Sound(b[i]) && b[i].count == |Live(b[i])|
    ensures b[i].ending == Over ==> Ended(b[i].results) && Ended(b[i].errors)
    ensures b[i].ending == Open ==> Unended(b[i].results) && Unended(b[i].errors)
  {
    hide Next, Start, Recorded, Follows, Once;
    StartIsSound(b[0]);
    forall w, op, x | Sound(w) && Next(w, op, x)
      ensures Sound(x)
    {
      StepIsSound(w, op, x);
    }
    Runs.Throughout(b, ops, Sound, Next, i);
  }

  /** The count never leaves zero again, and nothing but the sentinels follows. */
  lemma ZeroIsFinal(w: World, op: Op, x: World)
    requires Sound(w) && Next(w, op, x) && w.count == 0
    ensures x.count == 0 && x.task == w.task && (op.EndResults? || op.EndErrors? || op.Stop?)
  {
    hide Recorded, Once, Follows, Plan;
    NoneLive(w);
  }

  // ----- A finished walk

  /** Opened, and ignored by openDir. */
  ghost predicate WasIgnored(w: World, p: Pos) {
    p in w.task && !w.task[p].Queued? && DirAt(w.root, p) == Some(Ignored)
  }

  /** The directory left exactly one of a result, an opendir error and, because it was ignored, nothing. The queues
      hold each of the first two at most once. */
  ghost predicate Accounted(w: World, p: Pos) {
    var result, error, ignored := Some(p) in w.results, Some(IoError(p, OpenError)) in w.errors, WasIgnored(w, p);
    (result && !error && !ignored) || (!result && error && !ignored) || (!result && !error && ignored)
  }

  /** Neither the directory nor one above it breaks off. */
  predicate Whole(root: Dir, p: Pos)
    requires DirAt(root, p).Some?
  {
    !DirAt(root, p).value.Broken? && (p != [] ==> (assert DirAt(root, Up(p)).Some?; Whole(root, Up(p))))
  }

  lemma EndedIsGone(w: World)
    requires Counted(w) && w.count == 0
    ensures forall p :: p in w.task ==> w.task[p].Gone?
  {
    NoneLive(w);
  }

  /** What a task that ran to its end has done. */
  lemma FinishedTask(w: World, p: Pos)
    requires Sound(w) && w.count == 0 && !w.stopped && p in w.task
    ensures DirAt(w.root, p).Some? && w.task[p].Gone? && Done(w.task[p]) == Plan(DirAt(w.root, p).value)
  {
    hide Plan, Counted, Once, Recorded;
    EndedIsGone(w);
    assert Follows(w, p);
    assert Done(w.task[p]) + [] == Done(w.task[p]);
  }

  /** At the end of a walk that was never stopped, the directories that were read are those above which nothing
      breaks off. */
  lemma {:induction false} FinishedWalkSpawns(w: World, p: Pos)
    requires Sound(w) && w.count == 0 && !w.stopped && DirAt(w.root, p).Some?
    ensures p in w.task <==> p == [] || (assert DirAt(w.root, Up(p)).Some?; Whole(w.root, Up(p)))
    decreases |p|
  {
    hide Plan, Counted, Once;
    if p != [] {
      var up, i := Up(p), p[|p| - 1];
      assert p == up + [i];
      FinishedWalkSpawns(w, up);
      if up in w.task {
        FinishedTask(w, up);
        PlanActs(DirAt(w.root, up).value, Spawn(i));
      }
    }
  }

  /** A finished walk accounts for a directory if and only if neither it nor one above it breaks off. */
  lemma FinishedWalkAccounts(w: World, p: Pos)
    requires Sound(w) && w.count == 0 && !w.stopped && DirAt(w.root, p).Some?
    ensures Accounted(w, p) <==> Whole(w.root, p)
    ensures Whole(w.root, p) ==> (DirAt(w.root, p).value.Listing? <==> Some(p) in w.results)
    ensures Whole(w.root, p) ==> (DirAt(w.root, p).value.Failed? <==> Some(IoError(p, OpenError)) in w.errors)
  {
    hide Plan, Counted, Once, Follows, SpawnsRecorded;
    FinishedWalkSpawns(w, p);
    var e := IoError(p, OpenError);
    assert Some(e) in w.errors <==> e.pos in w.task && e.act in Done(w.task[e.pos]);
    if p in w.task {
      FinishedTask(w, p);
      PlanActs(DirAt(w.root, p).value, PushResult);
      PlanActs(DirAt(w.root, p).value, OpenError);
    }
  }

  ghost predicate AllAccounted(w: World) { forall p :: DirAt(w.root, p).Some? ==> Accounted(w, p) }

  ghost predicate NoneBroken(root: Dir) { forall p :: DirAt(root, p).Some? ==> !DirAt(root, p).value.Broken? }

  /** A finished walk accounts for every directory on the root's mount if and only if none of them breaks off. */
  lemma FinishedWalkIsComplete(w: World)
    requires Sound(w) && w.count == 0 && !w.stopped
    ensures AllAccounted(w) <==> NoneBroken(w.root)
  {
    hide Sound, Accounted, Whole;
    if NoneBroken(w.root) {
      forall p | DirAt(w.root, p).Some?
        ensures Accounted(w, p)
      {
        FinishedWalkAccounts(w, p);
        AllWhole(w.root, p);
      }
    }
    if AllAccounted(w) {
      forall p | DirAt(w.root, p).Some?
        ensures !DirAt(w.root, p).value.Broken?
      {
        FinishedWalkAccounts(w, p);
        WholeIsRead(w.root, p);
      }
    }
  }

  lemma WholeIsRead(root: Dir, p: Pos)
    requires DirAt(root, p).Some? && Whole(root, p)
    ensures !DirAt(root, p).value.Broken?
  {}

  lemma {:induction false} AllWhole(root: Dir, p: Pos)
    requires DirAt(root, p).Some? && NoneBroken(root)
    ensures Whole(root, p)
    decreases |p|
  {
    if p != [] {
      assert DirAt(root, Up(p)).Some?;
      AllWhole(root, Up(p));
    }
  }

  /** The root's second entry cannot be read: the walk ends with both sentinels, no result and no error, and its
      subdirectory is never opened. */
  lemma BrokenRootLeavesNothing() returns (b: seq<World>, ops: seq<Op>)
    ensures Runs.Joined(b, ops, Next) && Start(b[0]) && |ops| == 4
    ensures var w := b[4];
            && w.root.Broken? && DirAt(w.root, [0]).Some? && w.count == 0 && !w.stopped && w.ending == Over
            && w.results == [None] && w.errors == [None] && !Accounted(w, []) && !Accounted(w, [0])
  {
    hide Plan, DirAt, BrokenRoot;
    BrokenRootIsBroken();
    var root := BrokenRoot();
    var w0 := World(root, map[[] := Queued], 1, false, [], [], Open);
    var w1 := w0.(task := map[[] := Running([], [])]);
    var w2 := w1.(task := map[[] := Gone([])], count := 0, ending := ResultsToEnd);
    var w3 := w2.(results := [None], ending := ErrorsToEnd);
    var w4 := w3.(errors := [None], ending := Over);
    b, ops := [w0, w1, w2, w3, w4], [Begin([]), Finish([]), EndResults, EndErrors];
    BrokenRootPlan();
    assert Next(w0, ops[0], w1) && Next(w1, ops[1], w2) && Next(w2, ops[2], w3) && Next(w3, ops[3], w4);
  }

  ghost function BrokenRoot(): Dir {
    Broken([Dirent("sub", Subdir(true, Listing([]))), Dirent("f", NotADir)], 1)
  }

  lemma BrokenRootIsBroken()
    ensures BrokenRoot().Broken?
  {}

  lemma BrokenRootPlan()
    ensures Plan(BrokenRoot()) == [] && DirAt(BrokenRoot(), []) == Some(BrokenRoot())
    ensures DirAt(BrokenRoot(), [0]) == Some(Listing([]))
  {
    var root := BrokenRoot();
    assert Read(root) == [root.entries[0]];
    NoErrors(Read(root));
    assert DirAt(root, [0][..0]) == Some(root);
  }

  lemma NoErrors(es: seq<Dirent>)
    requires forall i :: 0 <= i < |es| ==> !Fails(es[i])
    ensures StatErrors(es) == []
  {
    var r := StatErrors(es);
    assert forall j :: 0 <= j < |r| ==> r[j] in r;
  }

  /** Only reachable directories have results, at all times. */
  lemma ResultsAreReachable(w: World, p: Pos)
    requires Sound(w) && Some(p) in w.results
    ensures DirAt(w.root, p).Some? && DirAt(w.root, p).value.Listing?
  {
    assert Follows(w, p);
    var s := w.task[p];
    assert PushResult in Done(s) + Todo(s);
    PlanActs(DirAt(w.root, p).value, PushResult);
  }

  // ----- Order

  /** A directory's result comes before its subdirectories'. */
  ghost predicate ParentsFirst(results: seq<Option<Pos>>) {
    forall i :: 0 <= i < |results| && results[i].Some? && results[i].value != [] ==>
      Some(Up(results[i].value)) in results[..i]
  }

  lemma PushIsOrdered(w: World, op: Op, x: World)
    requires Sound(w) && ParentsFirst(w.results) && Next(w, op, x)
    ensures ParentsFirst(x.results)
  {
    hide Plan, Counted, Once, Follows, DirAt, ErrorsRecorded;
    if x.results != w.results {
      var last := x.results[|x.results| - 1];
      assert x.results == w.results + [last];
      if last.Some? && last.value != [] { ParentIsThere(w, last.value); }
      AppendIsOrdered(w.results, last);
    }
  }

  /** The parent of a directory that has a task has its result in the queue. */
  lemma ParentIsThere(w: World, p: Pos)
    requires Sound(w) && p in w.task && p != []
    ensures Some(Up(p)) in w.results
  {
    hide Plan, Counted, Once, ErrorsRecorded;
    var up := Up(p);
    assert Follows(w, up);
    var s := w.task[up];
    assert Spawn(p[|p| - 1]) in Done(s);
    assert Done(s) <= Done(s) + Todo(s);
    ResultFirst(DirAt(w.root, up).value, Done(s), p[|p| - 1]);
  }

  lemma AppendIsOrdered(results: seq<Option<Pos>>, r: Option<Pos>)
    requires ParentsFirst(results) && (r.Some? && r.value != [] ==> Some(Up(r.value)) in results)
    ensures ParentsFirst(results + [r])
  {
    var all, n := results + [r], |results|;
    assert all[..n] == results;
    assert forall i :: 0 <= i < n ==> all[..i] == results[..i];
  }

  ghost predicate Ordered(w: World) { Sound(w) && ParentsFirst(w.results) }

  lemma ParentsComeFirst(b: seq<World>, ops: seq<Op>, i: nat)
    requires Runs.Joined(b, ops, Next) && Start(b[0]) && i < |b|
    ensures ParentsFirst(b[i].results)
  {
    hide Next, Sound, ParentsFirst;
    StartIsSound(b[0]);
    NothingYet(b[0]);
    forall w, op, x | Ordered(w) && Next(w, op, x)
      ensures Ordered(x)
    {
      StepIsSound(w, op, x);
      PushIsOrdered(w, op, x);
    }
    Runs.Throughout(b, ops, Ordered, Next, i);
  }

  /** In every schedule, before a directory's result come the results of all the directories above it. */
  lemma AncestorsComeFirst(b: seq<World>, ops: seq<Op>, i: nat, j: nat, k: nat)
    requires Runs.Joined(b, ops, Next) && Start(b[0]) && i < |b|
    requires j < |b[i].results| && b[i].results[j].Some? && k < |b[i].results[j].value|
    ensures Some(b[i].results[j].value[..k]) in b[i].results[..j]
  {
    hide Next;
    ParentsComeFirst(b, ops, i);
    var n := AncestorAt(b[i].results, j, k);
    assert b[i].results[..j][n] == Some(b[i].results[j].value[..k]);
  }

  lemma ParentAt(results: seq<Option<Pos>>, j: nat) returns (m: nat)
    requires ParentsFirst(results) && j < |results| && results[j].Some? && results[j].value != []
    ensures m < j && results[m] == Some(Up(results[j].value))
  {
    m :| 0 <= m < j && results[..j][m] == Some(Up(results[j].value));
  }

  lemma {:induction false} AncestorAt(results: seq<Option<Pos>>, j: nat, k: nat) returns (n: nat)
    requires ParentsFirst(results) && j < |results| && results[j].Some? && k < |results[j].value|
    ensures n < j && results[n] == Some(results[j].value[..k])
    decreases j
  {
    hide ParentsFirst;
    var p := results[j].value;
    n := ParentAt(results, j);
    if k < |p| - 1 {
      n := AncestorAt(results, n, k);
      assert Up(p)[..k] == p[..k];
    }
  }

  lemma NothingYet(w: World)
    requires Start(w)
    ensures ParentsFirst(w.results)
  {}
}
