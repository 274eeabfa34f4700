/** A client that chains the clock of each answer into its next query, against a server whose IO thread
    applies batches of changes, ages out deleted files and is restarted, in any interleaving. */
module SinceProtocol {
  import opened ClockSpec
  import opened Filters
  import opened Options
  import opened ViewModel
  import Runs

  /** A query reads the tick, then the age-out tick, and then walks the list under the view's lock. */
  datatype Query = Idle | GotTick(ticks: nat) | GotBoth(ticks: nat, lastAgeOut: nat)

  datatype Client = Client(since: Option<Spec>, known: set<Name>)

  /** `batch`: the IO thread holds the view's lock and is applying changes. `used`: all instances so far. */
  datatype World = World(
    here: Instance, used: set<Instance>, view: View, batch: bool, client: Client, query: Query)

  datatype Op =
    | Begin
    | Change(name: Name, present: bool, timestamp: int)
    | End
    | AgeOut(horizon: int)
    | Restart(next: Instance)
    | ReadTick
    | ReadAgeOut
    | Generate
    | Abandon

  predicate Allowed(w: World, op: Op) {
    match op
    case Begin => !w.batch
    case Change(_, _, _) => w.batch
    case End => w.batch
    case AgeOut(_) => !w.batch
    case Restart(next) => next !in w.used
    case ReadTick => w.query.Idle?
    case ReadAgeOut => w.query.GotTick?
    case Generate => w.query.GotBoth? && !w.batch
    case Abandon => true
  }

  // ----- One query

  /** What the query makes of the client's clock. Without one it is a fresh instance. */
  function Basis(w: World): Since
    requires w.query.GotBoth?
  {
    if w.client.since.None? then SinceClock(true, 0)
    else Evaluate(w.client.since.value, w.here, w.query.ticks, w.query.lastAgeOut, map[]).0
  }

  /** The files of the answer: of a fresh instance all that exist, else the changed ones. */
  function Answer(since: Since, list: seq<Entry>): seq<Entry>
    requires since.SinceClock?
  {
    if since.freshInstance then Filter(list, (e: Entry) => e.present) else ChangedSince(list, since.ticks)
  }

  /** Replace on a fresh answer, patch otherwise. */
  function Patched(known: set<Name>, since: Since, answer: seq<Entry>): set<Name>
    requires since.SinceClock?
  {
    if since.freshInstance then Names(answer)
    else known - Names(answer) + Existing(answer)
  }

  function Generated(w: World): World
    requires w.query.GotBoth? && (w.client.since.Some? ==> w.client.since.value.Clock?)
  {
    var known := Patched(w.client.known, Basis(w), Answer(Basis(w), w.view.list));
    w.(client := Client(Some(Clock(w.here, w.query.ticks)), known), query := Idle)
  }

  function Step(w: World, op: Op): World
    requires Allowed(w, op) && (w.client.since.Some? ==> w.client.since.value.Clock?)
  {
    match op
    case Begin => w.(view := w.view.(tick := w.view.tick + 1), batch := true)
    case Change(n, p, t) => w.(view := Changed(w.view, n, p, t))
    case End => w.(batch := false)
    case AgeOut(h) => w.(view := AgedOut(w.view, h))
    case Restart(next) =>
      w.(here := next, used := w.used + {next}, view := View([], 1, 0), batch := false, query := Idle)
    case ReadTick => w.(query := GotTick(w.view.tick))
    case ReadAgeOut => w.(query := GotBoth(w.query.ticks, w.view.lastAgeOut))
    case Generate => Generated(w)
    case Abandon => w.(query := Idle)
  }

  // ----- What every step keeps

  ghost predicate Sound(w: World) {
    && Wf(w.view) && w.here in w.used
    && (w.client.since.Some? ==> w.client.since.value.Clock? && w.client.since.value.instance in w.used)
    && (!w.query.Idle? ==> w.query.ticks <= w.view.tick)
  }

  /** The client is right about every file of the list that did not change after tick t. */
  ghost predicate Fits(list: seq<Entry>, t: nat, known: set<Name>) {
    forall e :: e in list && e.otime.ticks <= t ==> (e.name in known <==> e.present)
  }

  /** The list is in order and without repetitions, and the client fits it. */
  ghost predicate Listed(w: World) {
    && Sound(w)
    && (w.client.since.Some? && w.client.since.value.instance == w.here ==>
          var t := w.client.since.value.ticks;
          t <= w.view.tick && (w.batch ==> t < w.view.tick) && Fits(w.view.list, t, w.client.known))
  }

  /** Also, the next query is fresh if a file the client knows is forgotten. */
  ghost predicate InStep(w: World) {
    && Listed(w)
    && (w.client.since.Some? && w.client.since.value.instance == w.here ==>
          forall n :: n in w.client.known && n !in Names(w.view.list) ==>
            w.client.since.value.ticks < w.view.lastAgeOut)
  }

  /** No age-out overtook the query: judged again under the lock, the clock would still do. */
  predicate Steady(w: World)
    requires w.query.GotBoth? && (w.client.since.Some? ==> w.client.since.value.Clock?)
  {
    Basis(w).freshInstance || w.view.lastAgeOut <= Basis(w).ticks
  }

  // ----- One answer

  /** After any answer, overtaken or not, the client is right about every file of the list; and it still knows a file
      that is not on the list only if it knew it before and the answer is not fresh. */
  lemma AnswerFitsList(w: World)
    requires Listed(w) && Allowed(w, Generate)
    ensures forall e :: e in w.view.list ==> (e.name in Generated(w).client.known <==> e.present)
    ensures forall n :: n !in Names(w.view.list) ==>
              (n in Generated(w).client.known <==> !Basis(w).freshInstance && n in w.client.known)
  {
    var list, since := w.view.list, Basis(w);
    var known := Generated(w).client.known;
    EntryIsUnique(list);
    if !since.freshInstance {
      EarlyExitIsExact(list, since.ticks);
      var answer := ChangedSince(list, since.ticks);
      forall e | e in list
        ensures e.name in known <==> e.present
      {
        if e in answer {
          assert e.name in Names(answer);
          assert e.present <==> e.name in Existing(answer);
        } else {
          assert e.name !in Names(answer);
        }
      }
      assert forall n :: n in Names(answer) ==> n in Names(list);
    } else {
      assert known == Existing(list);
    }
  }

  /** An answer makes the client exact if and only if it is fresh or no file the client knows was forgotten. */
  lemma AnswerIsExact(w: World)
    requires Listed(w) && Allowed(w, Generate)
    ensures Generated(w).client.known == Existing(w.view.list) <==>
              Basis(w).freshInstance || w.client.known <= Names(w.view.list)
  {
    hide Generated, Basis;
    var list, known := w.view.list, Generated(w).client.known;
    AnswerFitsList(w);
    assert forall n :: n in Existing(list) ==> n in known;
    assert forall n :: n in known && n in Names(list) ==> n in Existing(list);
    assert Existing(list) <= Names(list);
  }

  lemma EntryIsUnique(list: seq<Entry>)
    requires Distinct(list)
    ensures forall d, e :: d in list && e in list && d.name == e.name ==> d == e
  {}

  /** It is enough that the age-out tick has not moved past the client's clock. */
  lemma SteadyAnswerIsExact(w: World)
    requires InStep(w) && Allowed(w, Generate) && Steady(w)
    ensures Generated(w).client.known == Existing(w.view.list)
  {
    AnswerIsExact(w);
  }

  // ----- Every step

  ghost predicate Next(w: World, op: Op, x: World) {
    && Allowed(w, op) && (w.client.since.Some? ==> w.client.since.value.Clock?)
    && x == Step(w, op)
  }

  lemma GenerateKeepsListed(w: World)
    requires Listed(w) && Allowed(w, Generate)
    ensures Listed(Generated(w))
  {
    AnswerFitsList(w);
  }

  lemma ChangeKeepsListed(w: World, name: Name, present: bool, timestamp: int)
    requires Listed(w) && w.batch
    ensures Listed(w.(view := Changed(w.view, name, present, timestamp)))
  {
    var v := Changed(w.view, name, present, timestamp);
    var rest := Without(w.view.list, name);
    assert forall e :: e in v.list <==> e == v.list[0] || e in rest;
  }

  lemma AgeOutKeepsListed(w: World, horizon: int)
    requires Listed(w)
    ensures Listed(w.(view := AgedOut(w.view, horizon)))
  {
    hide AgedOut;
  }

  lemma StepKeepsListed(w: World, op: Op, x: World)
    requires Listed(w) && Next(w, op, x)
    ensures Listed(x)
  {
    hide Changed, AgedOut, Generated;
    match op
    case Change(n, p, t) => ChangeKeepsListed(w, n, p, t);
    case AgeOut(h) => AgeOutKeepsListed(w, h);
    case Generate => GenerateKeepsListed(w);
    case _ =>
  }

  lemma GenerateKeepsStep(w: World)
    requires InStep(w) && Allowed(w, Generate) && Steady(w)
    ensures InStep(Generated(w))
  {
    SteadyAnswerIsExact(w);
    GenerateKeepsListed(w);
  }

  lemma ChangeKeepsStep(w: World, name: Name, present: bool, timestamp: int)
    requires InStep(w) && w.batch
    ensures InStep(w.(view := Changed(w.view, name, present, timestamp)))
  {
    ChangeKeepsListed(w, name, present, timestamp);
    var v := Changed(w.view, name, present, timestamp);
    var rest := Without(w.view.list, name);
    assert forall e :: e in v.list <==> e == v.list[0] || e in rest;
    assert forall n :: n in Names(w.view.list) ==> n in Names(v.list) by {
      assert v.list[0] in v.list;
    }
  }

  lemma AgeOutKeepsStep(w: World, horizon: int)
    requires InStep(w)
    ensures InStep(w.(view := AgedOut(w.view, horizon)))
  {
    hide AgedOut;
  }

  lemma StepKeepsStep(w: World, op: Op, x: World)
    requires InStep(w) && Next(w, op, x) && (op.Generate? ==> Steady(w))
    ensures InStep(x)
  {
    hide Changed, AgedOut, Generated;
    match op
    case Change(n, p, t) => ChangeKeepsStep(w, n, p, t);
    case AgeOut(h) => AgeOutKeepsStep(w, h);
    case Generate => GenerateKeepsStep(w);
    case _ =>
  }

  // ----- Every run

  ghost predicate Start(w: World) {
    w.client == Client(None, {}) && w.query.Idle? && !w.batch && Wf(w.view) && w.here in w.used
  }

  /** In every run, overtaken queries included, the list stays in order and without repetitions, and after every answer
      the client is wrong at most about files that are no longer on it. */
  lemma ErrorsAreForgotten(b: seq<World>, ops: seq<Op>, i: nat)
    requires Runs.Joined(b, ops, Next) && Start(b[0]) && i < |b|
    ensures Listed(b[i])
    ensures i > 0 && ops[i - 1].Generate? ==>
              b[i].client.known * Names(b[i].view.list) == Existing(b[i].view.list)
  {
    hide Changed, AgedOut, Generated, Wf, Step, Basis;
    forall w, op, x | Listed(w) && Next(w, op, x)
      ensures Listed(x)
    {
      StepKeepsListed(w, op, x);
    }
    Runs.Throughout(b, ops, Listed, Next, i);
    if i > 0 {
      Runs.Throughout(b, ops, Listed, Next, i - 1);
      assert Next(b[i - 1], ops[i - 1], b[i]);
      if ops[i - 1].Generate? {
        AnswerFitsList(b[i - 1]);
        GenerateKeepsList(b[i - 1], b[i]);
        OnTheList(b[i].view.list, b[i].client.known);
      }
    }
  }

  lemma OnTheList(list: seq<Entry>, known: set<Name>)
    requires forall e :: e in list ==> (e.name in known <==> e.present)
    ensures known * Names(list) == Existing(list)
  {}

  /** The step leaves the entry of a deleted file alone: the file does not change again, the server is not restarted,
      and an age-out has a horizon before the deletion. */
  predicate Spares(op: Op, e: Entry) {
    !op.Restart? && (op.Change? ==> op.name != e.name) && (op.AgeOut? ==> op.horizon < e.otime.timestamp)
  }

  lemma SparedStays(w: World, op: Op, x: World, e: Entry)
    requires Sound(w) && Next(w, op, x) && e in w.view.list && Spares(op, e)
    ensures e in x.view.list
  {
    hide AgedOut;
    match op
    case AgeOut(h) => RecentDeletionStays(w.view, h, e);
    case Change(n, p, t) =>
      var rest := Without(w.view.list, n);
      assert e in rest;
      assert x.view.list == [x.view.list[0]] + rest;
    case _ =>
  }

  lemma {:induction false} SparedStaysListed(b: seq<World>, ops: seq<Op>, j: nat, i: nat, e: Entry)
    requires Runs.Joined(b, ops, Next) && Start(b[0]) && j <= i < |b| && e in b[j].view.list
    requires forall k :: j <= k < i ==> Spares(ops[k], e)
    ensures e in b[i].view.list
    decreases i
  {
    hide Next, Listed;
    if j < i {
      SparedStaysListed(b, ops, j, i - 1, e);
      assert Next(b[i - 1], ops[i - 1], b[i]);
      ErrorsAreForgotten(b, ops, i - 1);
      ListedIsSound(b[i - 1]);
      SparedStays(b[i - 1], ops[i - 1], b[i], e);
    }
  }

  lemma ListedIsSound(w: World)
    requires Listed(w)
    ensures Sound(w)
  {}

  lemma DeletionIsListed(b: seq<World>, ops: seq<Op>, j: nat, e: Entry)
    requires Runs.Joined(b, ops, Next) && j < |ops| && ops[j] == Change(e.name, e.present, e.otime.timestamp)
    requires e.otime.ticks == b[j].view.tick
    ensures e in b[j + 1].view.list
  {
    hide Changed;
    assert Next(b[j], ops[j], b[j + 1]);
    ChangeShows(b[j].view, e.name, e.present, e.otime.timestamp);
  }

  /** In every run a deletion that only age-outs with earlier horizons have passed over is still reported: a query whose
      basis precedes it lists the file as deleted, and after any answer the client does not believe in the file. */
  lemma DeletionIsReported(b: seq<World>, ops: seq<Op>, j: nat, i: nat, name: Name, timestamp: int)
    requires Runs.Joined(b, ops, Next) && Start(b[0]) && j < i < |ops| && ops[j] == Change(name, false, timestamp)
    requires forall k :: j < k < i ==>
               && !ops[k].Restart? && (ops[k].Change? ==> ops[k].name != name)
               && (ops[k].AgeOut? ==> ops[k].horizon < timestamp)
    requires ops[i].Generate? && Next(b[i], ops[i], b[i + 1])
    ensures name !in b[i + 1].client.known
    ensures var since := Basis(b[i]);
            !since.freshInstance && since.ticks < b[j].view.tick ==>
              Entry(name, false, Stamp(b[j].view.tick, timestamp)) in Answer(since, b[i].view.list)
  {
    hide Changed, AgedOut, Step, Generated;
    var e := Entry(name, false, Stamp(b[j].view.tick, timestamp));
    DeletionIsListed(b, ops, j, e);
    SparedStaysListed(b, ops, j + 1, i, e);
    ErrorsAreForgotten(b, ops, i);
    AnswerFitsList(b[i]);
    GenerateKeepsList(b[i], b[i + 1]);
    if !Basis(b[i]).freshInstance { EarlyExitIsExact(b[i].view.list, Basis(b[i]).ticks); }
  }

  /** A step in which no age-out overtakes a query. */
  ghost predicate SteadyNext(w: World, op: Op, x: World) {
    Next(w, op, x) && (op.Generate? ==> Steady(w))
  }

  /** In every run, every answer leaves the client with exactly the files that exist; and at any time the files
      it is wrong about changed after its clock, or its next query is a fresh instance. */
  lemma ClientFollowsServer(b: seq<World>, ops: seq<Op>, i: nat)
    requires Runs.Joined(b, ops, SteadyNext) && Start(b[0]) && i < |b|
    ensures InStep(b[i])
    ensures i > 0 && ops[i - 1].Generate? ==> b[i].client.known == Existing(b[i].view.list)
  {
    hide Changed, AgedOut, Generated, Wf, Step, Steady;
    forall w, op, x | InStep(w) && SteadyNext(w, op, x)
      ensures InStep(x)
    {
      StepKeepsStep(w, op, x);
    }
    Runs.Throughout(b, ops, InStep, SteadyNext, i);
    if i > 0 {
      Runs.Throughout(b, ops, InStep, SteadyNext, i - 1);
      assert SteadyNext(b[i - 1], ops[i - 1], b[i]);
      if ops[i - 1].Generate? {
        SteadyAnswerIsExact(b[i - 1]);
        GenerateKeepsList(b[i - 1], b[i]);
      }
    }
  }

  lemma GenerateKeepsList(w: World, x: World)
    requires Next(w, Generate, x)
    ensures x == Generated(w) && x.view == w.view
  {}

  /** The client believes in a forgotten file, and its clock is recent enough. */
  ghost predicate Lost(w: World, n: Name) {
    && Sound(w) && n in w.client.known && n !in Names(w.view.list)
    && w.client.since.Some? && w.client.since.value.instance == w.here
    && w.view.lastAgeOut <= w.client.since.value.ticks
    && (!w.query.Idle? ==> w.view.lastAgeOut <= w.query.ticks)
    && (w.query.GotBoth? ==> w.query.lastAgeOut <= w.view.lastAgeOut)
  }

  /** Only a later age-out, a restart or the file's return can mend that. */
  lemma LossPersists(w: World, op: Op, x: World, n: Name)
    requires Lost(w, n) && Next(w, op, x)
    requires !op.AgeOut? && !op.Restart? && !(op.Change? && op.name == n)
    ensures Lost(x, n)
  {
    if op.Generate? {
      var answer := ChangedSince(w.view.list, Basis(w).ticks);
      assert forall e :: e in answer ==> e in w.view.list;
      assert n !in Names(answer);
    } else if op.Change? {
      var rest := Without(w.view.list, op.name);
      assert forall e :: e in x.view.list <==> e == x.view.list[0] || e in rest;
    }
  }

  /** The run in which an age-out overtakes a query: the deletion of "a" at tick 3 is never reported. */
  ghost function Overtaken(): (seq<World>, seq<Op>) {
    var h := Instance(0, 0, 1);
    var a, gone := Entry("a", true, Stamp(2, 0)), Entry("a", false, Stamp(3, 0));
    var c0, c1 := Client(None, {}), Client(Some(Clock(h, 2)), {"a"});
    var v0, v1, v2, v3 := View([], 1, 0), View([a], 2, 0), View([gone], 3, 0), View([], 3, 3);
    ([World(h, {h}, v0, false, c0, Idle),
      World(h, {h}, v0.(tick := 2), true, c0, Idle),
      World(h, {h}, v1, true, c0, Idle),
      World(h, {h}, v1, false, c0, Idle),
      World(h, {h}, v1, false, c0, GotTick(2)),
      World(h, {h}, v1, false, c0, GotBoth(2, 0)),
      World(h, {h}, v1, false, c1, Idle),
      World(h, {h}, v1.(tick := 3), true, c1, Idle),
      World(h, {h}, v2, true, c1, Idle),
      World(h, {h}, v2, false, c1, Idle),
      World(h, {h}, v2, false, c1, GotTick(3)),
      World(h, {h}, v2, false, c1, GotBoth(3, 0)),
      World(h, {h}, v3, false, c1, GotBoth(3, 0)),
      World(h, {h}, v3, false, c1.(since := Some(Clock(h, 3))), Idle)],
     [Begin, Change("a", true, 0), End, ReadTick, ReadAgeOut, Generate,
      Begin, Change("a", false, 0), End, ReadTick, ReadAgeOut, AgeOut(0), Generate])
  }

  lemma OvertakenBatches()
    ensures var (b, ops) := Overtaken();
            && Next(b[0], ops[0], b[1]) && Next(b[1], ops[1], b[2]) && Next(b[2], ops[2], b[3])
            && Next(b[6], ops[6], b[7]) && Next(b[7], ops[7], b[8]) && Next(b[8], ops[8], b[9])
  {}

  lemma OvertakenQueries()
    ensures var (b, ops) := Overtaken();
            && Next(b[3], ops[3], b[4]) && Next(b[4], ops[4], b[5]) && Next(b[5], ops[5], b[6])
            && Next(b[9], ops[9], b[10]) && Next(b[10], ops[10], b[11]) && Next(b[11], ops[11], b[12])
            && Next(b[12], ops[12], b[13])
  {
    assert Overtaken().0[5].view.list == [Entry("a", true, Stamp(2, 0))];
  }

  lemma OvertakenQueryLosesADeletion()
    ensures var (b, ops) := Overtaken();
            Runs.Joined(b, ops, Next) && Start(b[0]) && Lost(b[13], "a") && Existing(b[13].view.list) == {}
  {
    hide Step;
    OvertakenBatches();
    OvertakenQueries();
  }
}
