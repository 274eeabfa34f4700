/** What a subscriber knows: it replaces its files on a fresh instance and patches them with every other
    notification, while the server settles, flushes, defers, discards and keeps empty answers to itself. */
module SubscriberView {
  import opened ClockSpec
  import opened Options
  import opened Subscriptions
  import opened ViewModel
  import P = SinceProtocol
  import Runs

  /** `p`: the server, the subscriber's files and the query in flight. `dontAdvance`: whether a settle runs that
      query, and not a flush. */
  datatype World = World(
    p: P.World, s: State, policies: map<string, bool>, vcsDefer: bool, dontAdvance: bool)

  datatype Op =
    | Server(op: P.Op)
    | Query(seen: nat, asserted: set<string>, busy: bool, flush: bool)
    | ReadAgeOut
    | Finish(rebased: bool, interleaved: bool)
    | Fail
    | DropAll(seen: nat, asserted: set<string>)

  // ----- Steps

  /** The query runs: always in a flush, and in a settle when nothing holds it back. */
  ghost predicate Proceeds(w: World, seen: nat, asserted: set<string>, busy: bool, flush: bool) {
    var action := ActionFor(w.s.last, seen, w.policies, asserted);
    if flush then action != Drop else action == Execute && !(w.vcsDefer && busy)
  }

  function SinceOf(here: Instance, basis: Option<nat>): Option<Spec> {
    if basis.None? then None else Some(Clock(here, basis.value))
  }

  function AnswerOf(w: P.World): seq<Entry>
    requires w.query.GotBoth? && (w.client.since.Some? ==> w.client.since.value.Clock?)
  {
    P.Answer(P.Basis(w), w.view.list)
  }

  /** What the query turns out to be. */
  function OutcomeOf(w: P.World, rebased: bool, interleaved: bool): Outcome
    requires w.query.GotBoth? && (w.client.since.Some? ==> w.client.since.value.Clock?)
  {
    Done(w.query.ticks, AnswerOf(w) == [], P.Basis(w).freshInstance, rebased, interleaved)
  }

  /** The query ends: the subscriber hears of it only if a response is built. */
  function Finished(w: World, rebased: bool, interleaved: bool): World
    requires w.p.query.GotBoth? && (w.p.client.since.Some? ==> w.p.client.since.value.Clock?)
  {
    var out := OutcomeOf(w.p, rebased, interleaved);
    var (t, effect) := Built(w.s, w.dontAdvance, out);
    var known := if effect == Notified then P.Patched(w.p.client.known, P.Basis(w.p), AnswerOf(w.p))
                 else w.p.client.known;
    w.(p := w.p.(client := P.Client(SinceOf(w.p.here, t.basis), known), query := P.Idle),
       s := if w.dontAdvance then t.(last := Truncated(out.tick)) else t)
  }

  function Dropped(w: World, seen: nat): World {
    w.(p := w.p.(client := w.p.client.(since := Some(Clock(w.p.here, seen)))), s := Skipped(w.s, seen))
  }

  ghost predicate Next(w: World, op: Op, x: World) {
    && (w.p.client.since.Some? ==> w.p.client.since.value.Clock?)
    && match op
       case Server(o) =>
         (o.Begin? || o.Change? || o.End? || o.AgeOut?) && P.Allowed(w.p, o) && x == w.(p := P.Step(w.p, o))
       case Query(seen, asserted, busy, flush) =>
         && w.p.query.Idle? && seen <= w.p.view.tick && Proceeds(w, seen, asserted, busy, flush)
         && x == w.(p := P.Step(w.p, P.ReadTick), dontAdvance := !flush)
       case ReadAgeOut => w.p.query.GotTick? && x == w.(p := P.Step(w.p, P.ReadAgeOut))
       case Finish(rebased, interleaved) =>
         P.Allowed(w.p, P.Generate) && x == Finished(w, rebased, interleaved)
       case Fail => !w.p.query.Idle? && x == w.(p := P.Step(w.p, P.Abandon))
       case DropAll(seen, asserted) =>
         && w.p.query.Idle? && seen <= w.p.view.tick
         && ActionFor(w.s.last, seen, w.policies, asserted) == Drop && x == Dropped(w, seen)
  }

  /** A new subscription, with SCM parameters or without, has no clock of this instance. */
  ghost predicate Start(w: World) { P.Start(w.p) && w.s.basis == None }

  // ----- One query

  ghost predicate DiscardedBy(w: World, op: Op)
    requires w.p.query.GotBoth? && (w.p.client.since.Some? ==> w.p.client.since.value.Clock?) && op.Finish?
  {
    Discarded(w.s, w.dontAdvance, OutcomeOf(w.p, op.rebased, op.interleaved))
  }

  /** The since clock of the query is the subscription's. */
  ghost predicate Bound(w: World) { w.p.client.since == SinceOf(w.p.here, w.s.basis) }

  /** A suppressed empty answer tells the subscriber nothing it does not know: unless the results are discarded, the
      end of a query is an answer of the since protocol; if they are, it is a query that never was. */
  lemma FinishIsAnswer(w: World, op: Op, x: World)
    requires Bound(w) && op.Finish? && Next(w, op, x)
    ensures Bound(x)
    ensures x.p == if DiscardedBy(w, op) then P.Step(w.p, P.Abandon) else P.Generated(w.p)
  {
    var since, answer := P.Basis(w.p), AnswerOf(w.p);
    if answer == [] && !since.freshInstance {
      assert P.Patched(w.p.client.known, since, answer) == w.p.client.known by {
        assert Names([]) == {} && Existing([]) == {};
      }
    }
  }

  // ----- Every run without drops

  /** No drop, and no age-out overtakes a query. */
  ghost predicate KeepingNext(w: World, op: Op, x: World) {
    && Next(w, op, x) && !op.DropAll?
    && (op.Finish? && !DiscardedBy(w, op) ==> P.Steady(w.p))
  }

  ghost predicate Follows(w: World) { P.InStep(w.p) && Bound(w) }

  lemma StepFollows(w: World, op: Op, x: World)
    requires Follows(w) && KeepingNext(w, op, x)
    ensures Follows(x)
  {
    hide P.InStep, P.Step, P.Generated, Finished, DiscardedBy, P.Steady;
    match op
    case Server(o) =>
      P.StepKeepsStep(w.p, o, x.p);
      ServerKeepsClient(w.p, o);
    case Query(_, _, _, _) =>
      P.StepKeepsStep(w.p, P.ReadTick, x.p);
      ServerKeepsClient(w.p, P.ReadTick);
    case ReadAgeOut =>
      P.StepKeepsStep(w.p, P.ReadAgeOut, x.p);
      ServerKeepsClient(w.p, P.ReadAgeOut);
    case Fail =>
      P.StepKeepsStep(w.p, P.Abandon, x.p);
      ServerKeepsClient(w.p, P.Abandon);
    case Finish(_, _) =>
      FinishIsAnswer(w, op, x);
      if DiscardedBy(w, op) {
        P.StepKeepsStep(w.p, P.Abandon, x.p);
      } else {
        P.GenerateKeepsStep(w.p);
      }
  }

  lemma ServerKeepsClient(w: P.World, op: P.Op)
    requires P.Allowed(w, op) && (w.client.since.Some? ==> w.client.since.value.Clock?)
    requires !op.Generate? && !op.Restart?
    ensures P.Step(w, op).client == w.client && P.Step(w, op).here == w.here
  {}

  lemma StartFollows(w: World)
    requires Start(w)
    ensures Follows(w)
  {}

  /** In every run without drops the subscriber agrees with the server up to its basis, and right after each query
      whose results were not discarded, notified or not, it knows exactly the files that exist. */
  lemma SubscriberFollowsServer(b: seq<World>, ops: seq<Op>, i: nat)
    requires Runs.Joined(b, ops, KeepingNext) && Start(b[0]) && i < |b|
    ensures Follows(b[i])
    ensures i > 0 && ops[i - 1].Finish? && !DiscardedBy(b[i - 1], ops[i - 1]) ==>
              b[i].p.client.known == Existing(b[i].p.view.list)
  {
    hide Finished, Follows, Start, DiscardedBy;
    StartFollows(b[0]);
    forall w, op, x | Follows(w) && KeepingNext(w, op, x)
      ensures Follows(x)
    {
      StepFollows(w, op, x);
    }
    Runs.Throughout(b, ops, Follows, KeepingNext, i);
    if i > 0 {
      Runs.Throughout(b, ops, Follows, KeepingNext, i - 1);
      assert KeepingNext(b[i - 1], ops[i - 1], b[i]);
      if ops[i - 1].Finish? && !DiscardedBy(b[i - 1], ops[i - 1]) {
        FinishIsExact(b[i - 1], ops[i - 1], b[i]);
      }
    }
  }

  lemma FinishIsExact(w: World, op: Op, x: World)
    requires Follows(w) && KeepingNext(w, op, x) && op.Finish? && !DiscardedBy(w, op)
    ensures x.p.client.known == Existing(x.p.view.list)
  {
    hide P.InStep, Finished, P.Steady;
    FinishIsAnswer(w, op, x);
    P.SteadyAnswerIsExact(w.p);
  }

  // ----- Drops

  /** A drop between batches keeps the agreement if and only if there was nothing to tell. */
  lemma DropIsHarmless(w: World)
    requires Follows(w) && !w.p.batch
    ensures Follows(Dropped(w, w.p.view.tick)) <==> w.p.client.known == Existing(w.p.view.list)
  {
    var list, known := w.p.view.list, w.p.client.known;
    P.EntryIsUnique(list);
    if known == Existing(list) {
      assert Existing(list) <= Names(list);
    }
    if P.InStep(Dropped(w, w.p.view.tick).p) {
      assert forall n :: n in known ==> n in Names(list);
      assert known == Existing(list);
    }
  }
}
