/** The windows of ticks that a subscription's notifications cover, in every run of settles and flushes. */
module SubscriptionRuns {
  import opened Options
  import opened Subscriptions
  import Runs

  /** The ticks after `from` up to `to`, answered by a completed query or skipped by a drop. */
  datatype Window = Window(from: Option<nat>, to: nat, dropped: bool)

  /** `tick`: the server's. `start`: the basis the subscription was made with. */
  datatype World = World(
    tick: nat, s: State, policies: map<string, bool>, vcsDefer: bool, start: Option<nat>, windows: seq<Window>)

  datatype Op =
    | Tick
    | Settle(asserted: set<string>, busy: bool, out: Outcome)
    | Flush(asserted: set<string>, out: Outcome)

  ghost function ActionOf(w: World, asserted: set<string>): Action {
    ActionFor(w.s.last, w.tick, w.policies, asserted)
  }

  /** The window an operation closes, if any. */
  ghost function Closed(w: World, op: Op): Option<Window> {
    match op
    case Tick => None
    case Settle(asserted, busy, out) =>
      var action := ActionOf(w, asserted);
      if action == Drop then Some(Window(w.s.basis, w.tick, true))
      else if action == Execute && !(w.vcsDefer && busy) && out.Done? && !Discarded(w.s, true, out)
      then Some(Window(w.s.basis, out.tick, false))
      else None
    case Flush(asserted, out) =>
      if ActionOf(w, asserted) == Drop then Some(Window(w.s.basis, w.tick, true))
      else if out.Done? then Some(Window(w.s.basis, out.tick, false))
      else None
  }

  ghost function After(w: World, op: Op): State {
    match op
    case Tick => w.s
    case Settle(asserted, busy, out) => Settled(w.s, w.tick, ActionOf(w, asserted), w.vcsDefer && busy, out).0
    case Flush(asserted, out) => Flushed(w.s, w.tick, ActionOf(w, asserted), out).0
  }

  /** The clock of a query is read during the operation, while the server's tick may move on. */
  ghost predicate Next(w: World, op: Op, x: World) {
    && w.tick <= x.tick
    && (!op.Tick? && op.out.Done? ==> w.tick <= op.out.tick <= x.tick)
    && x == w.(tick := x.tick, s := After(w, op),
               windows := w.windows + if Closed(w, op).Some? then [Closed(w, op).value] else [])
  }

  ghost predicate Start(w: World) {
    w.windows == [] && w.start == w.s.basis && (w.start.Some? ==> w.start.value <= w.tick)
  }

  /** A step moves the since tick if and only if it closes a window, which begins at the old basis and ends at the
      new one; otherwise the window stays open. */
  lemma BasisMovesByWindow(w: World, op: Op, x: World)
    requires Next(w, op, x)
    ensures match Closed(w, op)
            case None => x.s.basis == w.s.basis
            case Some(v) => v.from == w.s.basis && x.s.basis == Some(v.to)
  {}

  ghost predicate Tiled(w: World) {
    && (w.windows == [] ==> w.s.basis == w.start)
    && (w.windows != [] ==> w.windows[0].from == w.start && w.s.basis == Some(w.windows[|w.windows| - 1].to))
    && (forall i :: 0 < i < |w.windows| ==> w.windows[i].from == Some(w.windows[i - 1].to))
    && (forall i :: 0 <= i < |w.windows| ==> w.windows[i].from.Some? ==> w.windows[i].from.value <= w.windows[i].to)
    && (w.s.basis.Some? ==> w.s.basis.value <= w.tick)
  }

  lemma StepIsTiled(w: World, op: Op, x: World)
    requires Tiled(w) && Next(w, op, x)
    ensures Tiled(x)
  {
    hide After;
    BasisMovesByWindow(w, op, x);
  }

  /** In every run the windows follow each other from the start to the present basis. */
  lemma WindowsTile(b: seq<World>, ops: seq<Op>, i: nat)
    requires Runs.Joined(b, ops, Next) && Start(b[0]) && i < |b|
    ensures Tiled(b[i])
  {
    hide Next;
    forall w, op, x | Tiled(w) && Next(w, op, x)
      ensures Tiled(x)
    {
      StepIsTiled(w, op, x);
    }
    Runs.Throughout(b, ops, Tiled, Next, i);
  }

  predicate Holds(v: Window, tick: nat) { (v.from.Some? ==> v.from.value < tick) && tick <= v.to }

  /** Every tick from the start to the basis lies in exactly one window; later ones lie in none. */
  lemma EachTickOnce(w: World, tick: nat)
    requires Tiled(w) && (w.start.Some? ==> w.start.value < tick)
    ensures (exists i :: 0 <= i < |w.windows| && Holds(w.windows[i], tick))
            <==> w.windows != [] && w.s.basis.Some? && tick <= w.s.basis.value
    ensures forall i, j :: 0 <= i < j < |w.windows| ==> !(Holds(w.windows[i], tick) && Holds(w.windows[j], tick))
  {
    forall i, j | 0 <= i < j < |w.windows|
      ensures w.windows[j].from.Some? && w.windows[i].to <= w.windows[j].from.value
    {
      Later(w, i, j);
    }
    if w.windows != [] {
      var last := |w.windows| - 1;
      forall i | 0 <= i < last
        ensures w.windows[i].to <= w.windows[last].to
      {
        Later(w, i, last);
      }
      if tick <= w.windows[last].to {
        var i := Find(w, tick);
      }
    }
  }

  lemma {:induction false} Later(w: World, i: nat, j: nat)
    requires Tiled(w) && i < j < |w.windows|
    ensures w.windows[j].from.Some? && w.windows[i].to <= w.windows[j].from.value
    decreases j
  {
    assert w.windows[j].from == Some(w.windows[j - 1].to);
    if i + 1 < j {
      Later(w, i, j - 1);
    }
  }

  lemma Find(w: World, tick: nat) returns (i: nat)
    requires Tiled(w) && w.windows != [] && (w.start.Some? ==> w.start.value < tick)
    requires tick <= w.windows[|w.windows| - 1].to
    ensures i < |w.windows| && Holds(w.windows[i], tick)
  {
    i := 0;
    while w.windows[i].to < tick
      invariant i < |w.windows| && (w.windows[i].from.Some? ==> w.windows[i].from.value < tick)
      decreases |w.windows| - i
    {
      i := i + 1;
    }
  }

  /** After a settle that ran its query, the next one finds nothing to do until the tick moves, even when the results
      were discarded and the window stayed open. The tick it remembers has 32 bits, so from 2^32 on it always finds
      something to do. */
  lemma SettleWaitsForNextTick(w: World, asserted: set<string>, busy: bool, out: Outcome, x: World, later: set<string>)
    requires Next(w, Settle(asserted, busy, out), x)
    requires ActionOf(w, asserted) == Execute && !(w.vcsDefer && busy) && out.Done?
    ensures x.s.basis == if Discarded(w.s, true, out) then w.s.basis else Some(out.tick)
    ensures ActionOf(x, later) == NoSyncNeeded <==> x.tick == out.tick && x.tick < 0x1_0000_0000
  {}

  /** So it is after a drop, in a settle or in a flush: the windows up to the present tick are closed, and nothing is to
      be done until the tick moves. */
  lemma DropWaitsForNextTick(w: World, op: Op, x: World, later: set<string>)
    requires Next(w, op, x) && !op.Tick? && w.s.last != w.tick
    requires exists n :: n in w.policies && n in op.asserted && w.policies[n]
    ensures x.s.basis == Some(w.tick) && |x.windows| == |w.windows| + 1
    ensures ActionOf(x, later) == NoSyncNeeded <==> x.tick == w.tick && x.tick < 0x1_0000_0000
  {}

  /** What a settle holds back is not forgotten. If a state with a deferring policy is asserted, a VCS operation goes
      on, or running the query throws, the subscription is as it was, and a settle at the same tick that nothing holds
      back runs the query. */
  lemma HeldBackIsKept(w: World, asserted: set<string>, busy: bool, out: Outcome, x: World)
    requires Next(w, Settle(asserted, busy, out), x) && w.s.last != w.tick
    requires forall n :: n in w.policies && n in asserted ==> !w.policies[n]
    requires (exists n :: n in w.policies && n in asserted) || (w.vcsDefer && busy) || out == OtherError
    ensures x.s == w.s && x.windows == w.windows
    ensures x.tick == w.tick ==> ActionOf(x, {}) == Execute
  {}

  /** A flush that runs the query moves the basis alone: it does not count as a settle. */
  lemma FlushIsNoSettle(w: World, asserted: set<string>, out: Outcome, x: World)
    requires Next(w, Flush(asserted, out), x)
    requires w.s.last == w.tick || forall n :: n in w.policies && n in asserted ==> !w.policies[n]
    ensures x.s.last == w.s.last && x.s.scm == w.s.scm
    ensures x.s.basis == if out.Done? then Some(out.tick) else w.s.basis
  {}

  /** SCM parameters are there as long as they were there at first and nothing was dropped. */
  ghost predicate ScmUntilDrop(w: World, scm: bool) {
    w.s.scm <==> scm && forall i :: 0 <= i < |w.windows| ==> !w.windows[i].dropped
  }

  lemma StepLosesScm(w: World, op: Op, x: World, scm: bool)
    requires ScmUntilDrop(w, scm) && Next(w, op, x)
    ensures ScmUntilDrop(x, scm)
  {
    var n := |w.windows|;
    assert x.windows[..n] == w.windows;
    assert forall i :: 0 <= i < n ==> w.windows[i] == x.windows[i];
    if Closed(w, op).Some? { assert x.windows[n] == Closed(w, op).value; }
  }

  /** In every run the first drop takes the SCM parameters off the clock for good. From then on no result is held back
      because of an SCM operation: every query that a settle completes closes a window. */
  lemma DropLosesScm(b: seq<World>, ops: seq<Op>, i: nat)
    requires Runs.Joined(b, ops, Next) && Start(b[0]) && i < |b|
    ensures ScmUntilDrop(b[i], b[0].s.scm)
    ensures i < |ops| && ops[i].Settle? && ops[i].out.Done?
            && ActionOf(b[i], ops[i].asserted) == Execute && !(b[i].vcsDefer && ops[i].busy)
            && (exists j :: 0 <= j < |b[i].windows| && b[i].windows[j].dropped) ==>
              b[i + 1].s.basis == Some(ops[i].out.tick)
  {
    hide Next;
    var scm := b[0].s.scm;
    var kept := (w: World) => ScmUntilDrop(w, scm);
    assert kept(b[0]);
    forall w, op, x | kept(w) && Next(w, op, x)
      ensures kept(x)
    {
      StepLosesScm(w, op, x, scm);
    }
    Runs.Throughout(b, ops, kept, Next, i);
    assert kept(b[i]);
    if i < |ops| && ops[i].Settle? {
      assert Next(b[i], ops[i], b[i + 1]);
      BasisMovesByWindow(b[i], ops[i], b[i + 1]);
    }
  }
}
