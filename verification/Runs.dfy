/** Runs of a state machine, and induction over them. */
module Runs {

  /** The states of b are joined by steps: b[i + 1] follows b[i] by ops[i]. */
  ghost predicate Joined<W(!new), O(!new)>(b: seq<W>, ops: seq<O>, next: (W, O, W) -> bool) {
    |b| == |ops| + 1 && forall i :: 0 <= i < |ops| ==> next(b[i], ops[i], b[i + 1])
  }

  ghost predicate Inductive<W(!new), O(!new)>(inv: W -> bool, next: (W, O, W) -> bool) {
    forall w, o, x {:trigger next(w, o, x)} :: inv(w) && next(w, o, x) ==> inv(x)
  }

  /** An inductive predicate that holds at the start of a run holds in its every state. */
  lemma {:induction false} Throughout<W(!new), O(!new)>(
    b: seq<W>, ops: seq<O>, inv: W -> bool, next: (W, O, W) -> bool, i: nat)
    requires Joined(b, ops, next) && Inductive(inv, next) && inv(b[0]) && i < |b|
    ensures inv(b[i])
  {
    if i > 0 {
      Throughout(b, ops, inv, next, i - 1);
      assert next(b[i - 1], ops[i - 1], b[i]);
    }
  }

  /** A run after one more step at its front. */
  lemma Preceded<W(!new), O(!new)>(w: W, o: O, b: seq<W>, ops: seq<O>, next: (W, O, W) -> bool)
    requires Joined(b, ops, next) && next(w, o, b[0])
    ensures Joined([w] + b, [o] + ops, next)
  {}
}
