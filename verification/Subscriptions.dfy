/** Subscriptions of cmds/subscribe.cpp: which ticks each notification covers. */
module Subscriptions {
  import opened Options

  datatype Action = NoSyncNeeded | Execute | Defer | Drop

  /** `basis`: the tick of the query's since clock, if it has one. `scm`: the clock carries SCM parameters. */
  datatype State = State(basis: Option<nat>, scm: bool, last: nat)

  /** What the query does. `tick`: the clock at its start. */
  datatype Outcome =
    | Done(tick: nat, empty: bool, freshInstance: bool, rebased: bool, interleaved: bool)
    | QueryError
    | OtherError

  datatype Effect = Silent | Notified | Thrown | ProcessAborts

  /** last_sub_tick is a uint32_t. */
  function Truncated(ticks: nat): nat { ticks % 0x1_0000_0000 }

  // ----- The action

  /** What the asserted states and the policies ask for, whatever order the policies are looked at in. */
  ghost function ActionFor(last: nat, ticks: nat, policies: map<string, bool>, asserted: set<string>): Action {
    if last == ticks then NoSyncNeeded
    else if exists n :: n in policies && n in asserted && policies[n] then Drop
    else if exists n :: n in policies && n in asserted then Defer
    else Execute
  }

  // ----- One query

  /** Whether the answer is thrown away because an SCM operation was interleaved. */
  predicate Discarded(s: State, dontAdvance: bool, out: Outcome) {
    out.Done? && dontAdvance && s.scm && out.interleaved
  }

  /** buildSubscriptionResults: the new since clock, and whether a response is built. */
  function Built(s: State, dontAdvance: bool, out: Outcome): (State, Effect) {
    match out
    case QueryError => (s, Silent)
    case OtherError => (s, Thrown)
    case Done(tick, empty, freshInstance, rebased, interleaved) =>
      if Discarded(s, dontAdvance, out) then (s, Silent)
      else (s.(basis := Some(tick)), if empty && !(s.scm && rebased) && !freshInstance then Silent else Notified)
  }

  /** The query is complete and its results are kept: it was not an SCM-aware settle that an SCM operation
      interrupted. */
  predicate Answered(s: State, dontAdvance: bool, out: Outcome) {
    out.Done? && (!dontAdvance || !s.scm || !out.interleaved)
  }

  /** There is something to tell: files, a fresh instance, or, for an SCM-aware query, a new merge base. */
  predicate Newsworthy(s: State, out: Outcome) {
    out.Done? && (!out.empty || out.freshInstance || (s.scm && out.rebased))
  }

  /** A query notifies if and only if its results are kept and there is something to tell, and it moves the basis if and
      only if they are kept, to the clock at its start. */
  lemma NotifiesOnNews(s: State, dontAdvance: bool, out: Outcome)
    ensures var (t, effect) := Built(s, dontAdvance, out);
            && (effect == Notified <==> Answered(s, dontAdvance, out) && Newsworthy(s, out))
            && (effect == Thrown <==> out == OtherError) && effect != ProcessAborts
            && t == if Answered(s, dontAdvance, out) then State(Some(out.tick), s.scm, s.last) else s
  {}

  /** The drop of a settle or a flush: skip to the position. The new clock carries no SCM parameters. */
  function Skipped(s: State, ticks: nat): State { State(Some(ticks), false, Truncated(ticks)) }

  /** processSubscriptionImpl. After an error of the query proper there is no position to read the tick from, and
      reading it aborts the process. */
  ghost function Settled(s: State, ticks: nat, action: Action, busy: bool, out: Outcome): (State, Effect) {
    match action
    case NoSyncNeeded => (s, Silent)
    case Drop => (Skipped(s, ticks), Silent)
    case Defer => (s, Silent)
    case Execute =>
      if busy then (s, Silent)
      else if out.OtherError? then (s, Silent)
      else if out.QueryError? then (s, ProcessAborts)
      else
        var (t, effect) := Built(s, true, out);
        (t.(last := Truncated(out.tick)), effect)
  }

  /** One turn of the loop of flush-subscriptions: deferring does not count. */
  ghost function Flushed(s: State, ticks: nat, action: Action, out: Outcome): (State, Effect) {
    if action == Drop then (Skipped(s, ticks), Silent) else Built(s, false, out)
  }

  // ----- The object

  class ClientSubscription {
    const policies: map<string, bool>
    const vcsDefer: bool
    var since: Option<nat>
    var scm: bool
    var lastSubTick: nat

    ghost function Model(): State
      reads this
    {
      State(since, scm, lastSubTick)
    }

    constructor (policies: map<string, bool>, vcsDefer: bool, since: Option<nat>, scm: bool)
      ensures Model() == State(since, scm, 0) && this.policies == policies && this.vcsDefer == vcsDefer
    {
      this.policies, this.vcsDefer, this.since, this.scm, lastSubTick := policies, vcsDefer, since, scm, 0;
    }

    /** The loop over the policies, in the order the map happens to give them. */
    method GetSubscriptionAction(ticks: nat, asserted: set<string>, order: seq<string>)
      returns (action: Action, policyName: Option<string>)
      requires forall n :: n in order <==> n in policies
      ensures action == ActionFor(lastSubTick, ticks, policies, asserted)
      ensures action == NoSyncNeeded <==> lastSubTick == ticks
      ensures action == Drop <==> lastSubTick != ticks && exists n :: n in policies && n in asserted && policies[n]
      ensures action == Execute <==> lastSubTick != ticks && forall n :: n in policies ==> n !in asserted
      ensures policyName.Some? <==> action == Defer || action == Drop
      ensures policyName.Some? ==> policyName.value in policies && policyName.value in asserted
      ensures action == Drop ==> policies[policyName.value]
    {
      action, policyName := Execute, None;
      if lastSubTick == ticks {
        return NoSyncNeeded, None;
      }
      var i := 0;
      while i < |order|
        invariant i <= |order| && (action == Execute || action == Defer)
        invariant action == Defer <==> exists j :: 0 <= j < i && order[j] in asserted
        invariant policyName.Some? <==> action == Defer
        invariant policyName.Some? ==> policyName.value in policies && policyName.value in asserted
        invariant forall j :: 0 <= j < i && order[j] in asserted ==> !policies[order[j]]
      {
        var name := order[i];
        if name in asserted {
          if action != Defer {
            action, policyName := Defer, Some(name);
          }
          if policies[name] {
            return Drop, Some(name);
          }
        }
        i := i + 1;
      }
      assert forall n :: n in policies ==> n in order;
    }

    method BuildSubscriptionResults(dontAdvance: bool, out: Outcome) returns (position: Option<nat>, effect: Effect)
      modifies this`since
      ensures (Model(), effect) == Built(old(Model()), dontAdvance, out)
      ensures position == if out.Done? then Some(out.tick) else None
    {
      match out
      case QueryError => return None, Silent;
      case OtherError => return None, Thrown;
      case Done(tick, empty, freshInstance, rebased, interleaved) =>
        position := Some(tick);
        if dontAdvance && scm && interleaved {
          return position, Silent;
        }
        since := Some(tick);
        effect := if empty && !(scm && rebased) && !freshInstance then Silent else Notified;
    }

    /** A settle takes the process down if and only if nothing holds the query back and the query itself fails. */
    method ProcessSubscription(ticks: nat, asserted: set<string>, order: seq<string>, busy: bool, out: Outcome)
      returns (effect: Effect)
      requires forall n :: n in order <==> n in policies
      modifies this
      ensures (Model(), effect)
              == Settled(old(Model()), ticks, ActionFor(old(lastSubTick), ticks, policies, asserted),
                         vcsDefer && busy, out)
      ensures effect == ProcessAborts <==>
                && old(lastSubTick) != ticks && (forall n :: n in policies ==> n !in asserted)
                && !(vcsDefer && busy) && out == QueryError
      ensures effect == Notified <==>
                && old(lastSubTick) != ticks && (forall n :: n in policies ==> n !in asserted) && !(vcsDefer && busy)
                && Answered(old(Model()), true, out) && Newsworthy(old(Model()), out)
    {
      var action, _ := GetSubscriptionAction(ticks, asserted, order);
      effect := Silent;
      if action == NoSyncNeeded {
        return;
      }
      if action == Drop {
        lastSubTick, since, scm := Truncated(ticks), Some(ticks), false;
        return;
      }
      if action == Defer || (vcsDefer && busy) {
        return;
      }
      var position;
      position, effect := BuildSubscriptionResults(true, out);
      if effect == Thrown {
        return Silent;
      }
      if position.None? {
        return ProcessAborts;
      }
      lastSubTick := Truncated(position.value);
    }

    method Flush(ticks: nat, asserted: set<string>, order: seq<string>, out: Outcome) returns (effect: Effect)
      requires forall n :: n in order <==> n in policies
      modifies this
      ensures (Model(), effect)
              == Flushed(old(Model()), ticks, ActionFor(old(lastSubTick), ticks, policies, asserted), out)
      ensures effect != ProcessAborts
      ensures effect == Notified <==>
                && (old(lastSubTick) == ticks || forall n :: n in policies && n in asserted ==> !policies[n])
                && Answered(old(Model()), false, out) && Newsworthy(old(Model()), out)
    {
      var action, _ := GetSubscriptionAction(ticks, asserted, order);
      if action == Drop {
        lastSubTick, since, scm := Truncated(ticks), Some(ticks), false;
        return Silent;
      }
      var _, e := BuildSubscriptionResults(false, out);
      effect := e;
    }
  }
}
