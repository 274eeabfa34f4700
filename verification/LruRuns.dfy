/**
 What the cache keeps over every run: any interleaving of direct gets, getter gets,
 completions, sets, erases and clears, where set, erase and clear are not applied to a
 key whose lookup is in flight.
 */
module LruRuns {
  import opened LruModel
  import opened Options
  import Runs

  /** What the continuation of a lookup captures: the node, by its number, and `now`. */
  datatype Capture = Capture(id: nat, now: Time)

  /** The cache with the history a run leaves behind. `started` is what each outstanding
      continuation captured, `inbox[p]` the node ids promise p was fulfilled with. */
  datatype World = World(
    s: State, started: map<Key, Capture>, tick: nat, lastUse: map<Key, nat>,
    issued: map<nat, Ticket>, inbox: map<nat, seq<nat>>,
    calls: multiset<Key>, completions: multiset<Key>, thrown: nat)

  /** What a promise was issued for: a key and the node then in flight for it. */
  datatype Ticket = Ticket(k: Key, id: nat)

  datatype Op =
    | DoGet(k: Key, now: Time)
    | DoAsyncGet(k: Key, now: Time)
    | DoComplete(k: Key, result: Try)
    | DoPut(k: Key, v: Value, now: Time)
    | DoErase(k: Key)
    | DoClear

  function Start(maxItems: nat, errorTtl: Time): World {
    World(Initial(maxItems, errorTtl), map[], 0, map[], map[], map[], multiset{}, multiset{}, 0)
  }

  ghost predicate Starts(w: World) {
    exists m, t :: w == Start(m, t)
  }

  ghost predicate Allowed(w: World, op: Op) {
    && Wf(w.s)
    && match op
       case DoGet(_, _) => true
       case DoAsyncGet(_, _) => true
       case DoComplete(k, r) => k in w.s.lookup && k in w.started && !r.Empty?
       case DoPut(k, _, _) => k !in w.s.lookup
       case DoErase(k) => k !in w.s.lookup
       case DoClear => w.s.lookup == []
  }

  /** The loop that fulfils the stolen promises. */
  function Deliver(inbox: map<nat, seq<nat>>, ps: seq<nat>, id: nat): map<nat, seq<nat>>
    decreases |ps|
  {
    if ps == [] then inbox
    else
      var got := if ps[0] in inbox then inbox[ps[0]] else [];
      Deliver(inbox[ps[0] := got + [id]], ps[1..], id)
  }

  function Used(w: World, k: Key): World {
    w.(lastUse := w.lastUse[k := w.tick], tick := w.tick + 1)
  }

  /** The lookup of k ends in the cache t, and its waiters are woken. */
  function Ends(w: World, k: Key, t: State): World
    requires k in w.s.nodes && w.s.nodes[k].waiters.Some?
  {
    var n := w.s.nodes[k];
    Used(w.(s := t, started := w.started - {k}, completions := w.completions + multiset{k},
           inbox := Deliver(w.inbox, n.waiters.value, n.id)), k)
  }

  function Step(w: World, op: Op): World
    requires Allowed(w, op)
  {
    match op
    case DoGet(k, now) =>
      var (t, r) := Get(w.s, k, now);
      match r {
        case Missing => w.(s := t)
        case Mixed => w.(s := t, thrown := w.thrown + 1)
        case Hit(_) => Used(w.(s := t), k)
      }
    case DoAsyncGet(k, now) =>
      var (t, r) := AsyncGet(w.s, k, now);
      match r {
        case Started(id, p) => w.(s := t, started := w.started[k := Capture(id, now)], calls := w.calls + multiset{k},
                                 issued := w.issued[p := Ticket(k, id)], inbox := w.inbox[p := []])
        case Shared(id, p) => w.(s := t, issued := w.issued[p := Ticket(k, id)], inbox := w.inbox[p := []])
        case Ready(_) => Used(w.(s := t), k)
      }
    case DoComplete(k, r) => Ends(w, k, Complete(w.s, k, r, w.started[k].now))
    case DoPut(k, v, now) => Used(w.(s := Put(w.s, k, v, now)), k)
    case DoErase(k) => w.(s := Erase(w.s, k))
    case DoClear => w.(s := Clear(w.s), thrown := 0)
  }

  /** One step of a run. */
  ghost predicate Next(w: World, op: Op, x: World) {
    Allowed(w, op) && x == Step(w, op)
  }

  /** b is the run of states that the operations `ops` produce from an empty cache. */
  ghost predicate Behavior(b: seq<World>, ops: seq<Op>) {
    Runs.Joined(b, ops, Next) && Starts(b[0])
  }

  // ----- What dropping nodes may change

  /** Dropping nodes keeps every lookup in flight and every node that stays, and is counted. */
  ghost predicate Trimmed(s: State, t: State) {
    && Wf(s) && Wf(t)
    && t.maxItems == s.maxItems && t.errorTtl == s.errorTtl && t.lookup == s.lookup
    && t.nextNode == s.nextNode && t.nextPromise == s.nextPromise
    && t.stats == s.stats.(evict := t.stats.evict)
    && t.nodes.Keys <= s.nodes.Keys && (forall k :: k in t.nodes ==> t.nodes[k] == s.nodes[k])
    && |t.nodes| + t.stats.evict == |s.nodes| + s.stats.evict
  }

  lemma TrimmedTwice(s: State, t: State, u: State)
    requires Trimmed(s, t) && Trimmed(t, u)
    ensures Trimmed(s, u)
  {}

  lemma EvictedTrims(s: State, k: Key)
    requires Wf(s) && k in s.nodes && k !in s.lookup
    ensures Trimmed(s, Evicted(s, k)) && |Evicted(s, k).nodes| == |s.nodes| - 1
  {}

  function LastUse(u: map<Key, nat>, k: Key): int { if k in u then u[k] else -1 }

  /** The keys of q are in strictly increasing order of last use. */
  ghost predicate InUseOrder(q: seq<Key>, u: map<Key, nat>, tick: nat) {
    && (forall i :: 0 <= i < |q| ==> LastUse(u, q[i]) < tick)
    && forall i, j :: 0 <= i < j < |q| ==> LastUse(u, q[i]) < LastUse(u, q[j])
  }

  lemma RemovalKeepsOrder(q: seq<Key>, i: nat, u: map<Key, nat>, tick: nat)
    requires i < |q| && InUseOrder(q, u, tick)
    ensures InUseOrder(q[..i] + q[i + 1..], u, tick)
  {}

  lemma WithoutKeepsOrder(q: seq<Key>, k: Key, u: map<Key, nat>, tick: nat)
    requires NoDup(q) && k in q && InUseOrder(q, u, tick)
    ensures InUseOrder(Without(q, k), u, tick)
  {
    var i :| 0 <= i < |q| && q[i] == k;
    WithoutAt(q, i);
    RemovalKeepsOrder(q, i, u, tick);
  }

  lemma EvictOneTrims(s: State, now: Time, u: map<Key, nat>, tick: nat)
    requires Wf(s)
    ensures Trimmed(s, EvictOne(s, now))
    ensures Victim(s, now, true).None? <==> |s.nodes| == |s.lookup|
    ensures Victim(s, now, true).Some? ==> |EvictOne(s, now).nodes| == |s.nodes| - 1
    ensures InUseOrder(s.eviction, u, tick) ==> InUseOrder(EvictOne(s, now).eviction, u, tick)
  {
    var v := Victim(s, now, true);
    if v.Some? {
      assert v.value in s.errored || v.value in s.eviction;
      EvictedTrims(s, v.value);
      if v.value in s.eviction && InUseOrder(s.eviction, u, tick) { WithoutKeepsOrder(s.eviction, v.value, u, tick); }
    }
  }

  lemma {:induction false} EvictExcessTrims(s: State, now: Time, u: map<Key, nat>, tick: nat)
    requires Wf(s)
    ensures var t := EvictExcess(s, now); Trimmed(s, t) && |t.nodes| <= Max(s.maxItems, |s.lookup|)
    ensures InUseOrder(s.eviction, u, tick) ==> InUseOrder(EvictExcess(s, now).eviction, u, tick)
    decreases |s.nodes|
  {
    EvictOneTrims(s, now, u, tick);
    if |s.nodes| > s.maxItems && Victim(s, now, true).Some? {
      var t := EvictOne(s, now);
      EvictExcessTrims(t, now, u, tick);
      TrimmedTwice(s, t, EvictExcess(t, now));
    }
  }

  function Max(a: int, b: int): int { if a < b then b else a }

  lemma VacateTrims(s: State, k: Key, u: map<Key, nat>, tick: nat)
    requires Wf(s) && k !in s.lookup
    ensures Trimmed(s, Vacate(s, k))
    ensures InUseOrder(s.eviction, u, tick) ==> InUseOrder(Vacate(s, k).eviction, u, tick)
  {
    if k in s.nodes {
      EvictedTrims(s, k);
      if k in s.eviction && InUseOrder(s.eviction, u, tick) { WithoutKeepsOrder(s.eviction, k, u, tick); }
    }
  }

  lemma MakeRoomTrims(s: State, now: Time, u: map<Key, nat>, tick: nat)
    requires Wf(s)
    ensures Trimmed(s, MakeRoom(s, now))
    ensures |MakeRoom(s, now).nodes| + 1 <= Max(s.maxItems, Max(|s.nodes|, |s.lookup| + 1))
    ensures InUseOrder(s.eviction, u, tick) ==> InUseOrder(MakeRoom(s, now).eviction, u, tick)
  {
    EvictOneTrims(s, now, u, tick);
  }

  lemma ClearedTrims(s: State, k: Key, now: Time, u: map<Key, nat>, tick: nat)
    requires Wf(s) && k !in s.lookup
    ensures Trimmed(s, Cleared(s, k, now))
    ensures |Cleared(s, k, now).nodes| + 1 <= Max(s.maxItems, Max(|s.nodes|, |s.lookup| + 1))
    ensures InUseOrder(s.eviction, u, tick) ==> InUseOrder(Cleared(s, k, now).eviction, u, tick)
  {
    hide Wf, Vacate, MakeRoom, InUseOrder;
    var c := Vacate(s, k);
    VacateTrims(s, k, u, tick);
    MakeRoomTrims(c, now, u, tick);
    TrimmedTwice(s, c, MakeRoom(c, now));
  }

  // ----- What each operation does to the books and to the order of use

  function Balance(s: State): int { |s.nodes| + s.stats.evict + s.stats.erase - s.stats.store - |s.lookup| }

  function Unanswered(s: State): int { s.stats.load - s.stats.hit - s.stats.share - s.stats.miss }

  lemma UsingAppends(q: seq<Key>, k: Key, u: map<Key, nat>, tick: nat)
    requires InUseOrder(q, u, tick) && k !in q
    ensures InUseOrder(q + [k], u[k := tick], tick + 1)
    ensures InUseOrder(q, u[k := tick], tick + 1)
  {
    forall i | 0 <= i < |q| ensures LastUse(u[k := tick], q[i]) == LastUse(u, q[i]) {
      assert q[i] in q;
    }
  }

  lemma TouchKeepsOrder(s: State, k: Key, u: map<Key, nat>, tick: nat)
    requires Wf(s) && InUseOrder(s.eviction, u, tick)
    ensures InUseOrder(Touch(s, k).eviction, u[k := tick], tick + 1)
  {
    if k in s.eviction {
      WithoutKeepsOrder(s.eviction, k, u, tick);
      UsingAppends(Without(s.eviction, k), k, u, tick);
    } else {
      UsingAppends(s.eviction, k, u, tick);
    }
  }

  lemma ReusedEffect(s: State, k: Key, u: map<Key, nat>, tick: nat)
    requires Wf(s) && InUseOrder(s.eviction, u, tick)
    ensures var t := Reused(s, k);
            && t.lookup == s.lookup && t.nodes == s.nodes && t.maxItems == s.maxItems
            && t.nextNode == s.nextNode && t.nextPromise == s.nextPromise
            && Balance(t) == Balance(s) && Unanswered(t) == Unanswered(s) - 1
            && InUseOrder(t.eviction, u[k := tick], tick + 1)
  {
    TouchKeepsOrder(s, k, u, tick);
  }

  lemma BeginEffect(s: State, k: Key)
    requires Wf(s) && k !in s.nodes
    ensures var t := Begin(s, k);
            && t.maxItems == s.maxItems && t.lookup == s.lookup + [k] && t.eviction == s.eviction
            && |t.nodes| == |s.nodes| + 1 && Balance(t) == Balance(s) && Unanswered(t) == Unanswered(s) - 1
            && t.nextNode == s.nextNode + 1 && t.nextPromise == s.nextPromise + 1
            && t.nodes == s.nodes[k := Node(s.nextNode, Empty, Some([s.nextPromise]), 0)]
  {}

  lemma SubscribedEffect(s: State, k: Key)
    requires Wf(s) && k in s.lookup
    ensures var t := Subscribed(s, k);
            && t.maxItems == s.maxItems && t.lookup == s.lookup && t.eviction == s.eviction
            && |t.nodes| == |s.nodes| && Balance(t) == Balance(s) && Unanswered(t) == Unanswered(s) - 1
            && t.nextNode == s.nextNode && t.nextPromise == s.nextPromise + 1
            && t.nodes == s.nodes[k := s.nodes[k].(waiters := Some(s.nodes[k].waiters.value + [s.nextPromise]))]
  {
    assert k in s.nodes;
    assert (s.nodes[k := s.nodes[k].(waiters := Some(s.nodes[k].waiters.value + [s.nextPromise]))]).Keys
        == s.nodes.Keys;
  }

  lemma SettleShape(s: State, k: Key, r: Try, now: Time)
    requires Wf(s) && k in s.lookup && !r.Empty?
    ensures var t := Settle(s, k, r, now);
            && t.maxItems == s.maxItems && t.lookup == Without(s.lookup, k) && |t.nodes| == |s.nodes|
            && Balance(t) == Balance(s) && Unanswered(t) == Unanswered(s)
            && t.nextNode == s.nextNode && t.nextPromise == s.nextPromise
            && k !in s.eviction && t.eviction == if r.Success? then s.eviction + [k] else s.eviction
  {
    hide Drop, Wf;
    DropFromLookup(s, k);
    assert (s.nodes[k := Finished(s.nodes[k], r, now, s.errorTtl)]).Keys == s.nodes.Keys;
  }

  lemma DropFromLookup(s: State, k: Key)
    requires Wf(s) && k in s.lookup
    ensures k in s.nodes && k !in s.eviction && Drop(s, k) == s.(lookup := Without(s.lookup, k), nodes := s.nodes - {k})
  {}

  lemma SettleEffect(s: State, k: Key, r: Try, now: Time, u: map<Key, nat>, tick: nat)
    requires Wf(s) && k in s.lookup && !r.Empty? && InUseOrder(s.eviction, u, tick)
    ensures InUseOrder(Settle(s, k, r, now).eviction, u[k := tick], tick + 1)
  {
    hide Settle, Wf, InUseOrder;
    SettleShape(s, k, r, now);
    UsingAppends(s.eviction, k, u, tick);
  }


  lemma PutEffect(s: State, k: Key, v: Value, now: Time, u: map<Key, nat>, tick: nat)
    requires Wf(s) && k !in s.lookup && InUseOrder(s.eviction, u, tick)
    ensures var t := Put(s, k, v, now);
            && t.maxItems == s.maxItems && t.lookup == s.lookup
            && |t.nodes| <= Max(s.maxItems, Max(|s.nodes|, |s.lookup| + 1))
            && Balance(t) == Balance(s) && Unanswered(t) == Unanswered(s)
            && InUseOrder(t.eviction, u[k := tick], tick + 1)
  {
    hide Cleared;
    ClearedTrims(s, k, now, u, tick);
    UsingAppends(Cleared(s, k, now).eviction, k, u, tick);
  }

  // ----- Invariants of a run

  /** Everything but the promises: the queues agree with the map and with the outstanding
      continuations, the successful queue is in order of use, each lookup ran the getter once,
      and the counters balance. */
  ghost predicate Ledger(w: World) {
    && Wf(w.s)
    && (forall k :: k in w.started <==> k in w.s.lookup)
    && InUseOrder(w.s.eviction, w.lastUse, w.tick)
    && (forall k :: w.calls[k] == w.completions[k] + if k in w.s.lookup then 1 else 0)
    && Balance(w.s) == 0 && Unanswered(w.s) == w.thrown
    && |w.s.nodes| <= Max(w.s.maxItems, |w.s.lookup| + 1)
  }

  /** The part of the invariant a step must re-establish when it starts and ends no lookup. */
  ghost predicate Carries(w: World, t: State, u: map<Key, nat>, tick: nat, thrown: nat) {
    && Wf(t) && t.lookup == w.s.lookup && t.maxItems == w.s.maxItems
    && InUseOrder(t.eviction, u, tick)
    && Balance(t) == 0 && Unanswered(t) == thrown
    && |t.nodes| <= Max(t.maxItems, Max(|w.s.nodes|, |w.s.lookup| + 1))
  }

  lemma Carried(w: World, x: World)
    requires Ledger(w) && Carries(w, x.s, x.lastUse, x.tick, x.thrown)
    requires x.started == w.started && x.calls == w.calls && x.completions == w.completions
    ensures Ledger(x)
  {
    hide Wf, InUseOrder;
  }

  predicate Usable(s: State, k: Key, now: Time) { k in s.nodes && !Expired(s.nodes[k], now) }

  lemma UnusableIsIdle(s: State, k: Key, now: Time)
    requires Wf(s) && !Usable(s, k, now)
    ensures k !in s.lookup && Loaded(s).lookup == s.lookup
  {}

  lemma ReuseCarries(w: World, k: Key)
    requires Ledger(w)
    ensures Carries(w, Reused(Loaded(w.s), k), w.lastUse[k := w.tick], w.tick + 1, w.thrown)
  {
    ReusedEffect(Loaded(w.s), k, w.lastUse, w.tick);
  }

  lemma MissCarries(w: World, k: Key, now: Time)
    requires Ledger(w) && !Usable(w.s, k, now)
    ensures Carries(w, Get(w.s, k, now).0, w.lastUse, w.tick, w.thrown)
  {
    hide Wf, InUseOrder, Vacate;
    UnusableIsIdle(w.s, k, now);
    VacateTrims(Loaded(w.s), k, w.lastUse, w.tick);
  }

  lemma MixedCarries(w: World)
    requires Ledger(w)
    ensures Carries(w, Loaded(w.s), w.lastUse, w.tick, w.thrown + 1)
  {}

  lemma GetKeeps(w: World, k: Key, now: Time)
    requires Ledger(w)
    ensures Ledger(Step(w, DoGet(k, now)))
  {
    hide Wf, InUseOrder, Vacate, Reused;
    if !Usable(w.s, k, now) {
      MissCarries(w, k, now);
      Carried(w, Step(w, DoGet(k, now)));
    } else if w.s.nodes[k].waiters.Some? {
      MixedCarries(w);
      Carried(w, Step(w, DoGet(k, now)));
    } else {
      ReuseCarries(w, k);
      Carried(w, Step(w, DoGet(k, now)));
    }
  }

  lemma SharedLookup(s: State, k: Key, now: Time)
    requires Wf(s) && k in s.lookup
    ensures Usable(s, k, now) && s.nodes[k].waiters.Some? && Loaded(s).lookup == s.lookup
  {}

  lemma ShareKeeps(w: World, k: Key, now: Time)
    requires Ledger(w) && k in w.s.lookup
    ensures Ledger(Step(w, DoAsyncGet(k, now)))
  {
    hide Subscribed, InUseOrder, Wf;
    SharedLookup(w.s, k, now);
    SubscribedEffect(Loaded(w.s), k);
    Carried(w, Step(w, DoAsyncGet(k, now)));
  }

  lemma UsableIsIdle(s: State, k: Key)
    requires Wf(s) && k in s.nodes && k !in s.lookup
    ensures s.nodes[k].waiters.None?
  {}

  lemma ReadyKeeps(w: World, k: Key, now: Time)
    requires Ledger(w) && Usable(w.s, k, now) && k !in w.s.lookup
    ensures Ledger(Step(w, DoAsyncGet(k, now)))
  {
    hide Reused, InUseOrder, Wf;
    UsableIsIdle(w.s, k);
    ReuseCarries(w, k);
    Carried(w, Step(w, DoAsyncGet(k, now)));
  }

  /** The rest of the invariant, for a step that starts or ends a lookup. */
  ghost predicate Sound(t: State, u: map<Key, nat>, tick: nat, thrown: nat) {
    && Wf(t) && InUseOrder(t.eviction, u, tick)
    && Balance(t) == 0 && Unanswered(t) == thrown
    && |t.nodes| <= Max(t.maxItems, |t.lookup| + 1)
  }

  lemma Began(w: World, x: World, k: Key)
    requires Ledger(w) && Sound(x.s, x.lastUse, x.tick, x.thrown) && k !in w.s.lookup && x.s.lookup == w.s.lookup + [k]
    requires x.started.Keys == w.started.Keys + {k}
    requires x.calls == w.calls + multiset{k} && x.completions == w.completions
    ensures Ledger(x)
  {
    hide Wf, InUseOrder;
    assert forall j :: j in x.started <==> j in w.started || j == k;
    assert forall j :: j in x.s.lookup <==> j in w.s.lookup || j == k;
  }

  lemma Ended(w: World, x: World, k: Key)
    requires Ledger(w) && Sound(x.s, x.lastUse, x.tick, x.thrown)
    requires k in w.s.lookup && x.s.lookup == Without(w.s.lookup, k)
    requires x.started == w.started - {k}
    requires x.calls == w.calls && x.completions == w.completions + multiset{k}
    ensures Ledger(x)
  {
    hide Wf, InUseOrder, NoDup, Without;
    KnownInFlight(w.s, k);
    assert forall j :: j in x.s.lookup <==> j in w.s.lookup && j != k;
    assert forall j :: j in x.started <==> j in w.started && j != k;
    forall j
      ensures x.calls[j] == x.completions[j] + if j in x.s.lookup then 1 else 0
    {
      assert w.calls[j] == w.completions[j] + if j in w.s.lookup then 1 else 0;
    }
  }

  lemma KnownInFlight(s: State, k: Key)
    requires Wf(s) && k in s.lookup
    ensures k in s.nodes && s.nodes[k].waiters.Some? && NoDup(s.lookup)
  {}

  lemma CompleteIsSound(w: World, k: Key, r: Try)
    requires Ledger(w) && Allowed(w, DoComplete(k, r))
    ensures var t := Complete(w.s, k, r, w.started[k].now);
            Sound(t, w.lastUse[k := w.tick], w.tick + 1, w.thrown) && t.lookup == Without(w.s.lookup, k)
  {
    hide Wf, Complete, InUseOrder;
    CompleteEffect(w.s, k, r, w.started[k].now, w.lastUse, w.tick);
  }

  lemma BeginIsSound(w: World, k: Key, now: Time)
    requires Ledger(w) && !Usable(w.s, k, now)
    ensures var t := Begin(Cleared(Loaded(w.s), k, now), k);
            Sound(t, w.lastUse, w.tick, w.thrown) && t.lookup == w.s.lookup + [k]
  {
    hide Wf, Begin, Cleared, InUseOrder;
    UnusableIsIdle(w.s, k, now);
    ClearedTrims(Loaded(w.s), k, now, w.lastUse, w.tick);
    BeginEffect(Cleared(Loaded(w.s), k, now), k);
  }

  lemma BeginKeeps(w: World, k: Key, now: Time)
    requires Ledger(w) && !Usable(w.s, k, now)
    ensures Ledger(Step(w, DoAsyncGet(k, now)))
  {
    hide Wf, Begin, Cleared, InUseOrder;
    UnusableIsIdle(w.s, k, now);
    BeginIsSound(w, k, now);
    Began(w, Step(w, DoAsyncGet(k, now)), k);
  }

  lemma CompleteEffect(s: State, k: Key, r: Try, now: Time, u: map<Key, nat>, tick: nat)
    requires Wf(s) && k in s.lookup && !r.Empty? && InUseOrder(s.eviction, u, tick)
    ensures var t := Complete(s, k, r, now);
            && t.maxItems == s.maxItems && t.lookup == Without(s.lookup, k)
            && |t.nodes| <= Max(t.maxItems, |t.lookup|)
            && Balance(t) == Balance(s) && Unanswered(t) == Unanswered(s)
            && InUseOrder(t.eviction, u[k := tick], tick + 1)
  {
    hide Wf, Settle, EvictExcess, InUseOrder;
    SettleShape(s, k, r, now);
    SettleEffect(s, k, r, now, u, tick);
    EvictExcessTrims(Settle(s, k, r, now), now, u[k := tick], tick + 1);
  }

  lemma CompleteKeeps(w: World, k: Key, r: Try)
    requires Ledger(w) && Allowed(w, DoComplete(k, r))
    ensures Ledger(Step(w, DoComplete(k, r)))
  {
    hide Wf, InUseOrder, Complete, Deliver;
    KnownInFlight(w.s, k);
    CompleteIsSound(w, k, r);
    Ended(w, Step(w, DoComplete(k, r)), k);
  }

  lemma PutKeeps(w: World, k: Key, v: Value, now: Time)
    requires Ledger(w) && Allowed(w, DoPut(k, v, now))
    ensures Ledger(Step(w, DoPut(k, v, now)))
  {
    hide Wf, InUseOrder, Put;
    PutEffect(w.s, k, v, now, w.lastUse, w.tick);
    Carried(w, Step(w, DoPut(k, v, now)));
  }

  lemma EraseEffect(s: State, k: Key, u: map<Key, nat>, tick: nat)
    requires Wf(s) && k !in s.lookup && InUseOrder(s.eviction, u, tick)
    ensures var t := Erase(s, k);
            && t.lookup == s.lookup && t.maxItems == s.maxItems && |t.nodes| <= |s.nodes|
            && Balance(t) == Balance(s) && Unanswered(t) == Unanswered(s) && InUseOrder(t.eviction, u, tick)
  {
    if k in s.eviction { WithoutKeepsOrder(s.eviction, k, u, tick); }
  }

  lemma EraseKeeps(w: World, k: Key)
    requires Ledger(w) && Allowed(w, DoErase(k))
    ensures Ledger(Step(w, DoErase(k)))
  {
    hide Wf, Erase, InUseOrder;
    EraseEffect(w.s, k, w.lastUse, w.tick);
    Carried(w, Step(w, DoErase(k)));
  }

  // ----- Promises

  /** A lookup in flight: its node and the promises waiting on it. */
  datatype Flight = Flight(id: nat, waiters: seq<nat>)

  function Flights(s: State): map<Key, Flight>
    requires Wf(s)
  {
    map k | k in s.lookup :: Flight(s.nodes[k].id, s.nodes[k].waiters.value)
  }

  /** A promise is either waiting on the in-flight node it was issued for, with nothing delivered,
      or was fulfilled once, with that node. */
  ghost predicate Kept(f: map<Key, Flight>, issued: map<nat, Ticket>, inbox: map<nat, seq<nat>>, next: nat) {
    && issued.Keys == inbox.Keys
    && (forall p :: p in issued ==> p < next)
    && (forall k :: k in f ==> NoDup(f[k].waiters))
    && (forall k, p :: k in f && p in f[k].waiters ==>
          p in issued && issued[p] == Ticket(k, f[k].id) && inbox[p] == [])
    && (forall p :: p in issued ==> inbox[p] == [issued[p].id] || Waiting(f, issued[p], p))
  }

  ghost predicate Waiting(f: map<Key, Flight>, t: Ticket, p: nat) {
    t.k in f && p in f[t.k].waiters
  }

  lemma ShareKept(f: map<Key, Flight>, issued: map<nat, Ticket>, inbox: map<nat, seq<nat>>, next: nat, k: Key)
    requires Kept(f, issued, inbox, next) && k in f
    ensures Kept(f[k := Flight(f[k].id, f[k].waiters + [next])], issued[next := Ticket(k, f[k].id)],
                 inbox[next := []], next + 1)
  {
    assert next !in issued;
  }

  lemma BeginKept(f: map<Key, Flight>, issued: map<nat, Ticket>, inbox: map<nat, seq<nat>>, next: nat, k: Key, id: nat)
    requires Kept(f, issued, inbox, next) && k !in f
    ensures Kept(f[k := Flight(id, [next])], issued[next := Ticket(k, id)], inbox[next := []], next + 1)
  {
    assert next !in issued;
  }

  lemma EndKept(f: map<Key, Flight>, issued: map<nat, Ticket>, inbox: map<nat, seq<nat>>, next: nat, k: Key)
    requires Kept(f, issued, inbox, next) && k in f
    ensures Kept(f - {k}, issued, Deliver(inbox, f[k].waiters, f[k].id), next)
  {
    DeliverOnce(inbox, f[k].waiters, f[k].id);
  }

  lemma {:induction false} DeliverOnce(inbox: map<nat, seq<nat>>, ps: seq<nat>, id: nat)
    requires NoDup(ps) && forall p :: p in ps ==> p in inbox && inbox[p] == []
    ensures var r := Deliver(inbox, ps, id);
            r.Keys == inbox.Keys && forall p :: p in r ==> r[p] == if p in ps then [id] else inbox[p]
    decreases |ps|
  {
    if ps != [] {
      var next := inbox[ps[0] := [id]];
      assert ps == [ps[0]] + ps[1..];
      assert forall j :: 0 < j < |ps| ==> ps[j] != ps[0];
      assert forall p :: p in ps[1..] ==> p in next && next[p] == [];
      assert inbox[ps[0]] + [id] == [id];
      assert Deliver(inbox, ps, id) == Deliver(next, ps[1..], id);
      DeliverOnce(next, ps[1..], id);
    }
  }

  ghost predicate Promises(w: World) {
    Wf(w.s) && Kept(Flights(w.s), w.issued, w.inbox, w.s.nextPromise)
  }

  /** No operation but its own completion touches a lookup in flight, except to add a waiter. */
  lemma TrimKeepsFlights(s: State, t: State)
    requires Trimmed(s, t)
    ensures Flights(t) == Flights(s)
  {
    assert forall k :: k in s.lookup ==> k in t.nodes;
  }

  lemma GetFlights(s: State, k: Key, now: Time)
    requires Wf(s)
    ensures Flights(Get(s, k, now).0) == Flights(s) && Get(s, k, now).0.nextPromise == s.nextPromise
  {
    if !Usable(s, k, now) {
      VacateTrims(Loaded(s), k, map[], 0);
      TrimKeepsFlights(Loaded(s), Vacate(Loaded(s), k));
    }
  }

  lemma BeginAddsFlight(s: State, k: Key)
    requires Wf(s) && k !in s.nodes
    ensures Flights(Begin(s, k)) == Flights(s)[k := Flight(s.nextNode, [s.nextPromise])]
  {
    BeginEffect(s, k);
  }

  lemma FlightEnds(s: State, t: State, k: Key, n: Node)
    requires Wf(s) && Wf(t) && k in s.lookup
    requires t.lookup == Without(s.lookup, k) && t.nodes == s.nodes[k := n]
    ensures Flights(t) == Flights(s) - {k}
  {}

  lemma SettleEndsFlight(s: State, k: Key, r: Try, now: Time)
    requires Wf(s) && k in s.lookup && !r.Empty?
    ensures Flights(Settle(s, k, r, now)) == Flights(s) - {k} && Settle(s, k, r, now).nextPromise == s.nextPromise
  {
    hide Settle;
    SettleShape(s, k, r, now);
    assert k in s.nodes;
    FlightEnds(s, Settle(s, k, r, now), k, Finished(s.nodes[k], r, now, s.errorTtl));
  }

  lemma BeginFlights(s: State, k: Key, now: Time)
    requires Wf(s) && !Usable(s, k, now)
    ensures var t := AsyncGet(s, k, now).0;
            && Flights(t) == Flights(s)[k := Flight(s.nextNode, [s.nextPromise])]
            && t.nextPromise == s.nextPromise + 1 && k !in s.lookup
  {
    hide Begin, Cleared;
    var c := Cleared(Loaded(s), k, now);
    UnusableIsIdle(s, k, now);
    ClearedTrims(Loaded(s), k, now, map[], 0);
    TrimKeepsFlights(Loaded(s), c);
    BeginEffect(c, k);
    BeginAddsFlight(c, k);
  }

  lemma ShareFlights(s: State, k: Key, now: Time)
    requires Wf(s) && k in s.lookup
    ensures var t := AsyncGet(s, k, now).0; var f := Flights(s)[k];
            && Flights(t) == Flights(s)[k := Flight(f.id, f.waiters + [s.nextPromise])]
            && t.nextPromise == s.nextPromise + 1
  {
    hide Subscribed;
    SubscribedEffect(Loaded(s), k);
  }

  lemma CompleteFlights(s: State, k: Key, r: Try, now: Time)
    requires Wf(s) && k in s.lookup && !r.Empty?
    ensures var t := Complete(s, k, r, now); Flights(t) == Flights(s) - {k} && t.nextPromise == s.nextPromise
  {
    var u := Settle(s, k, r, now);
    SettleEndsFlight(s, k, r, now);
    EvictExcessTrims(u, now, map[], 0);
    TrimKeepsFlights(u, EvictExcess(u, now));
  }

  lemma PutFlights(s: State, k: Key, v: Value, now: Time)
    requires Wf(s) && k !in s.lookup
    ensures Flights(Put(s, k, v, now)) == Flights(s) && Put(s, k, v, now).nextPromise == s.nextPromise
  {
    hide Cleared, Stored, Wf, Flights;
    ClearedTrims(s, k, now, map[], 0);
    TrimKeepsFlights(s, Cleared(s, k, now));
    StoredFlights(Cleared(s, k, now), k, v);
  }

  lemma StoredFlights(s: State, k: Key, v: Value)
    requires Wf(s) && k !in s.nodes
    ensures Flights(Stored(s, k, v)) == Flights(s) && Stored(s, k, v).nextPromise == s.nextPromise
  {}

  lemma ShareKeepsPromises(w: World, k: Key, now: Time)
    requires Promises(w) && k in w.s.lookup
    ensures Promises(Step(w, DoAsyncGet(k, now)))
  {
    ShareFlights(w.s, k, now);
    ShareKept(Flights(w.s), w.issued, w.inbox, w.s.nextPromise, k);
  }

  lemma BeginKeepsPromises(w: World, k: Key, now: Time)
    requires Promises(w) && !Usable(w.s, k, now)
    ensures Promises(Step(w, DoAsyncGet(k, now)))
  {
    BeginFlights(w.s, k, now);
    BeginKept(Flights(w.s), w.issued, w.inbox, w.s.nextPromise, k, w.s.nextNode);
  }

  lemma CompleteKeepsPromises(w: World, k: Key, r: Try)
    requires Promises(w) && Allowed(w, DoComplete(k, r))
    ensures Promises(Step(w, DoComplete(k, r)))
  {
    CompleteFlights(w.s, k, r, w.started[k].now);
    EndKept(Flights(w.s), w.issued, w.inbox, w.s.nextPromise, k);
  }

  lemma EraseFlights(s: State, k: Key)
    requires Wf(s) && k !in s.lookup
    ensures Flights(Erase(s, k)) == Flights(s) && Erase(s, k).nextPromise == s.nextPromise
  {}

  lemma ClearFlights(s: State)
    requires Wf(s) && s.lookup == []
    ensures Flights(Clear(s)) == Flights(s) && Clear(s).nextPromise == s.nextPromise
  {}

  /** Steps that leave every lookup alone. */
  lemma QuietKeepsPromises(w: World, op: Op)
    requires Promises(w) && Allowed(w, op)
    requires op.DoGet? || op.DoPut? || op.DoErase? || op.DoClear?
    ensures Promises(Step(w, op))
  {
    hide Get, Put, Erase, Clear, Kept, Wf, Flights;
    match op
    case DoGet(k, now) => GetFlights(w.s, k, now);
    case DoPut(k, v, now) => PutFlights(w.s, k, v, now);
    case DoErase(k) => EraseFlights(w.s, k);
    case DoClear => ClearFlights(w.s);
  }

  lemma ReadyKeepsPromises(w: World, k: Key, now: Time)
    requires Promises(w) && Usable(w.s, k, now) && k !in w.s.lookup
    ensures Promises(Step(w, DoAsyncGet(k, now)))
  {
    hide Kept;
    assert Flights(Reused(Loaded(w.s), k)) == Flights(w.s);
  }

  lemma StepKeepsPromises(w: World, op: Op)
    requires Promises(w) && Allowed(w, op)
    ensures Promises(Step(w, op))
  {
    match op
    case DoAsyncGet(k, now) =>
      if k in w.s.lookup { ShareKeepsPromises(w, k, now); }
      else if !Usable(w.s, k, now) { BeginKeepsPromises(w, k, now); }
      else { ReadyKeepsPromises(w, k, now); }
    case DoComplete(k, r) => CompleteKeepsPromises(w, k, r);
    case _ => QuietKeepsPromises(w, op);
  }

  lemma StepKeepsLedger(w: World, op: Op)
    requires Ledger(w) && Allowed(w, op)
    ensures Ledger(Step(w, op))
  {
    match op
    case DoGet(k, now) => GetKeeps(w, k, now);
    case DoAsyncGet(k, now) =>
      if k in w.s.lookup { ShareKeeps(w, k, now); }
      else if !Usable(w.s, k, now) { BeginKeeps(w, k, now); }
      else { ReadyKeeps(w, k, now); }
    case DoComplete(k, r) => CompleteKeeps(w, k, r);
    case DoPut(k, v, now) => PutKeeps(w, k, v, now);
    case DoErase(k) => EraseKeeps(w, k);
    case DoClear =>
  }

  lemma StartIsSound(w: World)
    requires Starts(w)
    ensures Ledger(w) && Promises(w) && Tight(w.s)
  {}

  lemma NextKeepsLedger(w: World, op: Op, x: World)
    requires Ledger(w) && Next(w, op, x)
    ensures Ledger(x)
  {
    StepKeepsLedger(w, op);
  }

  lemma NextKeepsPromises(w: World, op: Op, x: World)
    requires Promises(w) && Next(w, op, x)
    ensures Promises(x)
  {
    StepKeepsPromises(w, op);
  }

  // ----- The theorems

  /** In every state of every run the queues agree with the map, in order of use, and the books balance. */
  lemma RunKeepsLedger(b: seq<World>, ops: seq<Op>, i: nat)
    requires Behavior(b, ops) && i < |b|
    ensures Ledger(b[i])
  {
    StartIsSound(b[0]);
    forall w, op, x | Ledger(w) && Next(w, op, x) ensures Ledger(x) { NextKeepsLedger(w, op, x); }
    Runs.Throughout(b, ops, Ledger, Next, i);
  }

  /** In every state of every run each promise waits on its in-flight node or was fulfilled once, with it. */
  lemma RunKeepsPromises(b: seq<World>, ops: seq<Op>, i: nat)
    requires Behavior(b, ops) && i < |b|
    ensures Promises(b[i])
  {
    StartIsSound(b[0]);
    forall w, op, x | Promises(w) && Next(w, op, x) ensures Promises(x) { NextKeepsPromises(w, op, x); }
    Runs.Throughout(b, ops, Promises, Next, i);
  }

  /** A successful node is only evicted when no successful node was used longer ago. */
  lemma VictimIsLeastRecentlyUsed(b: seq<World>, ops: seq<Op>, i: nat, now: Time, force: bool, k: Key)
    requires Behavior(b, ops) && i < |b| && Wf(b[i].s)
    requires Victim(b[i].s, now, force) == Some(k) && k in b[i].s.eviction
    ensures forall j :: j in b[i].s.eviction && j != k ==> LastUse(b[i].lastUse, k) < LastUse(b[i].lastUse, j)
  {
    RunKeepsLedger(b, ops, i);
    assert k == b[i].s.eviction[0] by {
      assert b[i].s.errored != [] ==> b[i].s.errored[0] in b[i].s.errored;
    }
  }

  /** Lookups in flight are the only reason to exceed `maxItems`. */
  predicate Tight(s: State) { |s.nodes| <= Max(s.maxItems, |s.lookup|) }

  lemma GetStaysTight(s: State, k: Key, now: Time)
    requires Wf(s) && Tight(s)
    ensures Tight(Get(s, k, now).0)
  {
    if !Usable(s, k, now) { VacateTrims(Loaded(s), k, map[], 0); }
  }

  lemma AsyncGetStaysTight(s: State, k: Key, now: Time)
    requires Wf(s) && Tight(s)
    ensures Tight(AsyncGet(s, k, now).0)
  {
    hide Begin, Cleared, Subscribed;
    if k in s.lookup {
      SubscribedEffect(Loaded(s), k);
    } else if !Usable(s, k, now) {
      UnusableIsIdle(s, k, now);
      ClearedTrims(Loaded(s), k, now, map[], 0);
      BeginEffect(Cleared(Loaded(s), k, now), k);
    }
  }

  lemma CompletionTightens(w: World, k: Key, r: Try)
    requires Ledger(w) && Allowed(w, DoComplete(k, r))
    ensures Tight(Step(w, DoComplete(k, r)).s)
  {
    CompleteEffect(w.s, k, r, w.started[k].now, w.lastUse, w.tick);
  }

  lemma StepStaysTight(w: World, op: Op)
    requires Ledger(w) && Allowed(w, op) && Tight(w.s) && !op.DoPut?
    ensures Tight(Step(w, op).s)
  {
    hide Wf, Get, AsyncGet, Complete, InUseOrder;
    match op
    case DoGet(k, now) => GetStaysTight(w.s, k, now);
    case DoAsyncGet(k, now) => AsyncGetStaysTight(w.s, k, now);
    case DoComplete(k, r) => CompletionTightens(w, k, r);
    case DoErase(k) =>
    case DoClear =>
  }

  /** In every reachable state a `set` may have added one node beyond that. */
  lemma CapacityBound(b: seq<World>, ops: seq<Op>, i: nat)
    requires Behavior(b, ops) && i < |b|
    ensures |b[i].s.nodes| <= Max(b[i].s.maxItems, |b[i].s.lookup| + 1)
  {
    RunKeepsLedger(b, ops, i);
  }

  ghost predicate NextWithoutSet(w: World, op: Op, x: World) {
    Next(w, op, x) && !op.DoPut?
  }

  ghost predicate TightLedger(w: World) {
    Ledger(w) && Tight(w.s)
  }

  lemma NextStaysTight(w: World, op: Op, x: World)
    requires TightLedger(w) && NextWithoutSet(w, op, x)
    ensures TightLedger(x)
  {
    StepKeepsLedger(w, op);
    StepStaysTight(w, op);
  }

  lemma RunWithoutSetIsTight(b: seq<World>, ops: seq<Op>, i: nat)
    requires Runs.Joined(b, ops, NextWithoutSet) && Starts(b[0]) && i < |b|
    ensures Tight(b[i].s)
  {
    StartIsSound(b[0]);
    forall w, op, x | TightLedger(w) && NextWithoutSet(w, op, x) ensures TightLedger(x) { NextStaysTight(w, op, x); }
    Runs.Throughout(b, ops, TightLedger, NextWithoutSet, i);
  }

  // ----- The captured node

  /** Nodes have different numbers, all given out already, and what a continuation captured is the node that the
      map holds under its key. */
  ghost predicate Identified(w: World) {
    && (forall k :: k in w.s.nodes ==> w.s.nodes[k].id < w.s.nextNode)
    && (forall j, k :: j in w.s.nodes && k in w.s.nodes && j != k ==> w.s.nodes[j].id != w.s.nodes[k].id)
    && (forall k :: k in w.started ==> k in w.s.nodes && w.s.nodes[k].id == w.started[k].id)
  }

  /** Every node of t is a node of s, except that the one of k may be new. */
  ghost predicate Kin(s: State, t: State, k: Key) {
    && (t.nextNode == s.nextNode || t.nextNode == s.nextNode + 1)
    && forall j :: j in t.nodes ==> (j in s.nodes && t.nodes[j].id == s.nodes[j].id)
                                    || (j == k && t.nodes[j].id == s.nextNode < t.nextNode)
  }

  lemma GetIsKin(s: State, k: Key, now: Time)
    requires Wf(s)
    ensures Kin(s, Get(s, k, now).0, k) && Get(s, k, now).0.nextNode == s.nextNode
  {
    hide Wf;
  }

  lemma AsyncGetIsKin(s: State, k: Key, now: Time)
    requires Wf(s)
    ensures Kin(s, AsyncGet(s, k, now).0, k)
    ensures var (t, r) := AsyncGet(s, k, now);
            if r.Started? then k in t.nodes && t.nodes[k].id == r.id else t.nextNode == s.nextNode
  {
    hide Wf, MakeRoom, Vacate, Drop;
    if !(k in s.nodes && !Expired(s.nodes[k], now)) {
      var c := Cleared(Loaded(s), k, now);
      ClearedIsKin(Loaded(s), k, now);
      BeginEffect(c, k);
    }
  }

  lemma ClearedIsKin(s: State, k: Key, now: Time)
    requires Wf(s)
    ensures var c := Cleared(s, k, now);
            c.nextNode == s.nextNode && forall j :: j in c.nodes ==> j in s.nodes && c.nodes[j] == s.nodes[j]
  {
    hide Wf, MakeRoom, Drop;
    MakeRoomTrims(Vacate(s, k), now, map[], 0);
  }

  lemma CompleteIsKin(s: State, k: Key, r: Try, now: Time)
    requires Wf(s) && k in s.lookup && !r.Empty?
    ensures Kin(s, Complete(s, k, r, now), k) && Complete(s, k, r, now).nextNode == s.nextNode
  {
    hide Wf, Link, Drop, EvictExcess;
    assert k in s.nodes by { WhereIs(s, k); }
    var t := Settle(s, k, r, now);
    SettleShape(s, k, r, now);
    EvictExcessTrims(t, now, map[], 0);
  }

  lemma WhereIs(s: State, k: Key)
    requires Wf(s) && k in s.lookup
    ensures k in s.nodes
  {}

  lemma PutIsKin(s: State, k: Key, v: Value, now: Time)
    requires Wf(s)
    ensures Kin(s, Put(s, k, v, now), k)
  {
    hide Wf, Cleared;
    ClearedIsKin(s, k, now);
  }

  lemma KinIsIdentified(w: World, x: World, k: Key)
    requires Identified(w) && Kin(w.s, x.s, k)
    requires forall j :: j in x.started ==> j in x.s.nodes
    requires forall j :: j in x.started ==>
               (j in w.started && x.started[j] == w.started[j] && (j == k ==> x.s.nextNode == w.s.nextNode))
               || (j == k && x.s.nodes[j].id == x.started[j].id)
    ensures Identified(x)
  {}

  lemma AsyncGetIsIdentified(w: World, k: Key, now: Time, x: World)
    requires Wf(w.s) && Identified(w) && Next(w, DoAsyncGet(k, now), x)
    requires forall j :: j in x.started ==> j in x.s.nodes
    ensures Identified(x)
  {
    hide Wf, AsyncGet, Identified, Kin;
    AsyncGetIsKin(w.s, k, now);
    KinIsIdentified(w, x, k);
  }

  lemma CompleteIsIdentified(w: World, k: Key, r: Try, x: World)
    requires Wf(w.s) && Identified(w) && Next(w, DoComplete(k, r), x)
    requires forall j :: j in x.started ==> j in x.s.nodes
    ensures Identified(x)
  {
    hide Wf, Complete, Identified, Kin, Deliver;
    CompleteIsKin(w.s, k, r, w.started[k].now);
    KinIsIdentified(w, x, k);
  }

  lemma StepIsIdentified(w: World, op: Op, x: World)
    requires Ledger(w) && Identified(w) && Next(w, op, x) && Ledger(x)
    ensures Identified(x)
  {
    hide Wf, Get, AsyncGet, Complete, Put, Erase, Clear, Identified, Kin, InUseOrder, Ledger;
    InFlightIsThere(w);
    InFlightIsThere(x);
    match op
    case DoGet(k, now) =>
      GetIsKin(w.s, k, now);
      KinIsIdentified(w, x, k);
    case DoAsyncGet(k, now) => AsyncGetIsIdentified(w, k, now, x);
    case DoComplete(k, r) => CompleteIsIdentified(w, k, r, x);
    case DoPut(k, v, now) =>
      PutIsKin(w.s, k, v, now);
      KinIsIdentified(w, x, k);
    case DoErase(k) =>
      EraseIsKin(w.s, k);
      KinIsIdentified(w, x, k);
    case DoClear => ClearIsIdentified(w, x);
  }

  lemma InFlightIsThere(w: World)
    requires Ledger(w)
    ensures forall k :: k in w.started ==> k in w.s.nodes && k in w.s.lookup
  {}

  lemma EraseIsKin(s: State, k: Key)
    requires Wf(s)
    ensures Kin(s, Erase(s, k), k) && Erase(s, k).nextNode == s.nextNode
  {
    hide Wf;
  }

  lemma ClearIsIdentified(w: World, x: World)
    requires Identified(w) && Next(w, DoClear, x) && forall k :: k in x.started ==> k in x.s.nodes
    ensures Identified(x)
  {}

  ghost predicate Known(w: World) { Ledger(w) && Identified(w) }

  lemma KnownThroughout(b: seq<World>, ops: seq<Op>, i: nat)
    requires Behavior(b, ops) && i < |b|
    ensures Known(b[i])
  {
    hide Ledger, Identified, Next;
    StartIsSound(b[0]);
    StartIsIdentified(b[0]);
    forall w, op, x | Known(w) && Next(w, op, x) ensures Known(x) {
      NextKeepsLedger(w, op, x);
      StepIsIdentified(w, op, x);
    }
    Runs.Throughout(b, ops, Known, Next, i);
  }

  lemma StartIsIdentified(w: World)
    requires Starts(w)
    ensures Identified(w)
  {}

  /** In every reachable state the node that the continuation of a started lookup captured is the one node with its
      number, is in the map under its key and in the lookup queue, and may complete with any result, after which it
      belongs to another queue: neither abort is reached. */
  lemma NeitherAbortIsReachable(b: seq<World>, ops: seq<Op>, i: nat, k: Key, r: Try)
    requires Behavior(b, ops) && i < |b| && k in b[i].started && !r.Empty?
    ensures k in b[i].s.nodes && b[i].s.nodes[k].id == b[i].started[k].id
    ensures forall j :: j in b[i].s.nodes && b[i].s.nodes[j].id == b[i].started[k].id ==> j == k
    ensures WhichQ(b[i].s.nodes[k]) == Lookup && Allowed(b[i], DoComplete(k, r))
    ensures WhichQ(Finished(b[i].s.nodes[k], r, b[i].started[k].now, b[i].s.errorTtl)) != Lookup
  {
    KnownThroughout(b, ops, i);
  }
}
