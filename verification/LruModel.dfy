/**
 The cache of LRUCache.h on values: one function per critical section, over a state
 whose three queues are sequences of keys. LruCache.dfy proves the pointer-level code
 equal to these functions; LruRuns.dfy proves what holds over every run.
 */
module LruModel {
  import opened Options

  type Key(==, !new)
  type Value(==, !new)
  type Time = int

  /** folly::Try: nothing yet, a value, or an exception. */
  datatype Try = Empty | Success(value: Value) | Failure

  /** `waiters` is the promise list; it is present exactly while the lookup is in flight. */
  datatype Node = Node(id: nat, result: Try, waiters: Option<seq<nat>>, deadline: Time)

  datatype Queue = Lookup | Eviction | Errored

  datatype Stats = Stats(hit: nat, share: nat, miss: nat, evict: nat, store: nat, load: nat,
                         erase: nat, clears: nat)

  datatype State = State(
    maxItems: nat, errorTtl: Time, nodes: map<Key, Node>,
    lookup: seq<Key>, eviction: seq<Key>, errored: seq<Key>,
    stats: Stats, nextNode: nat, nextPromise: nat)

  function Initial(maxItems: nat, errorTtl: Time): (s: State)
    ensures Wf(s)
  {
    State(maxItems, errorTtl, map[], [], [], [], Stats(0, 0, 0, 0, 0, 0, 0, 0), 0, 0)
  }

  function WhichQ(n: Node): Queue {
    if n.waiters.Some? then Lookup else if !n.result.Success? then Errored else Eviction
  }

  predicate Expired(n: Node, now: Time) {
    n.result.Failure? && now >= n.deadline
  }

  function QueueOf(s: State, q: Queue): seq<Key> {
    match q
    case Lookup => s.lookup
    case Eviction => s.eviction
    case Errored => s.errored
  }

  function WithQueue(s: State, q: Queue, keys: seq<Key>): State {
    match q
    case Lookup => s.(lookup := keys)
    case Eviction => s.(eviction := keys)
    case Errored => s.(errored := keys)
  }

  ghost predicate NoDup<T>(q: seq<T>) {
    forall i, j :: 0 <= i < j < |q| ==> q[i] != q[j]
  }

  /** Each mapped node is in exactly the queue `WhichQ` names, once, and nothing else is queued. */
  ghost predicate Wf(s: State) {
    && NoDup(s.lookup) && NoDup(s.eviction) && NoDup(s.errored)
    && (forall k :: k in s.lookup <==> k in s.nodes && WhichQ(s.nodes[k]) == Lookup)
    && (forall k :: k in s.eviction <==> k in s.nodes && WhichQ(s.nodes[k]) == Eviction)
    && (forall k :: k in s.errored <==> k in s.nodes && WhichQ(s.nodes[k]) == Errored)
    && |s.nodes| == |s.lookup| + |s.eviction| + |s.errored|
    && (forall k :: k in s.lookup ==> s.nodes[k].result == Empty)
  }

  function Without(q: seq<Key>, k: Key): (r: seq<Key>)
    requires NoDup(q)
    ensures NoDup(r)
    ensures forall x :: x in r <==> x in q && x != k
    ensures |r| == if k in q then |q| - 1 else |q|
  {
    if q == [] then []
    else if q[0] == k then q[1..]
    else
      assert q == [q[0]] + q[1..];
      var rest := Without(q[1..], k);
      assert forall j :: 0 <= j < |rest| ==> rest[j] in rest;
      [q[0]] + rest
  }

  lemma {:induction false} WithoutAt(q: seq<Key>, i: nat)
    requires NoDup(q) && i < |q|
    ensures Without(q, q[i]) == q[..i] + q[i + 1..]
  {
    if i > 0 {
      WithoutAt(q[1..], i - 1);
      assert q[1..][..i - 1] == q[1..i];
      assert q[1..][i..] == q[i + 1..];
    }
  }

  function Appended(q: seq<Key>, k: Key): (r: seq<Key>)
    requires NoDup(q) && k !in q
    ensures NoDup(r) && |r| == |q| + 1
    ensures forall x :: x in r <==> x in q || x == k
  {
    q + [k]
  }

  /** Only the map and the queues differ. */
  predicate Requeued(s: State, t: State) {
    t == s.(nodes := t.nodes, lookup := t.lookup, eviction := t.eviction, errored := t.errored)
  }

  /** Unlink from the queue and erase from the map. */
  function Drop(s: State, k: Key): (r: State)
    requires Wf(s) && k in s.nodes
    ensures Wf(r) && r.nodes == s.nodes - {k} && Requeued(s, r)
  {
    var q := WhichQ(s.nodes[k]);
    WithQueue(s, q, Without(QueueOf(s, q), k)).(nodes := s.nodes - {k})
  }

  /** Insert into the map and at the tail of the queue `WhichQ` names. */
  function Link(s: State, k: Key, n: Node): (r: State)
    requires Wf(s) && k !in s.nodes && (n.waiters.Some? ==> n.result == Empty)
    ensures Wf(r) && r.nodes == s.nodes[k := n] && Requeued(s, r)
  {
    match WhichQ(n)
    case Lookup => s.(lookup := Appended(s.lookup, k), nodes := s.nodes[k := n])
    case Eviction => s.(eviction := Appended(s.eviction, k), nodes := s.nodes[k := n])
    case Errored => s.(errored := Appended(s.errored, k), nodes := s.nodes[k := n])
  }

  function Evicted(s: State, k: Key): (r: State)
    requires Wf(s) && k in s.nodes
    ensures Wf(r) && r.nodes == s.nodes - {k}
  {
    Drop(s, k).(stats := s.stats.(evict := s.stats.evict + 1))
  }

  /** The node `evictOne` chooses: an expired error at the head of the errored queue, else the
      head of the successful queue, else (when forced) the head of the errored queue. */
  function Victim(s: State, now: Time, force: bool): (v: Option<Key>)
    requires Wf(s)
    ensures v.Some? ==> v.value in s.nodes
  {
    assert s.eviction != [] ==> s.eviction[0] in s.eviction;
    if s.errored != [] && (assert s.errored[0] in s.errored; Expired(s.nodes[s.errored[0]], now))
    then Some(s.errored[0])
    else if s.eviction != [] then Some(s.eviction[0])
    else if force && s.errored != [] then Some(s.errored[0])
    else None
  }

  function EvictOne(s: State, now: Time): (r: State)
    requires Wf(s)
    ensures Wf(r) && r.nodes.Keys <= s.nodes.Keys && r.nextNode == s.nextNode && r.nextPromise == s.nextPromise
  {
    var v := Victim(s, now, true);
    if v.Some? then Evicted(s, v.value) else s
  }

  /** Discard the node of k, if any, before a new one is inserted. */
  function Vacate(s: State, k: Key): (r: State)
    requires Wf(s)
    ensures Wf(r) && r.nodes == s.nodes - {k} && r.nextNode == s.nextNode && r.nextPromise == s.nextPromise
  {
    if k in s.nodes then Evicted(s, k) else s
  }

  function MakeRoom(s: State, now: Time): (r: State)
    requires Wf(s)
    ensures Wf(r) && r.nodes.Keys <= s.nodes.Keys && r.nextNode == s.nextNode && r.nextPromise == s.nextPromise
  {
    if |s.nodes| + 1 > s.maxItems then EvictOne(s, now) else s
  }

  /** The state in which a node for k is inserted: an old one is gone, and room was made. */
  function Cleared(s: State, k: Key, now: Time): (r: State)
    requires Wf(s)
    ensures Wf(r) && k !in r.nodes
  {
    MakeRoom(Vacate(s, k), now)
  }

  /** The loop at the end of a completion. */
  function EvictExcess(s: State, now: Time): (r: State)
    requires Wf(s)
    ensures Wf(r)
    decreases |s.nodes|
  {
    if |s.nodes| > s.maxItems && Victim(s, now, true).Some? then EvictExcess(EvictOne(s, now), now) else s
  }

  /** The same loop when `strays` are in a queue but not in the map, whose size is what the loop tests. */
  function EvictPast(s: State, strays: set<Key>, now: Time): (r: State)
    requires Wf(s)
    ensures Wf(r)
    decreases |s.nodes|
  {
    if |s.nodes.Keys - strays| > s.maxItems && Victim(s, now, true).Some? then EvictPast(EvictOne(s, now), strays, now)
    else s
  }

  lemma {:induction false} NoStrays(s: State, now: Time)
    requires Wf(s)
    ensures EvictPast(s, {}, now) == EvictExcess(s, now)
    decreases |s.nodes|
  {
    assert s.nodes.Keys - {} == s.nodes.Keys;
    if |s.nodes| > s.maxItems && Victim(s, now, true).Some? { NoStrays(EvictOne(s, now), now); }
  }

  function Touch(s: State, k: Key): (r: State)
    requires Wf(s)
    ensures Wf(r) && r.nodes == s.nodes
  {
    if k in s.eviction then s.(eviction := Appended(Without(s.eviction, k), k)) else s
  }

  function Loaded(s: State): (r: State)
    requires Wf(s)
    ensures Wf(r)
  {
    s.(stats := s.stats.(load := s.stats.load + 1))
  }

  function Reused(s: State, k: Key): (r: State)
    requires Wf(s)
    ensures Wf(r)
  {
    Touch(s, k).(stats := s.stats.(hit := s.stats.hit + 1))
  }

  datatype Found = Missing | Mixed | Hit(id: nat)

  /** The direct `get`; `Mixed` is the exception for a key whose lookup is in flight. */
  function Get(s: State, k: Key, now: Time): (r: (State, Found))
    requires Wf(s)
    ensures Wf(r.0)
  {
    if k in s.nodes && !Expired(s.nodes[k], now) then
      if s.nodes[k].waiters.Some? then (Loaded(s), Mixed)
      else (Reused(Loaded(s), k), Hit(s.nodes[k].id))
    else
      var t := Vacate(Loaded(s), k);
      (t.(stats := t.stats.(miss := t.stats.miss + 1)), Missing)
  }

  datatype Future = Started(id: nat, promise: nat) | Shared(id: nat, promise: nat) | Ready(id: nat)

  /** The locked part of the getter form of `get`; `Started` means the caller now runs the getter. */
  function AsyncGet(s: State, k: Key, now: Time): (r: (State, Future))
    requires Wf(s)
    ensures Wf(r.0)
  {
    if k in s.nodes && !Expired(s.nodes[k], now) then
      if s.nodes[k].waiters.Some? then (Subscribed(Loaded(s), k), Shared(s.nodes[k].id, s.nextPromise))
      else (Reused(Loaded(s), k), Ready(s.nodes[k].id))
    else
      (Begin(Cleared(Loaded(s), k, now), k), Started(s.nextNode, s.nextPromise))
  }

  function Subscribed(s: State, k: Key): (r: State)
    requires Wf(s) && k in s.nodes && s.nodes[k].waiters.Some?
    ensures Wf(r)
  {
    var n := s.nodes[k];
    s.(nodes := s.nodes[k := n.(waiters := Some(n.waiters.value + [s.nextPromise]))],
       stats := s.stats.(share := s.stats.share + 1),
       nextPromise := s.nextPromise + 1)
  }

  function Begin(s: State, k: Key): (r: State)
    requires Wf(s) && k !in s.nodes
    ensures Wf(r)
  {
    Link(s, k, Node(s.nextNode, Empty, Some([s.nextPromise]), 0)).(
      stats := s.stats.(miss := s.stats.miss + 1),
      nextNode := s.nextNode + 1, nextPromise := s.nextPromise + 1)
  }

  /** The node a finished lookup becomes; errors live until `now`, the start of the lookup, plus the TTL. */
  function Finished(n: Node, result: Try, now: Time, ttl: Time): Node {
    n.(result := result, waiters := None, deadline := if result.Failure? then now + ttl else n.deadline)
  }

  /** The completion of a lookup, including the eviction of any excess. */
  function Complete(s: State, k: Key, result: Try, now: Time): (r: State)
    requires Wf(s) && k in s.lookup && !result.Empty?
    ensures Wf(r)
  {
    EvictExcess(Settle(s, k, result, now), now)
  }

  function Settle(s: State, k: Key, result: Try, now: Time): (r: State)
    requires Wf(s) && k in s.lookup && !result.Empty?
    ensures Wf(r) && r.nodes == s.nodes[k := Finished(s.nodes[k], result, now, s.errorTtl)]
  {
    assert (s.nodes - {k})[k := Finished(s.nodes[k], result, now, s.errorTtl)]
        == s.nodes[k := Finished(s.nodes[k], result, now, s.errorTtl)];
    Link(Drop(s, k), k, Finished(s.nodes[k], result, now, s.errorTtl)).(
      stats := s.stats.(store := s.stats.store + 1))
  }

  function Put(s: State, k: Key, v: Value, now: Time): (r: State)
    requires Wf(s)
    ensures Wf(r)
  {
    Stored(Cleared(s, k, now), k, v)
  }

  /** A new node with a value goes in the map. */
  function Stored(s: State, k: Key, v: Value): (r: State)
    requires Wf(s) && k !in s.nodes
    ensures Wf(r)
  {
    Link(s, k, Node(s.nextNode, Success(v), None, 0)).(
      stats := s.stats.(store := s.stats.store + 1), nextNode := s.nextNode + 1)
  }

  function Erase(s: State, k: Key): (r: State)
    requires Wf(s)
    ensures Wf(r)
  {
    if k in s.nodes then Drop(s, k).(stats := s.stats.(erase := s.stats.erase + 1)) else s
  }

  function Clear(s: State): (r: State)
    ensures Wf(r)
  {
    s.(nodes := map[], lookup := [], eviction := [], errored := [],
       stats := Stats(0, 0, 0, 0, 0, 0, 0, s.stats.clears + 1))
  }
}
