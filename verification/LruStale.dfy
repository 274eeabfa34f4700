/** What becomes of the cache when a key is erased, set or cleared while its lookup is in flight: the continuation
    still holds the node, and completes it. */
module LruStale {
  import opened LruCache
  import opened LruModel
  import opened LruRuns
  import opened Options
  import opened TailQ

  // ----- The step itself

  /** What set, erase and clear do to the cache, whether or not a key is in flight. */
  function Applied(w: World, op: Op): World
    requires Wf(w.s) && (op.DoPut? || op.DoErase? || op.DoClear?)
  {
    match op
    case DoPut(k, v, now) => Used(w.(s := Put(w.s, k, v, now)), k)
    case DoErase(k) => w.(s := Erase(w.s, k))
    case DoClear => w.(s := Clear(w.s), thrown := 0)
  }

  /** They keep the ledger if and only if no lookup in flight is hit. */
  lemma LedgerNeedsIdleKeys(w: World, op: Op)
    requires Ledger(w) && (op.DoPut? || op.DoErase? || op.DoClear?)
    ensures Ledger(Applied(w, op)) <==> Allowed(w, op)
  {
    hide Wf, InUseOrder, Put, Erase;
    if Allowed(w, op) {
      StepKeepsLedger(w, op);
    } else if op.DoClear? {
      assert w.s.lookup[0] in w.s.lookup;
    } else {
      NoLongerInFlight(w.s, op);
    }
  }

  lemma NoLongerInFlight(s: State, op: Op)
    requires Wf(s)
    ensures op.DoPut? ==> op.k !in Put(s, op.k, op.v, op.now).lookup
    ensures op.DoErase? ==> op.k !in Erase(s, op.k).lookup
  {}

  // ----- The completion after an erasure

  /** lookupOrder.remove(node), for a node whose place in that queue is still empty. */
  method RemoveLeft(c: Cache, node: CacheNode)
    requires c.Valid() && node !in c.Owned() && c.LeftGap(Lookup, node)
    modifies c.lookupOrder, c.Owned()`next, c.Owned()`addressOfPreviousNext
    ensures c.Valid() && c.lookupOrder.contents == old(c.lookupOrder.contents)
  {
    hide Wf, TailQHead.Valid, Threads, NodesIn;
    ghost var i :| 0 <= i <= |c.lookupOrder.contents| && c.lookupOrder.Gap(node, i);
    assert c.Linked(Lookup);
    c.lookupOrder.RemoveAgain(node, i);
    forall q: Queue ensures c.Linked(q) {
      assert old(c.Linked(q));
      if q != Lookup { c.Head(q).Untouched(); }
    }
  }

  /** A completed node that was in no queue enters one. */
  function Entered(s: State, k: Key, n: Node): (r: State)
    requires Wf(s) && k !in s.nodes && n.waiters.None?
    ensures Wf(r) && r.nodes == s.nodes[k := n] && r.maxItems == s.maxItems
    ensures r.eviction == if n.result.Success? then s.eviction + [k] else s.eviction
    ensures r.errored == if n.result.Success? then s.errored else s.errored + [k]
    ensures Balance(r) == Balance(s)
  {
    Link(s, k, n).(stats := s.stats.(store := s.stats.store + 1))
  }

  /** The same with the eviction of any excess. */
  function Returned(s: State, k: Key, n: Node, now: Time): (r: State)
    requires Wf(s) && k !in s.nodes && n.waiters.None?
    ensures Wf(r)
  {
    EvictPast(Entered(s, k, n), {k}, now)
  }

  /** The locked part of the completion, on a node that the map no longer holds and whose place in the lookup queue
      is still empty: neither abort is reached, and the node enters a queue although it is not in the map. The
      eviction that follows may take it out again. */
  method CompleteErased(c: Cache, node: CacheNode, result: Try, now: Time) returns (promises: seq<nat>)
    requires c.Ready() && node.key !in c.nodes && node.waiters.Some? && !result.Empty?
    requires c.LeftGap(Lookup, node)
    modifies c, c.Heads(), c.Owned(), node
    ensures promises == old(node.waiters.value) && c.Valid() && c.nodes == c.linked - {node.key}
    ensures ValueOf(node) == Finished(old(ValueOf(node)), result, now, c.errorTtl)
    ensures Within(c.linked, old(c.linked)[node.key := node])
    ensures Wf(old(c.model)) && node.key !in old(c.model).nodes
    ensures c.model == Returned(old(c.model), node.key, ValueOf(node), now)
  {
    hide Wf, Cache.Linked, Mirror, Cache.Scalars, Entered, EvictPast, NodesIn, Cache.LeftGap;
    c.NotOwned(node);
    promises := Uncouple(c, node, result, now);
    Enter(c, node);
    c.EvictOver(now, {node.key});
  }

  /** The completion up to the point where the node enters its new queue. */
  method Uncouple(c: Cache, node: CacheNode, result: Try, now: Time) returns (promises: seq<nat>)
    requires c.Valid() && node !in c.Owned() && node.waiters.Some? && c.LeftGap(Lookup, node)
    modifies c.lookupOrder, c.Owned()`next, c.Owned()`addressOfPreviousNext, node
    ensures c.Valid() && c.lookupOrder.contents == old(c.lookupOrder.contents)
    ensures promises == old(node.waiters.value)
    ensures ValueOf(node) == Finished(old(ValueOf(node)), result, now, c.errorTtl)
  {
    hide Wf, Cache.Valid, NodesIn, Cache.LeftGap;
    RemoveLeft(c, node);
    promises := c.ResolveUnlinked(node, result, now);
  }

  /** The completed node enters its queue and is counted. */
  method Enter(c: Cache, node: CacheNode)
    requires c.Valid() && node.key !in c.linked && node.waiters.None?
    modifies c`stats, c`model, c`linked, c.Heads(), c.Owned()`next, c.Owned()`addressOfPreviousNext
    modifies node`next, node`addressOfPreviousNext
    ensures c.Valid() && c.linked == old(c.linked)[node.key := node] && c.Owned() <= old(c.Owned()) + {node}
    ensures Wf(old(c.model)) && node.key !in old(c.model).nodes
    ensures c.model == Entered(old(c.model), node.key, ValueOf(node))
  {
    hide Wf, Cache.Linked, Mirror, Cache.Scalars, Link, NodesIn;
    c.InsertTail(node);
    c.StatsMirror();
    c.Count(c.stats.(store := c.stats.store + 1));
  }

  lemma {:induction false} PastTrims(s: State, strays: set<Key>, now: Time)
    requires Wf(s)
    ensures Trimmed(s, EvictPast(s, strays, now))
    decreases |s.nodes|
  {
    hide Wf;
    EvictOneTrims(s, now, map[], 0);
    if |s.nodes.Keys - strays| > s.maxItems && Victim(s, now, true).Some? {
      var t := EvictOne(s, now);
      PastTrims(t, strays, now);
      TrimmedTwice(s, t, EvictPast(t, strays, now));
    }
  }

  lemma EraseInFlight(s: State, k: Key)
    requires Wf(s) && k in s.lookup
    ensures var t := Erase(s, k);
            && k !in t.nodes && |t.nodes| == |s.nodes| - 1 && t.maxItems == s.maxItems
            && Balance(t) == Balance(s) + 1 && (Tight(s) ==> Tight(t))
  {}

  lemma ReturnKeepsBalance(s: State, k: Key, n: Node, now: Time)
    requires Wf(s) && k !in s.nodes && n.waiters.None?
    ensures Balance(Returned(s, k, n, now)) == Balance(s)
  {
    hide EvictPast, Entered, Wf;
    PastTrims(Entered(s, k, n), {k}, now);
  }

  // ----- When eviction comes to the stray

  predicate AllIn(q: seq<Key>, nodes: map<Key, Node>) { forall i :: 0 <= i < |q| ==> q[i] in nodes }

  /** How many errors at the head of the queue have expired. */
  function Expiring(nodes: map<Key, Node>, q: seq<Key>, now: Time): (p: nat)
    requires AllIn(q, nodes)
    ensures p <= |q|
  {
    if q == [] || !Expired(nodes[q[0]], now) then 0 else 1 + Expiring(nodes, q[1..], now)
  }

  lemma {:induction false} ExpiringElsewhere(nodes: map<Key, Node>, m: map<Key, Node>, q: seq<Key>, now: Time)
    requires AllIn(q, nodes) && AllIn(q, m) && forall i :: 0 <= i < |q| ==> m[q[i]] == nodes[q[i]]
    ensures Expiring(m, q, now) == Expiring(nodes, q, now)
  {
    if q != [] { ExpiringElsewhere(nodes, m, q[1..], now); }
  }

  lemma {:induction false} ExpiringAppended(nodes: map<Key, Node>, q: seq<Key>, k: Key, now: Time)
    requires AllIn(q + [k], nodes) && AllIn(q, nodes) && k in nodes
    ensures var p := Expiring(nodes, q, now);
            Expiring(nodes, q + [k], now) == if p == |q| && Expired(nodes[k], now) then p + 1 else p
  {
    assert (q + [k])[|q|] == k;
    if q != [] {
      assert (q + [k])[1..] == q[1..] + [k];
      if Expired(nodes[q[0]], now) { ExpiringAppended(nodes, q[1..], k, now); }
    }
  }

  predicate EndsWith(q: seq<Key>, k: Key) { q != [] && q[|q| - 1] == k }

  /** k is the last of its queue, and not in flight. */
  predicate Trails(s: State, k: Key) { EndsWith(s.eviction, k) || EndsWith(s.errored, k) }

  lemma TrailingKey(s: State, k: Key)
    requires Wf(s) && Trails(s, k)
    ensures AllIn(s.errored, s.nodes) && k in s.nodes && k !in s.lookup
    ensures EndsWith(s.eviction, k) <==> !EndsWith(s.errored, k)
  {
    assert EndsWith(s.eviction, k) ==> k in s.eviction;
    assert EndsWith(s.errored, k) ==> k in s.errored;
    ErrorsAreNodes(s);
  }

  lemma ErrorsAreNodes(s: State)
    requires Wf(s)
    ensures AllIn(s.errored, s.nodes)
  {
    forall i | 0 <= i < |s.errored| ensures s.errored[i] in s.nodes { assert s.errored[i] in s.errored; }
  }

  /** How many nodes eviction takes before it comes to k. */
  function Ahead(s: State, k: Key, now: Time): nat
    requires Wf(s) && Trails(s, k)
  {
    ErrorsAreNodes(s);
    var p := Expiring(s.nodes, s.errored, now);
    if EndsWith(s.eviction, k) then p + |s.eviction| - 1
    else if p == |s.errored| then p - 1
    else |s.errored| + |s.eviction| - 1
  }

  /** One eviction: it takes k if nothing is ahead of it, and otherwise one of those ahead. */
  lemma OneFewerAhead(s: State, k: Key, now: Time)
    requires Wf(s) && Trails(s, k)
    ensures var v := Victim(s, now, true);
            && v.Some? && (v.value == k <==> Ahead(s, k, now) == 0)
            && (v.value != k ==> Trails(EvictOne(s, now), k) && Ahead(EvictOne(s, now), k, now) == Ahead(s, k, now) - 1)
  {
    TrailingKey(s, k);
    var t := EvictOne(s, now);
    ErrorsAreNodes(t);
    if s.errored != [] && Expired(s.nodes[s.errored[0]], now) {
      ErrorGoes(s, t, now);
    } else if s.eviction != [] {
      ValueGoes(s, t, now);
    } else {
      ErrorGoes(s, t, now);
    }
  }

  lemma ErrorGoes(s: State, t: State, now: Time)
    requires Wf(s) && s.errored != [] && s.errored[0] in s.nodes && t == Evicted(s, s.errored[0])
    ensures t.errored == s.errored[1..] && t.eviction == s.eviction
    ensures AllIn(s.errored, s.nodes) && AllIn(t.errored, t.nodes)
    ensures Expiring(t.nodes, t.errored, now) == Expiring(s.nodes, s.errored[1..], now)
  {
    assert s.errored[0] in s.errored;
    ErrorsAreNodes(s);
    ErrorsAreNodes(t);
    ExpiringElsewhere(s.nodes, t.nodes, t.errored, now);
  }

  lemma ValueGoes(s: State, t: State, now: Time)
    requires Wf(s) && s.eviction != [] && s.eviction[0] in s.nodes && t == Evicted(s, s.eviction[0])
    ensures t.errored == s.errored && t.eviction == s.eviction[1..]
    ensures AllIn(s.errored, s.nodes) && AllIn(t.errored, t.nodes)
    ensures Expiring(t.nodes, t.errored, now) == Expiring(s.nodes, s.errored, now)
  {
    assert s.eviction[0] in s.eviction;
    ErrorsAreNodes(s);
    ErrorsAreNodes(t);
    ExpiringElsewhere(s.nodes, t.nodes, t.errored, now);
  }

  lemma {:induction false} TrailerStays(s: State, k: Key, now: Time)
    requires Wf(s) && Trails(s, k)
    ensures k in EvictPast(s, {k}, now).nodes <==> |s.nodes| - 1 <= s.maxItems + Ahead(s, k, now)
    decreases |s.nodes|
  {
    hide Wf, Ahead, Victim, Trails;
    TrailingKey(s, k);
    assert |s.nodes.Keys - {k}| == |s.nodes| - 1;
    if |s.nodes| - 1 > s.maxItems {
      OneFewerAhead(s, k, now);
      EvictOneTrims(s, now, map[], 0);
      if Victim(s, now, true).value == k {
        PastTrims(EvictOne(s, now), {k}, now);
      } else {
        TrailerStays(EvictOne(s, now), k, now);
      }
    }
  }

  /** How many of the nodes in the queues eviction takes before it comes to a node that enters one. */
  function Before(s: State, n: Node, now: Time): nat
    requires Wf(s)
  {
    ErrorsAreNodes(s);
    var p := Expiring(s.nodes, s.errored, now);
    if n.result.Success? then p + |s.eviction|
    else if p == |s.errored| && Expired(n, now) then p
    else |s.errored| + |s.eviction|
  }

  /** The same for the node of k, erased while in flight and completed. */
  function TakenFirst(s: State, k: Key, result: Try, now: Time): nat
    requires Wf(s) && k in s.nodes
  {
    Before(Erase(s, k), Finished(s.nodes[k], result, now, s.errorTtl), now)
  }

  lemma EntersBehind(s: State, k: Key, n: Node, now: Time)
    requires Wf(s) && k !in s.nodes && n.waiters.None?
    ensures Trails(Entered(s, k, n), k) && Ahead(Entered(s, k, n), k, now) == Before(s, n, now)
  {
    hide Entered;
    var t := Entered(s, k, n);
    ErrorsAreNodes(s);
    ErrorsAreNodes(t);
    TrailingKey(t, k);
    ExpiringElsewhere(s.nodes, t.nodes, s.errored, now);
    ExpiringAppended(t.nodes, s.errored, k, now);
  }

  /** The stray stays exactly if the excess is used up before eviction comes to it. */
  lemma StrayStays(s: State, k: Key, n: Node, now: Time)
    requires Wf(s) && k !in s.nodes && n.waiters.None?
    ensures k in Returned(s, k, n, now).nodes <==> |s.nodes| <= s.maxItems + Before(s, n, now)
    ensures Tight(s) && |s.nodes| > s.maxItems ==> Before(s, n, now) == 0
  {
    hide Wf, Entered, Ahead, Trails;
    EntersBehind(s, k, n, now);
    TrailerStays(Entered(s, k, n), k, now);
    NothingBefore(s, n, now);
  }

  lemma NothingBefore(s: State, n: Node, now: Time)
    requires Wf(s)
    ensures Tight(s) && |s.nodes| > s.maxItems ==> Before(s, n, now) == 0
  {
    if Tight(s) && |s.nodes| > s.maxItems { assert |s.eviction| == |s.errored| == 0; }
  }

  // ----- The theorem

  /** Erasing a key while its lookup is in flight, and the completion right after. In every state the books are wrong
      afterwards: either the node is queued but not in the map, or its eviction was counted although the map lost
      nothing. It stays queued exactly if the map after the erasure exceeds `maxItems` by no more than the nodes that
      eviction takes first; where only lookups in flight exceed `maxItems` there are none of those. */
  method EraseThenComplete(c: Cache, k: Key, result: Try, now: Time)
    requires c.Ready() && k in c.nodes && c.nodes[k].waiters.Some? && !result.Empty?
    modifies c, c.Heads(), c.Owned()
    ensures c.Valid() && k !in c.nodes && forall j :: j in c.nodes ==> c.nodes[j] != old(c.nodes[k])
    ensures Wf(old(c.model)) && k in old(c.model).nodes
    ensures var queued := old(c.nodes[k]) in c.Head(if result.Success? then Eviction else Errored).contents;
            && c.Ready() == !queued && Balance(c.model) == old(Balance(c.model)) + 1
            && (queued <==> old(|c.nodes|) - 1 <= c.maxItems + TakenFirst(old(c.model), k, result, now))
            && (old(Tight(c.model)) ==> (queued <==> old(|c.nodes|) - 1 <= c.maxItems))
  {
    hide Wf, Cache.Valid, Cache.LeftGap, Erase, Returned, NodesIn, Before, Tight, Balance;
    c.InLookup(k);
    InFlight(c, k);
    EraseInFlight(c.model, k);
    var node := c.nodes[k];
    var _ := c.Erase(k);
    ghost var s := c.model;
    var _ := CompleteErased(c, node, result, now);
    AfterReturn(c, node, s, now);
  }

  /** The cache after the completion of a node that was erased from the state s. */
  lemma AfterReturn(c: Cache, node: CacheNode, s: State, now: Time)
    requires c.Valid() && c.nodes == c.linked - {node.key} && node.waiters.None?
    requires node.key in c.linked ==> c.linked[node.key] == node
    requires Wf(s) && node.key !in s.nodes && c.model == Returned(s, node.key, ValueOf(node), now)
    ensures forall j :: j in c.nodes ==> c.nodes[j] != node
    ensures var queued := node in c.Head(if node.result.Success? then Eviction else Errored).contents;
            && c.Ready() == !queued && Balance(c.model) == Balance(s)
            && (queued <==> |s.nodes| <= s.maxItems + Before(s, ValueOf(node), now))
            && (Tight(s) ==> (queued <==> |s.nodes| <= s.maxItems))
  {
    hide Wf, Cache.Linked, Mirror, Cache.Scalars, Returned;
    NotMapped(c, node);
    ReturnKeepsBalance(s, node.key, ValueOf(node), now);
    StrayStays(s, node.key, ValueOf(node), now);
    Queued(c, node);
  }

  lemma NotMapped(c: Cache, node: CacheNode)
    requires c.Valid() && c.nodes == c.linked - {node.key}
    ensures forall j :: j in c.nodes ==> c.nodes[j] != node
  {
    hide Wf, Cache.Linked;
  }

  /** A completed node is in its queue exactly if it is linked under its key. */
  lemma Queued(c: Cache, node: CacheNode)
    requires c.Valid() && node.waiters.None?
    requires node.key in c.linked ==> c.linked[node.key] == node
    ensures node in c.Head(if node.result.Success? then Eviction else Errored).contents <==> node.key in c.model.nodes
    ensures node.key in c.linked <==> node.key in c.model.nodes
  {
    if node.key in c.linked {
      var _ := c.Position(node.key);
    } else {
      c.Unlisted(node, if node.result.Success? then Eviction else Errored);
    }
  }

  // ----- Another lookup in between

  /** The lookup of b starts between the erasure of a, the only other lookup, and its completion: b drops out of the
      lookup queue, which points nowhere while b still takes itself for its first node. */
  method ErasedLookupLosesAnother(c: Cache, a: Key, b: Key, now: Time)
    requires c.Ready() && c.model.lookup == [a] && b !in c.nodes
    modifies c, c.Heads(), c.Owned()
    ensures b in c.nodes && c.lookupOrder.contents == [c.nodes[b]]
    ensures c.lookupOrder.first == null && c.nodes[b].addressOfPreviousNext == FirstOf(c.lookupOrder)
    ensures !c.lookupOrder.Valid()
  {
    hide Cache.Ready, TailQHead.Valid;
    var node := EraseThenStart(c, a, b, now);
    LoneLookup(c, b);
    c.lookupOrder.RemoveStale(node);
  }

  method EraseThenStart(c: Cache, a: Key, b: Key, now: Time) returns (node: CacheNode)
    requires c.Ready() && c.model.lookup == [a] && b !in c.nodes
    modifies c, c.Heads(), c.Owned()
    ensures c.Ready() && c.model.lookup == [b] && node !in c.Owned() && fresh(c.Owned() - old(c.Owned()))
    ensures node.next == null && node.addressOfPreviousNext == FirstOf(c.lookupOrder)
  {
    hide Wf, Cache.Linked, Cache.Mirrors, Cache.Scalars, Erase, AsyncGet;
    c.Facts(b);
    node := EraseLone(c, a);
    c.Facts(b);
    StartsLookup(c.model, b, now);
    var _ := c.AsyncGet(b, now);
  }

  method EraseLone(c: Cache, a: Key) returns (node: CacheNode)
    requires c.Ready() && c.model.lookup == [a]
    modifies c, c.Heads(), c.Owned()
    ensures c.Ready() && c.model.lookup == [] && c.nodes == old(c.nodes) - {a}
    ensures c.Owned() <= old(c.Owned()) && node in old(c.Owned()) && node !in c.Owned()
    ensures node.next == null && node.addressOfPreviousNext == FirstOf(c.lookupOrder)
  {
    hide Wf, Cache.Linked, Cache.Mirrors, Cache.Scalars;
    LoneLookup(c, a);
    node := c.nodes[a];
    EraseEmptiesLookup(c.model, a);
    KeysTell(c, a);
    var _ := c.Erase(a);
    QueueIsEmpty(c, Lookup);
  }

  // ----- The completion after a set

  /** The completion of a node that `set` has replaced in the map, while the map is within `maxItems`, so that the
      loop at its end evicts nothing: two queued nodes have one key. */
  method CompleteReplaced(c: Cache, node: CacheNode, result: Try, now: Time) returns (promises: seq<nat>)
    requires c.Ready() && node !in c.Owned() && node.waiters.Some? && !result.Empty?
    requires c.LeftGap(Lookup, node) && |c.nodes| <= c.maxItems
    modifies c`stats, c.Heads(), c.Owned()`next, c.Owned()`addressOfPreviousNext, node
    ensures promises == old(node.waiters.value) && c.nodes == old(c.nodes)
    ensures ValueOf(node) == Finished(old(ValueOf(node)), result, now, c.errorTtl)
    ensures var q := if result.Success? then Eviction else Errored;
            && c.Head(q).Valid() && c.Head(q).contents == old(c.Head(q).contents) + [node]
            && forall b: Queue :: b != q ==> c.Head(b) != c.Head(q) && c.Head(b).contents == old(c.Head(b).contents)
  {
    hide Wf, TailQHead.Valid, Threads, Cache.LeftGap, Mirror;
    promises := Uncouple(c, node, result, now);
    QueueBounds(c, if result.Success? then Eviction else Errored);
    c.stats := c.stats.(store := c.stats.store + 1);
    c.Head(WhichQ(ValueOf(node))).InsertTail(node);
  }

  lemma QueueBounds(c: Cache, q: Queue)
    requires c.Valid()
    ensures c.Head(q).Valid() && forall n :: n in c.Head(q).contents ==> n in c.Owned()
    ensures forall b: Queue :: b != q ==> c.Head(b) != c.Head(q)
  {
    assert c.Linked(q);
  }

  /** Setting a key while its lookup is in flight, the failure of that lookup, and the first eviction once the error
      has expired, with no other error cached: the eviction of the stale node takes the new one out of the map, where
      it stays in the successful queue. */
  method SetThenFail(c: Cache, k: Key, v: Value, setAt: Time, now: Time, later: Time) returns (node: CacheNode)
    requires c.Ready() && k in c.model.lookup && c.model.errored == [] && |c.nodes| <= c.maxItems
    requires later >= now + c.errorTtl
    modifies c, c.Heads(), c.Owned()
    ensures node.key == k && node.result == Success(v) && node in c.evictionOrder.contents
    ensures k !in c.nodes && forall j :: j in c.nodes ==> c.nodes[j] != node
  {
    hide Wf, Cache.Valid, Cache.LeftGap, TailQHead.Valid, NodesIn;
    var stale;
    stale, node := SetInFlight(c, k, v, setAt);
    var _ := CompleteReplaced(c, stale, Failure, now);
    assert c.Head(Eviction) != c.Head(Errored);
    EvictStale(c, stale, later);
  }

  method SetInFlight(c: Cache, k: Key, v: Value, now: Time) returns (stale: CacheNode, node: CacheNode)
    requires c.Ready() && k in c.model.lookup && c.model.errored == [] && |c.nodes| <= c.maxItems
    modifies c, c.Heads(), c.Owned()
    ensures c.Ready() && k in c.nodes && c.nodes[k] == node && node in c.Owned() && |c.nodes| <= c.maxItems
    ensures forall j :: j in c.nodes && c.nodes[j] == node ==> j == k
    ensures node.key == k && node.result == Success(v) && node in c.evictionOrder.contents
    ensures c.erroredOrder.contents == [] && fresh(c.Owned() - old(c.Owned()))
    ensures stale in old(c.Owned()) && stale.key == k && stale.waiters.Some? && stale !in c.Owned()
    ensures c.LeftGap(Lookup, stale)
  {
    hide Wf, Cache.Valid, Cache.LeftGap, Put, TailQHead.Valid;
    InFlight(c, k);
    PutInFlight(c.model, k, v, now);
    stale := c.nodes[k];
    node := c.Set(k, v, now);
    IsSet(c, k, v);
  }

  lemma InFlight(c: Cache, k: Key)
    requires c.Ready() && k in c.model.lookup
    ensures Wf(c.model) && |c.model.nodes| == |c.nodes|
    ensures c.model.maxItems == c.maxItems && c.model.errorTtl == c.errorTtl
    ensures k in c.model.nodes && k in c.nodes && ValueOf(c.nodes[k]) == c.model.nodes[k]
    ensures k in c.nodes && c.nodes[k] in c.Owned() && c.nodes[k].key == k && c.nodes[k].waiters.Some?
  {
    c.InLookupOnly(k);
    c.Facts(k);
    c.SameSize({});
    assert c.model.nodes.Keys - {} == c.model.nodes.Keys;
  }

  lemma IsSet(c: Cache, k: Key, v: Value)
    requires c.Ready() && k in c.nodes && k in c.model.nodes && c.model.errored == []
    requires c.model.nodes[k].result == Success(v) && c.model.nodes[k].waiters.None?
    requires |c.model.nodes| <= c.model.maxItems
    ensures c.nodes[k].key == k && c.nodes[k].result == Success(v) && c.nodes[k] in c.evictionOrder.contents
    ensures c.nodes[k] in c.Owned() && c.erroredOrder.contents == [] && |c.nodes| <= c.maxItems
    ensures forall j :: j in c.nodes && c.nodes[j] == c.nodes[k] ==> j == k
  {
    hide Wf, Cache.Linked, TailQHead.Valid;
    c.Facts(k);
    c.SameSize({});
    assert c.model.nodes.Keys - {} == c.model.nodes.Keys;
    Queued(c, c.nodes[k]);
    QueueIsEmpty(c, Errored);
    KeysTell(c, k);
  }

  lemma PutInFlight(s: State, k: Key, v: Value, now: Time)
    requires Wf(s) && k in s.lookup && s.errored == [] && |s.nodes| <= s.maxItems
    ensures var t := Put(s, k, v, now);
            && t.errored == [] && |t.nodes| <= t.maxItems
            && k in t.nodes && t.nodes[k].result == Success(v) && t.nodes[k].waiters.None?
  {}

  lemma QueueIsEmpty(c: Cache, q: Queue)
    requires c.Valid() && QueueOf(c.model, q) == []
    ensures c.Head(q).contents == []
  {
    assert c.Linked(q);
  }

  /** evictOne, when the first error is `stale` and has expired. */
  method EvictStale(c: Cache, stale: CacheNode, now: Time)
    requires c.erroredOrder.Valid() && c.erroredOrder.contents == [stale] && c.Expires(stale, now)
    modifies c`nodes, c`stats, c.erroredOrder, stale`next, stale`addressOfPreviousNext
    ensures c.nodes == old(c.nodes) - {stale.key} && c.stats == old(c.stats).(evict := old(c.stats).evict + 1)
  {
    var errorNode := c.erroredOrder.first;
    assert errorNode == c.erroredOrder.contents[0] == stale;
    c.erroredOrder.MembersAreLinked(0);
    c.erroredOrder.Remove(errorNode, 0);
    c.nodes := c.nodes - {errorNode.key};
    c.stats := c.stats.(evict := c.stats.evict + 1);
  }

  // ----- The completion after a clear

  /** Clearing the cache with lookups in flight, and the completion of the one at position i: a queued node that is
      not in the map, which is empty, so that no eviction follows; and a sound lookup queue exactly if that lookup was
      the only one or neither the first nor the last. */
  method ClearThenComplete(c: Cache, k: Key, ghost i: nat, result: Try, now: Time) returns (node: CacheNode)
    requires c.Ready() && i < |c.model.lookup| && c.model.lookup[i] == k && !result.Empty?
    modifies c, c.Heads(), c.Owned()
    ensures var q := if result.Success? then Eviction else Errored; c.Head(q).contents == [node]
    ensures c.nodes == map[] && node in old(c.Owned())
    ensures c.lookupOrder.contents == []
    ensures c.lookupOrder.Valid() <==> old(|c.model.lookup|) == 1 || 0 < i < old(|c.model.lookup|) - 1
  {
    hide Wf, Cache.Valid, TailQHead.Valid;
    InFlightAt(c, i);
    node := c.nodes[k];
    c.Clear();
    AllEmpty(c);
    c.lookupOrder.RemoveCleared(node, i, old(c.lookupOrder.contents));
    var _ := c.Resolve(node, result, now);
    c.Head(WhichQ(ValueOf(node))).InsertTail(node);
    c.stats := c.stats.(store := c.stats.store + 1);
  }

  lemma AllEmpty(c: Cache)
    requires c.Valid() && forall q: Queue :: QueueOf(c.model, q) == []
    ensures c.lookupOrder.Valid() && c.lookupOrder.contents == []
    ensures forall q: Queue :: c.Head(q).Valid() && c.Head(q).contents == []
    ensures forall q: Queue :: q != Lookup ==> c.Head(q) != c.lookupOrder
  {
    hide Wf, TailQHead.Valid;
    forall q: Queue ensures c.Head(q).Valid() && c.Head(q).contents == [] {
      QueueBounds(c, q);
      QueueIsEmpty(c, q);
    }
    assert c.Head(Lookup) == c.lookupOrder;
  }

  lemma InFlightAt(c: Cache, i: nat)
    requires c.Ready() && i < |c.model.lookup|
    ensures var k := c.model.lookup[i];
            && k in c.nodes && c.nodes[k] in c.Owned() && c.nodes[k].waiters.Some?
            && NoDup(c.lookupOrder.contents) && |c.lookupOrder.contents| == |c.model.lookup|
            && c.lookupOrder.contents[i] == c.nodes[k]
            && c.nodes[k].next == c.lookupOrder.At(c.lookupOrder.contents, i + 1)
            && c.nodes[k].addressOfPreviousNext == c.lookupOrder.Before(c.lookupOrder.contents, i)
    ensures forall n :: n in c.lookupOrder.contents ==> n in c.Owned()
  {
    assert c.model.lookup[i] in c.model.lookup;
    assert c.Linked(Lookup);
    c.Facts(c.model.lookup[i]);
  }

  /** A node is in the map under one key only. */
  lemma KeysTell(c: Cache, a: Key)
    requires c.Ready() && a in c.nodes
    ensures forall j :: j in c.nodes && c.nodes[j] == c.nodes[a] ==> j == a
  {
    hide Wf, Cache.Linked;
  }

  lemma LoneLookup(c: Cache, k: Key)
    requires c.Ready() && c.model.lookup == [k]
    ensures k in c.nodes && k in c.model.nodes && c.nodes[k].waiters.Some? && WhichQ(c.model.nodes[k]) == Lookup
    ensures c.nodes[k] in c.Owned()
    ensures c.lookupOrder.Valid() && c.lookupOrder.contents == [c.nodes[k]]
    ensures c.nodes[k].addressOfPreviousNext == FirstOf(c.lookupOrder)
  {
    c.Facts(k);
    assert k in c.model.lookup;
    assert c.Linked(Lookup);
    assert c.lookupOrder.contents[0] == c.nodes[k];
  }

  lemma EraseEmptiesLookup(s: State, a: Key)
    requires Wf(s) && s.lookup == [a]
    ensures Erase(s, a).lookup == [] && a in s.nodes
  {
    assert a in s.lookup;
  }

  lemma StartsLookup(s: State, b: Key, now: Time)
    requires Wf(s) && s.lookup == [] && b !in s.nodes
    ensures AsyncGet(s, b, now).0.lookup == [b]
  {
    hide Wf;
    ClearedTrims(Loaded(s), b, now, map[], 0);
    BeginEffect(Cleared(Loaded(s), b, now), b);
  }
}
