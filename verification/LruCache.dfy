/** The cache of LRUCache.h: a map of nodes threaded on three tail queues, updated in place. */
module LruCache {
  import opened LruModel
  import opened Options
  import opened TailQ

  function ValueOf(n: CacheNode): Node
    reads n`result, n`waiters, n`deadline
  {
    Node(n.id, n.result, n.waiters, n.deadline)
  }

  ghost predicate Threads(contents: seq<CacheNode>, keys: seq<Key>, nodes: map<Key, CacheNode>) {
    && |contents| == |keys|
    && forall i :: 0 <= i < |keys| ==> keys[i] in nodes && contents[i] == nodes[keys[i]]
  }

  lemma ThreadsWithout(contents: seq<CacheNode>, keys: seq<Key>, nodes: map<Key, CacheNode>, i: nat)
    requires Threads(contents, keys, nodes) && NoDup(keys) && i < |keys|
    ensures Threads(contents[..i] + contents[i + 1..], Without(keys, keys[i]), nodes)
  {
    WithoutAt(keys, i);
  }

  lemma ThreadsElsewhere(contents: seq<CacheNode>, keys: seq<Key>, nodes: map<Key, CacheNode>, k: Key, n: CacheNode)
    requires Threads(contents, keys, nodes) && k !in keys
    ensures Threads(contents, keys, nodes - {k}) && Threads(contents, keys, nodes[k := n])
  {
    assert forall i :: 0 <= i < |keys| ==> keys[i] in keys;
  }

  ghost function NodesIn(nodes: map<Key, CacheNode>): set<CacheNode> {
    set k | k in nodes :: nodes[k]
  }

  lemma NodesWith(nodes: map<Key, CacheNode>, k: Key, n: CacheNode)
    ensures NodesIn(nodes[k := n]) <= NodesIn(nodes) + {n} && NodesIn(nodes - {k}) <= NodesIn(nodes)
  {}

  lemma ThreadedNodes(contents: seq<CacheNode>, keys: seq<Key>, nodes: map<Key, CacheNode>)
    requires Threads(contents, keys, nodes)
    ensures forall n :: n in contents ==> n in NodesIn(nodes)
  {}

  ghost predicate Within(part: map<Key, CacheNode>, whole: map<Key, CacheNode>) {
    forall k :: k in part ==> k in whole && part[k] == whole[k]
  }

  ghost predicate Mirror(nodes: map<Key, CacheNode>, values: map<Key, Node>)
    reads NodesIn(nodes)`result, NodesIn(nodes)`waiters, NodesIn(nodes)`deadline
  {
    && values.Keys == nodes.Keys
    && forall k :: k in nodes ==> nodes[k].key == k && ValueOf(nodes[k]) == values[k]
  }

  lemma MirrorWith(nodes: map<Key, CacheNode>, values: map<Key, Node>, node: CacheNode)
    requires Mirror(nodes, values)
    ensures Mirror(nodes[node.key := node], values[node.key := ValueOf(node)])
    ensures Mirror(nodes - {node.key}, values - {node.key})
  {}

  class Cache {
    const maxItems: nat
    const errorTtl: Time
    const lookupOrder: TailQHead
    const evictionOrder: TailQHead
    const erroredOrder: TailQHead
    var nodes: map<Key, CacheNode>
    var stats: Stats
    var nextNode: nat
    var nextPromise: nat
    /** The nodes that are in a queue, by key. Between operations they are those of the map, unless a node was taken
        out of the map while its lookup was in flight. */
    ghost var linked: map<Key, CacheNode>
    /** What the queues, the nodes in them and the counters mean. */
    ghost var model: State

    function Head(q: Queue): TailQHead {
      match q
      case Lookup => lookupOrder
      case Eviction => evictionOrder
      case Errored => erroredOrder
    }

    ghost function Heads(): set<TailQHead> { {lookupOrder, evictionOrder, erroredOrder} }

    ghost function Owned(): set<CacheNode>
      reads this`linked
    {
      NodesIn(linked)
    }

    /** Queue q threads exactly the nodes of the keys the model lists, in that order. */
    ghost predicate Threaded(q: Queue)
      reads this`linked, this`model, Head(q)
    {
      Threads(Head(q).contents, QueueOf(model, q), linked)
    }

    ghost predicate Linked(q: Queue)
      reads this`linked, this`model, Head(q), Owned()
    {
      && Threaded(q)
      && (forall n :: n in Head(q).contents ==> n in Owned())
      && Head(q).Valid()
    }

    /** The linked nodes hold the values the model gives their keys. */
    ghost predicate Mirrors()
      reads this`linked, this`model, Owned()`result, Owned()`waiters, Owned()`deadline
    {
      Mirror(linked, model.nodes)
    }

    ghost predicate Scalars()
      reads this`model, this`stats, this`nextNode, this`nextPromise
    {
      && model.maxItems == maxItems && model.errorTtl == errorTtl
      && model.stats == stats && model.nextNode == nextNode && model.nextPromise == nextPromise
    }

    ghost predicate Valid()
      reads this`linked, this`model, this`stats, this`nextNode, this`nextPromise, Heads(), Owned()
    {
      && lookupOrder != evictionOrder && evictionOrder != erroredOrder && erroredOrder != lookupOrder
      && Wf(model) && Scalars() && Mirrors()
      && Linked(Lookup) && Linked(Eviction) && Linked(Errored)
    }

    constructor (maxItems: nat, errorTtl: Time)
      ensures Ready() && model == Initial(maxItems, errorTtl)
      ensures fresh(Heads())
    {
      hide Wf, TailQHead.Valid, Linked, Mirrors;
      this.maxItems, this.errorTtl := maxItems, errorTtl;
      lookupOrder := new TailQHead();
      evictionOrder := new TailQHead();
      erroredOrder := new TailQHead();
      nodes := map[];
      stats := Stats(0, 0, 0, 0, 0, 0, 0, 0);
      nextNode, nextPromise := 0, 0;
      linked, model := map[], Initial(maxItems, errorTtl);
      new;
      EmptyIsLinked();
    }

    lemma EmptyIsLinked()
      requires linked == map[] && model.nodes == map[]
      requires forall q: Queue :: Head(q).Valid() && Head(q).contents == [] && QueueOf(model, q) == []
      ensures Mirrors() && forall q: Queue :: Linked(q)
    {}

    /** The position of a linked node in its queue. */
    lemma Position(k: Key) returns (i: nat)
      requires Valid() && k in linked
      ensures k in model.nodes
      ensures var q := WhichQ(model.nodes[k]);
              && i < |Head(q).contents| == |QueueOf(model, q)|
              && Head(q).contents[i] == linked[k] && QueueOf(model, q)[i] == k
    {
      var q := WhichQ(model.nodes[k]);
      assert k in QueueOf(model, q);
      i :| 0 <= i < |QueueOf(model, q)| && QueueOf(model, q)[i] == k;
      assert Linked(q);
    }

    lemma KeyListed(q: Queue, n: CacheNode)
      requires Valid() && n in Head(q).contents
      ensures n.key in QueueOf(model, q) && n.key in linked && linked[n.key] == n
    {
      assert Linked(q);
      var i :| 0 <= i < |Head(q).contents| && Head(q).contents[i] == n;
      assert QueueOf(model, q)[i] == n.key;
    }

    /** Different queues share no node. */
    lemma Apart(a: Queue, b: Queue, n: CacheNode)
      requires Valid() && a != b && n in Head(a).contents
      ensures n !in Head(b).contents && Head(a) != Head(b)
    {
      KeyListed(a, n);
      if n in Head(b).contents {
        KeyListed(b, n);
        assert false;
      }
    }

    /** The pointer work of removing a node, which is at position i of its queue. */
    method RemoveNode(node: CacheNode) returns (ghost i: nat)
      requires Valid() && node.key in linked && linked[node.key] == node && node.key in model.nodes
      modifies Heads(), Owned()`next, Owned()`addressOfPreviousNext
      ensures var q := WhichQ(model.nodes[node.key]);
              && i < |QueueOf(model, q)| == |old(Head(q).contents)| && QueueOf(model, q)[i] == node.key
              && Head(q).contents == old(Head(q).contents)[..i] + old(Head(q).contents)[i + 1..]
      ensures forall q: Queue :: Head(q).Valid()
      ensures forall q: Queue :: q != WhichQ(model.nodes[node.key]) ==> Head(q).contents == old(Head(q).contents)
      ensures Head(WhichQ(model.nodes[node.key])).Gap(node, i)
    {
      hide Wf, TailQHead.Valid, Threads;
      var kind := WhichQ(ValueOf(node));
      i := Position(node.key);
      Head(kind).MembersAreLinked(i);
      forall b: Queue, n | b != kind && n in Head(kind).contents ensures n !in Head(b).contents { Apart(kind, b, n); }
      Head(kind).Remove(node, i);
      forall b: Queue | b != kind ensures Head(b).contents == old(Head(b).contents) && Head(b).Valid() {
        assert old(Linked(b)) && Head(b) != Head(kind);
        assert forall j :: 0 <= j < |Head(b).contents| ==> Head(b).contents[j] !in old(Head(kind).contents);
        Head(b).Untouched();
      }
    }

    /** whichQ(node)->remove(node), for a node that is in its queue */
    method Unlink(node: CacheNode)
      requires Valid() && node.key in linked && linked[node.key] == node && node.key in model.nodes
      modifies this`model, this`linked, Heads(), Owned()`next, Owned()`addressOfPreviousNext
      ensures Valid() && linked == old(linked) - {node.key} && node !in Owned() && Owned() <= old(Owned())
      ensures Wf(old(model)) && model == Drop(old(model), node.key)
      ensures LeftGap(WhichQ(old(model).nodes[node.key]), node)
      ensures WhichQ(old(model).nodes[node.key]) != Lookup ==> lookupOrder.contents == old(lookupOrder.contents)
    {
      hide Wf, Drop, TailQHead.Valid, Threads, NodesIn, LeftGap, Linked, Mirror;
      RemoveThreads(node);
      MirrorWith(linked, model.nodes, node);
      linked, model := linked - {node.key}, Drop(model, node.key);
      AllLinked();
      NodesWith(old(linked), node.key, node);
      NotOwned(node);
    }

    /** A node whose key has no linked node is not linked. */
    lemma NotOwned(node: CacheNode)
      requires node.key !in linked && Mirrors()
      ensures node !in Owned()
    {}

    /** The node's own links are still those of its old place in the queue, and nothing was put there since. */
    ghost predicate LeftGap(q: Queue, node: CacheNode)
      reads Head(q), node`next, node`addressOfPreviousNext
    {
      exists i :: 0 <= i <= |Head(q).contents| && Head(q).Gap(node, i)
    }

    method RemoveThreads(node: CacheNode)
      requires Valid() && node.key in linked && linked[node.key] == node && node.key in model.nodes
      modifies Heads(), Owned()`next, Owned()`addressOfPreviousNext
      ensures forall q: Queue ::
                && Head(q).Valid()
                && Threads(Head(q).contents, QueueOf(Drop(model, node.key), q), linked - {node.key})
      ensures LeftGap(WhichQ(model.nodes[node.key]), node) && Mirrors()
      ensures WhichQ(model.nodes[node.key]) != Lookup ==> lookupOrder.contents == old(lookupOrder.contents)
    {
      hide Wf, Drop, TailQHead.Valid, Threads, NodesIn;
      ghost var i := RemoveNode(node);
      forall q: Queue ensures Threads(Head(q).contents, QueueOf(Drop(model, node.key), q), linked - {node.key}) {
        assert old(Linked(q));
        DropThreads(node.key, q, i, old(Head(q).contents));
      }
    }

    lemma AllLinked()
      requires forall q: Queue :: Threaded(q) && Head(q).Valid()
      ensures forall q: Queue :: Linked(q)
    {
      hide TailQHead.Valid;
      forall q: Queue ensures Linked(q) { ThreadedNodes(Head(q).contents, QueueOf(model, q), linked); }
    }

    /** How one queue's threading changes when k, at position i of its queue, is dropped. */
    lemma DropThreads(k: Key, q: Queue, i: nat, contents: seq<CacheNode>)
      requires Wf(model) && k in linked && k in model.nodes && Threads(contents, QueueOf(model, q), linked)
      requires q == WhichQ(model.nodes[k]) ==> i < |QueueOf(model, q)| && QueueOf(model, q)[i] == k
      ensures Threads(if q == WhichQ(model.nodes[k]) then contents[..i] + contents[i + 1..] else contents,
                      QueueOf(Drop(model, k), q), linked - {k})
    {
      var left := if q == WhichQ(model.nodes[k]) then contents[..i] + contents[i + 1..] else contents;
      if q == WhichQ(model.nodes[k]) { ThreadsWithout(contents, QueueOf(model, q), linked, i); }
      hide Threads;
      NotQueued(Drop(model, k), k, q);
      ThreadsElsewhere(left, QueueOf(Drop(model, k), q), linked, k, linked[k]);
    }

    lemma NotQueued(s: State, k: Key, q: Queue)
      requires Wf(s) && k !in s.nodes
      ensures k !in QueueOf(s, q)
    {}

    /** The pointer work of appending a node that is in no queue. */
    method AppendNode(node: CacheNode)
      requires Valid() && node.key !in linked
      modifies Heads(), Owned()`next, Owned()`addressOfPreviousNext, node`next, node`addressOfPreviousNext
      ensures forall q: Queue :: Head(q).Valid()
      ensures forall q: Queue :: Head(q).contents ==
                if q == WhichQ(ValueOf(node)) then old(Head(q).contents) + [node] else old(Head(q).contents)
    {
      hide Wf, TailQHead.Valid, Threads;
      var kind := WhichQ(ValueOf(node));
      forall b: Queue, n | b != kind && n in Head(kind).contents ensures n !in Head(b).contents { Apart(kind, b, n); }
      forall q: Queue ensures node !in Head(q).contents { Unlisted(node, q); }
      Head(kind).InsertTail(node);
      forall b: Queue | b != kind ensures Head(b).contents == old(Head(b).contents) && Head(b).Valid() {
        assert old(Linked(b)) && Head(b) != Head(kind);
        assert forall j :: 0 <= j < |Head(b).contents| ==>
                 Head(b).contents[j] !in old(Head(kind).contents) && Head(b).contents[j] in Head(b).contents;
        Head(b).Untouched();
      }
    }

    /** whichQ(node)->insertTail(node), for a node that is in no queue */
    method InsertTail(node: CacheNode)
      requires Valid() && node.key !in linked && (node.waiters.Some? ==> node.result == Empty)
      modifies this`model, this`linked, Heads(), Owned()`next, Owned()`addressOfPreviousNext
      modifies node`next, node`addressOfPreviousNext
      ensures Valid() && linked == old(linked)[node.key := node] && Owned() <= old(Owned()) + {node}
      ensures Wf(old(model)) && node.key !in old(model).nodes
      ensures model == Link(old(model), node.key, ValueOf(node))
      ensures WhichQ(ValueOf(node)) != Lookup ==> lookupOrder.contents == old(lookupOrder.contents)
    {
      hide Wf, Link, TailQHead.Valid, Threads, NodesIn, Linked, Mirror;
      AppendThreads(node);
      NodesWith(linked, node.key, node);
      MirrorWith(linked, model.nodes, node);
      linked, model := linked[node.key := node], Link(model, node.key, ValueOf(node));
      AllLinked();
    }

    method AppendThreads(node: CacheNode)
      requires Valid() && node.key !in linked && (node.waiters.Some? ==> node.result == Empty)
      modifies Heads(), Owned()`next, Owned()`addressOfPreviousNext, node`next, node`addressOfPreviousNext
      ensures node.key !in model.nodes && Mirrors()
      ensures forall q: Queue ::
                && Head(q).Valid()
                && Threads(Head(q).contents, QueueOf(Link(model, node.key, ValueOf(node)), q), linked[node.key := node])
      ensures WhichQ(ValueOf(node)) != Lookup ==> lookupOrder.contents == old(lookupOrder.contents)
    {
      hide Wf, Link, TailQHead.Valid, Threads, NodesIn;
      AppendNode(node);
      forall q: Queue
        ensures Threads(Head(q).contents, QueueOf(Link(model, node.key, ValueOf(node)), q), linked[node.key := node])
      {
        assert old(Linked(q));
        LinkThreads(node, q, old(Head(q).contents));
      }
    }

    lemma Unlisted(node: CacheNode, q: Queue)
      requires Valid() && node.key !in linked
      ensures node !in Head(q).contents
    {
      if node in Head(q).contents {
        KeyListed(q, node);
        assert false;
      }
    }

    lemma LinkThreads(node: CacheNode, q: Queue, contents: seq<CacheNode>)
      requires Wf(model) && node.key !in model.nodes && Threads(contents, QueueOf(model, q), linked)
      requires node.waiters.Some? ==> node.result == Empty
      ensures Threads(if q == WhichQ(ValueOf(node)) then contents + [node] else contents,
                      QueueOf(Link(model, node.key, ValueOf(node)), q), linked[node.key := node])
    {
      NotQueued(model, node.key, q);
      ThreadsElsewhere(contents, QueueOf(model, q), linked, node.key, node);
    }

    method Count(st: Stats)
      requires Valid()
      modifies this`stats, this`model
      ensures Valid() && model == old(model).(stats := st) && stats == st
    {
      hide Wf, TailQHead.Valid, Threads;
      StatsKeepWf(model, st);
      stats, model := st, model.(stats := st);
      assert forall q: Queue :: old(Linked(q)) ==> Linked(q);
    }

    lemma StatsKeepWf(s: State, st: Stats)
      requires Wf(s)
      ensures Wf(s.(stats := st))
    {}

    // ----- The public operations and their helpers

    lemma Facts(k: Key)
      requires Ready()
      ensures k in nodes <==> k in model.nodes
      ensures k in nodes ==> nodes[k].key == k && ValueOf(nodes[k]) == model.nodes[k] && nodes[k] in Owned()
      ensures model.stats == stats && model.nextNode == nextNode && model.nextPromise == nextPromise
      ensures model.maxItems == maxItems && model.errorTtl == errorTtl
    {}

    /** The nodes in the queues are those of the map. */
    ghost predicate Ready()
      reads this, Heads(), Owned()
    {
      Valid() && linked == nodes
    }

    /** Out of its queue, and whatever the map holds under its key out of the map. */
    method Discard(node: CacheNode)
      requires Valid() && node.key in linked && linked[node.key] == node
      modifies this`nodes, this`model, this`linked, Heads(), Owned()`next, Owned()`addressOfPreviousNext
      ensures Valid() && nodes == old(nodes) - {node.key} && linked == old(linked) - {node.key}
      ensures Owned() <= old(Owned()) && node !in Owned()
      ensures Wf(old(model)) && node.key in old(model).nodes && model == Drop(old(model), node.key)
      ensures LeftGap(WhichQ(old(model).nodes[node.key]), node)
      ensures WhichQ(old(model).nodes[node.key]) != Lookup ==> lookupOrder.contents == old(lookupOrder.contents)
    {
      hide Wf, Drop, Linked;
      Unlink(node);
      nodes := nodes - {node.key};
    }

    lemma HeadNode(q: Queue)
      requires Valid()
      ensures QueueOf(model, q) == [] ==> Head(q).first == null
      ensures QueueOf(model, q) != [] ==>
                var k := QueueOf(model, q)[0];
                && k in linked && k in model.nodes && Head(q).first == linked[k]
                && linked[k].key == k && ValueOf(linked[k]) == model.nodes[k]
    {
      assert Linked(q);
      assert QueueOf(model, q) != [] ==> QueueOf(model, q)[0] in QueueOf(model, q);
    }

    predicate Expires(n: CacheNode, now: Time)
      reads n
    {
      n.result.Failure? && now >= n.deadline
    }

    method EvictOne(now: Time, forceRemoval: bool) returns (ok: bool)
      requires Valid()
      modifies this, Heads(), Owned()`next, Owned()`addressOfPreviousNext
      ensures Valid() && Owned() <= old(Owned())
      ensures Wf(old(model))
      ensures var v := Victim(old(model), now, forceRemoval); var gone := if v.Some? then {v.value} else {};
              && ok == v.Some? && model == (if ok then Evicted(old(model), v.value) else old(model))
              && nodes == old(nodes) - gone && linked == old(linked) - gone
      ensures lookupOrder.contents == old(lookupOrder.contents)
    {
      hide Wf, Drop, Linked, Mirrors, Scalars;
      HeadNode(Errored);
      HeadNode(Eviction);
      HeadsAreIdle(model);
      var errorNode := erroredOrder.first;
      var node := evictionOrder.first;
      ok := true;
      if errorNode != null && Expires(errorNode, now) {
        Discard(errorNode);
      } else if node != null {
        Discard(node);
      } else if forceRemoval && errorNode != null {
        Discard(errorNode);
      } else {
        ok := false;
        return;
      }
      StatsMirror();
      Count(stats.(evict := stats.evict + 1));
    }

    lemma HeadsAreIdle(s: State)
      requires Wf(s)
      ensures s.errored != [] ==> s.errored[0] in s.nodes && WhichQ(s.nodes[s.errored[0]]) == Errored
      ensures s.eviction != [] ==> s.eviction[0] in s.nodes && WhichQ(s.nodes[s.eviction[0]]) == Eviction
    {
      assert s.errored != [] ==> s.errored[0] in s.errored;
      assert s.eviction != [] ==> s.eviction[0] in s.eviction;
    }

    lemma StatsMirror()
      requires Valid()
      ensures model.stats == stats
    {}

    /** The capacity check of makeNode. */
    method EnsureRoom(now: Time)
      requires Ready()
      modifies this, Heads(), Owned()`next, Owned()`addressOfPreviousNext
      ensures Ready() && Owned() <= old(Owned()) && model == MakeRoom(old(model), now)
      ensures lookupOrder.contents == old(lookupOrder.contents)
    {
      hide Wf, Linked;
      SameSize({});
      assert model.nodes.Keys - {} == model.nodes.Keys;
      if |nodes| + 1 > maxItems {
        var _ := EvictOne(now, true);
      }
    }

    lemma SameSize(strays: set<Key>)
      requires Valid() && nodes == linked - strays
      ensures |nodes| == |model.nodes.Keys - strays| && model.maxItems == maxItems
    {
      assert nodes.Keys == model.nodes.Keys - strays;
      assert |nodes| == |nodes.Keys|;
    }

    /** Bubble a successful node to the tail of its queue. */
    method TouchNode(k: Key)
      requires Ready() && k in nodes && nodes[k].waiters.None?
      modifies this`model, this`linked, Heads(), Owned()`next, Owned()`addressOfPreviousNext
      ensures Ready() && model == Touch(old(model), k)
    {
      hide Wf, Drop, Link, Linked, Touch, Mirrors, Scalars, NodesIn, LeftGap;
      Facts(k);
      TouchIsRelink(model, k);
      var node := nodes[k];
      if node.result.Success? {
        Unlink(node);
        InsertTail(node);
      }
    }

    lemma TouchIsRelink(s: State, k: Key)
      requires Wf(s) && k in s.nodes && s.nodes[k].waiters.None?
      ensures Touch(s, k) == if s.nodes[k].result.Success? then Link(Drop(s, k), k, s.nodes[k]) else s
    {
      hide Wf;
      TouchedIsEvictable(s, k);
      assert (s.nodes - {k})[k := s.nodes[k]] == s.nodes;
    }

    lemma TouchedIsEvictable(s: State, k: Key)
      requires Wf(s) && k in s.nodes && s.nodes[k].waiters.None?
      ensures k in s.eviction <==> s.nodes[k].result.Success?
    {}

    method Get(k: Key, now: Time) returns (r: Found)
      requires Ready()
      modifies this, Heads(), Owned()`next, Owned()`addressOfPreviousNext
      ensures Ready() && Owned() <= old(Owned())
      ensures (model, r) == LruModel.Get(old(model), k, now)
    {
      hide Wf, Linked, Drop, Reused, Mirrors, Scalars;
      Facts(k);
      Count(stats.(load := stats.load + 1));
      Facts(k);
      if k !in nodes {
        Count(stats.(miss := stats.miss + 1));
        return Missing;
      }
      var node := nodes[k];
      if Expires(node, now) {
        Displace(k);
        Facts(k);
        Count(stats.(miss := stats.miss + 1));
        return Missing;
      }
      if node.waiters.Some? {
        return Mixed;
      }
      Reuse(k);
      r := Hit(node.id);
    }

    method Reuse(k: Key)
      requires Ready() && k in nodes && nodes[k].waiters.None?
      modifies this, Heads(), Owned()`next, Owned()`addressOfPreviousNext
      ensures Ready() && nodes == old(nodes) && Wf(old(model)) && model == Reused(old(model), k)
    {
      hide Wf, Linked, Touch, Mirrors, Scalars;
      Facts(k);
      TouchNode(k);
      Facts(k);
      Count(stats.(hit := stats.hit + 1));
    }

    /** node->subscribe(): a new promise at the end of the list of a lookup in flight. */
    method Subscribe(k: Key) returns (p: nat)
      requires Ready() && k in nodes && nodes[k].waiters.Some?
      modifies this`model, this`nextPromise, {nodes[k]}`waiters
      ensures Ready() && nodes == old(nodes) && p == old(nextPromise) && model == Enlisted(old(model), k)
    {
      hide Wf, Mirrors, Linked;
      Facts(k);
      EnlistedIsWf(model, k);
      p := TakePromise();
      Facts(k);
      PushWaiter(k, p);
    }

    method TakePromise() returns (p: nat)
      requires Ready()
      modifies this`nextPromise, this`model
      ensures Ready() && p == old(nextPromise) && model == old(model).(nextPromise := p + 1)
    {
      hide Wf, TailQHead.Valid, Threads;
      PromiseKeepsWf(model);
      p := nextPromise;
      nextPromise, model := p + 1, model.(nextPromise := p + 1);
      assert forall q: Queue :: old(Linked(q)) ==> Linked(q);
    }

    lemma PromiseKeepsWf(s: State)
      requires Wf(s)
      ensures Wf(s.(nextPromise := s.nextPromise + 1))
    {}

    /** The write to the node: no link and no other node changes. */
    method PushWaiter(k: Key, p: nat)
      requires Ready() && k in nodes && nodes[k].waiters.Some?
      requires k in model.nodes && nodes[k].waiters == model.nodes[k].waiters && Wf(Listening(model, k, p))
      modifies this`model, {nodes[k]}`waiters
      ensures Ready() && model == Listening(old(model), k, p)
    {
      hide Wf, TailQHead.Valid, Threads, NodesIn;
      nodes[k].waiters := Some(nodes[k].waiters.value + [p]);
      model := Listening(model, k, p);
      forall q: Queue ensures Linked(q) { assert old(Linked(q)); }
    }

    ghost function Listening(s: State, k: Key, p: nat): State
      requires k in s.nodes && s.nodes[k].waiters.Some?
    {
      s.(nodes := s.nodes[k := s.nodes[k].(waiters := Some(s.nodes[k].waiters.value + [p]))])
    }

    ghost function Enlisted(s: State, k: Key): State
      requires k in s.nodes && s.nodes[k].waiters.Some?
    {
      Listening(s.(nextPromise := s.nextPromise + 1), k, s.nextPromise)
    }

    lemma EnlistedIsWf(s: State, k: Key)
      requires Wf(s) && k in s.nodes && s.nodes[k].waiters.Some?
      ensures Wf(Enlisted(s, k))
    {
      assert Enlisted(s, k).nodes.Keys == s.nodes.Keys;
    }

    /** A node that is there and still good: a hit, or one more subscriber to its lookup. */
    method Serve(k: Key) returns (f: Future)
      requires Ready() && k in nodes
      modifies this, Heads(), Owned()
      ensures Ready() && Owned() == old(Owned())
      ensures Wf(old(model)) && k in old(model).nodes
      ensures var s := old(model);
              if s.nodes[k].waiters.Some? then model == Subscribed(s, k) && f == Shared(s.nodes[k].id, s.nextPromise)
              else model == Reused(s, k) && f == Future.Ready(s.nodes[k].id)
    {
      hide Wf, Linked, Reused, Mirrors, Scalars;
      Facts(k);
      var node := nodes[k];
      if node.waiters.None? {
        Reuse(k);
        return Future.Ready(node.id);
      }
      Count(stats.(share := stats.share + 1));
      Facts(k);
      var p := Subscribe(k);
      f := Shared(node.id, p);
    }

    method AsyncGet(k: Key, now: Time) returns (f: Future)
      requires Ready()
      modifies this, Heads(), Owned()
      ensures Ready() && fresh(Owned() - old(Owned()))
      ensures (model, f) == LruModel.AsyncGet(old(model), k, now)
    {
      hide Wf, Linked, Reused, Subscribed, Cleared, Mirrors, Scalars, Begin;
      Facts(k);
      Count(stats.(load := stats.load + 1));
      Facts(k);
      if k in nodes {
        var node := nodes[k];
        if !Expires(node, now) {
          f := Serve(k);
          return;
        }
      }
      f := Replace(k, now);
    }

    /** A new lookup of k; a node that is still there has expired. */
    method Replace(k: Key, now: Time) returns (f: Future)
      requires Ready()
      modifies this, Heads(), Owned()
      ensures Ready() && fresh(Owned() - old(Owned()))
      ensures Wf(old(model)) && model == Begin(Cleared(old(model), k, now), k)
      ensures f == Started(old(model).nextNode, old(model).nextPromise)
    {
      hide Wf, Linked, MakeRoom, Mirrors, Scalars, Begin, Vacate, LeftGap;
      Facts(k);
      Displace(k);
      Facts(k);
      f := Launch(k, now);
    }

    method TakeId() returns (id: nat)
      requires Ready()
      modifies this`nextNode, this`model
      ensures Ready() && id == old(nextNode) && model == old(model).(nextNode := id + 1)
    {
      hide Wf, TailQHead.Valid, Threads;
      IdKeepsWf(model);
      id := nextNode;
      nextNode, model := id + 1, model.(nextNode := id + 1);
      assert forall q: Queue :: old(Linked(q)) ==> Linked(q);
    }

    lemma IdKeepsWf(s: State)
      requires Wf(s)
      ensures Wf(s.(nextNode := s.nextNode + 1))
    {}

    method Allocate(k: Key, id: nat, result: Try, waiters: Option<seq<nat>>) returns (node: CacheNode)
      requires Ready()
      ensures Ready() && fresh(node)
      ensures node.key == k && ValueOf(node) == Node(id, result, waiters, 0)
    {
      hide Wf, Threads, TailQHead.Valid, Mirrors, Scalars;
      node := new CacheNode(k, id, result, waiters);
      lookupOrder.Untouched();
      evictionOrder.Untouched();
      erroredOrder.Untouched();
      assert Owned() == old(Owned()) && Mirrors() && Scalars();
      assert Linked(Lookup) && Linked(Eviction) && Linked(Errored);
    }

    /** makeNode: make room, then build the node, which is not in the cache yet. */
    method MakeNode(k: Key, result: Try, waiters: Option<seq<nat>>, now: Time) returns (node: CacheNode)
      requires Ready()
      modifies this, Heads(), Owned()`next, Owned()`addressOfPreviousNext
      ensures Ready() && Owned() <= old(Owned()) && fresh(node)
      ensures var t := MakeRoom(old(model), now); model == t.(nextNode := t.nextNode + 1)
      ensures node.key == k && ValueOf(node) == Node(old(nextNode), result, waiters, 0)
      ensures lookupOrder.contents == old(lookupOrder.contents)
    {
      hide Wf, Linked, Mirrors, Scalars, MakeRoom;
      Facts(k);
      EnsureRoom(now);
      Facts(k);
      var id := TakeId();
      node := Allocate(k, id, result, waiters);
    }

    /** A new node goes in the map and at the tail of its queue. */
    method Adopt(node: CacheNode)
      requires Ready() && node.key !in nodes && (node.waiters.Some? ==> node.result == Empty)
      modifies this`nodes, this`linked, this`model, Heads(), Owned()`next, Owned()`addressOfPreviousNext
      modifies node`next, node`addressOfPreviousNext
      ensures Ready() && nodes == old(nodes)[node.key := node] && Owned() <= old(Owned()) + {node}
      ensures Wf(old(model)) && node.key !in old(model).nodes && model == Link(old(model), node.key, ValueOf(node))
      ensures WhichQ(ValueOf(node)) != Lookup ==> lookupOrder.contents == old(lookupOrder.contents)
    {
      hide Wf, Linked, Link, Mirrors, Scalars, NodesIn;
      nodes := nodes[node.key := node];
      InsertTail(node);
    }

    /** A new node whose lookup is in flight, with a first waiter. */
    method Launch(k: Key, now: Time) returns (f: Future)
      requires Ready() && k !in nodes
      modifies this, Heads(), Owned()
      ensures Ready() && fresh(Owned() - old(Owned()))
      ensures model == Begin(MakeRoom(old(model), now), k) && f == Started(old(nextNode), old(nextPromise))
    {
      hide Wf, Linked, Link, Mirrors, Scalars, MakeRoom, NodesIn, Enlisted, Begin;
      Facts(k);
      BeginIsEnlist(MakeRoom(model, now), k);
      var node := MakeNode(k, Empty, Some([]), now);
      Facts(k);
      Adopt(node);
      Count(stats.(miss := stats.miss + 1));
      var p := Subscribe(k);
      f := Started(node.id, p);
    }

    /** Linking a node and numbering it can be done in either order. */
    lemma LinkKeepsIds(s: State, k: Key, n: Node)
      requires Wf(s) && k !in s.nodes && (n.waiters.Some? ==> n.result == Empty)
      ensures Wf(s.(nextNode := s.nextNode + 1))
      ensures Link(s.(nextNode := s.nextNode + 1), k, n) == Link(s, k, n).(nextNode := s.nextNode + 1)
    {
      IdKeepsWf(s);
    }

    lemma BeginIsEnlist(s: State, k: Key)
      requires Wf(s) && k !in s.nodes
      ensures Wf(s.(nextNode := s.nextNode + 1))
      ensures var t := Link(s.(nextNode := s.nextNode + 1), k, Node(s.nextNode, Empty, Some([]), 0));
              Begin(s, k) == Enlisted(t.(stats := t.stats.(miss := t.stats.miss + 1)), k)
    {
      hide Wf;
      LinkKeepsIds(s, k, Node(s.nextNode, Empty, Some([]), 0));
      assert [] + [s.nextPromise] == [s.nextPromise];
    }

    /** Store the outcome in a node and take its promises. */
    method Resolve(node: CacheNode, result: Try, now: Time) returns (promises: seq<nat>)
      requires node.waiters.Some?
      modifies node`result, node`waiters, node`deadline
      ensures promises == old(node.waiters.value)
      ensures ValueOf(node) == Finished(old(ValueOf(node)), result, now, errorTtl)
    {
      node.result := result;
      if node.result.Failure? {
        node.deadline := now + errorTtl;
      }
      promises := node.waiters.value;
      node.waiters := None;
    }

    /** The same for a node that is in no queue. */
    method ResolveUnlinked(node: CacheNode, result: Try, now: Time) returns (promises: seq<nat>)
      requires Valid() && node !in Owned() && node.waiters.Some?
      modifies node`result, node`waiters, node`deadline
      ensures Valid() && promises == old(node.waiters.value)
      ensures ValueOf(node) == Finished(old(ValueOf(node)), result, now, errorTtl)
    {
      hide Wf, TailQHead.Valid, Threads;
      promises := Resolve(node, result, now);
      forall q: Queue ensures Linked(q) {
        assert old(Linked(q));
        Head(q).Untouched();
      }
    }

    /** The lookup of `node` ended with `result`; returns the promises to fulfil with it. */
    method Complete(node: CacheNode, result: Try, now: Time) returns (promises: seq<nat>)
      requires Ready() && node.key in nodes && nodes[node.key] == node && node.waiters.Some? && !result.Empty?
      modifies this, Heads(), Owned()
      ensures Ready() && Owned() <= old(Owned())
      ensures promises == old(node.waiters.value)
      ensures old(node.key in model.lookup) && model == LruModel.Complete(old(model), node.key, result, now)
    {
      hide Wf, Linked, Mirrors, Scalars, Settle, EvictExcess, EvictPast, NodesIn;
      promises := StoreResult(node, result, now);
      NoStrays(model, now);
      EvictOver(now, {});
    }

    /** All of that but the eviction at the end. */
    method StoreResult(node: CacheNode, result: Try, now: Time) returns (promises: seq<nat>)
      requires Ready() && node.key in nodes && nodes[node.key] == node && node.waiters.Some? && !result.Empty?
      modifies this, Heads(), Owned()
      ensures Ready() && Owned() <= old(Owned()) && promises == old(node.waiters.value)
      ensures Wf(old(model)) && node.key in old(model).lookup && model == Settle(old(model), node.key, result, now)
    {
      hide Wf, Linked, Link, Drop, Mirrors, Scalars, NodesIn, LeftGap;
      InLookup(node.key);
      Facts(node.key);
      Unlink(node);
      promises := ResolveUnlinked(node, result, now);
      InsertTail(node);
      StatsMirror();
      Count(stats.(store := stats.store + 1));
    }

    lemma InLookupOnly(k: Key)
      requires Ready()
      ensures k in model.lookup ==> k in nodes && k in model.nodes && WhichQ(model.nodes[k]) == Lookup
    {}

    lemma InLookup(k: Key)
      requires Ready() && k in nodes
      ensures nodes[k].waiters.Some? <==> k in model.lookup
    {}

    /** The loop that frees what could not be freed earlier. `strays` are in a queue but not in the map. */
    method EvictOver(now: Time, ghost strays: set<Key>)
      requires Valid() && nodes == linked - strays
      modifies this, Heads(), Owned()`next, Owned()`addressOfPreviousNext
      ensures Valid() && nodes == linked - strays && Owned() <= old(Owned()) && Within(linked, old(linked))
      ensures Wf(old(model)) && model == EvictPast(old(model), strays, now)
    {
      hide Wf, Linked, Mirrors, Scalars, EvictPast, NodesIn;
      SameSize(strays);
      while |nodes| > maxItems
        invariant Valid() && nodes == linked - strays && Owned() <= old(Owned()) && Within(linked, old(linked))
        invariant EvictPast(model, strays, now) == EvictPast(old(model), strays, now)
        decreases |model.nodes|
      {
        var ok := EvictMore(now, strays);
        if !ok {
          return;
        }
      }
      SameSize(strays);
      WithinLimit(model, strays, now);
    }

    lemma WithinLimit(s: State, strays: set<Key>, now: Time)
      requires Wf(s) && |s.nodes.Keys - strays| <= s.maxItems
      ensures EvictPast(s, strays, now) == s
    {}

    /** One turn of that loop. */
    method EvictMore(now: Time, ghost strays: set<Key>) returns (ok: bool)
      requires Valid() && nodes == linked - strays && |nodes| > maxItems
      modifies this, Heads(), Owned()`next, Owned()`addressOfPreviousNext
      ensures Valid() && nodes == linked - strays && Owned() <= old(Owned()) && Within(linked, old(linked))
      ensures Wf(old(model)) && EvictPast(model, strays, now) == EvictPast(old(model), strays, now)
      ensures if ok then |model.nodes| < |old(model).nodes| else EvictPast(model, strays, now) == model
    {
      hide Wf, Linked, Mirrors, Scalars, Victim, Evicted, EvictPast, NodesIn;
      SameSize(strays);
      PastTurn(model, strays, now);
      ok := EvictOne(now, true);
    }

    lemma PastTurn(s: State, strays: set<Key>, now: Time)
      requires Wf(s) && |s.nodes.Keys - strays| > s.maxItems
      ensures var v := Victim(s, now, true);
              && (v.None? ==> EvictPast(s, strays, now) == s)
              && (v.Some? ==> EvictPast(s, strays, now) == EvictPast(Evicted(s, v.value), strays, now))
              && (v.Some? ==> |Evicted(s, v.value).nodes| < |s.nodes|)
    {
      var v := Victim(s, now, true);
      if v.Some? { EvictedIsSmaller(s, v.value); }
    }

    lemma EvictedIsSmaller(s: State, k: Key)
      requires Wf(s) && k in s.nodes
      ensures |Evicted(s, k).nodes| < |s.nodes|
    {}

    /** Remove the node of k, if any; a new one is about to replace it. */
    method Displace(k: Key)
      requires Ready()
      modifies this, Heads(), Owned()`next, Owned()`addressOfPreviousNext
      ensures Ready() && Owned() <= old(Owned()) && model == Vacate(old(model), k) && k !in nodes
      ensures k in old(nodes) ==>
                && k in old(model).nodes && old(nodes)[k] !in Owned()
                && LeftGap(WhichQ(old(model).nodes[k]), old(nodes)[k])
    {
      hide Wf, Linked, Drop, Mirrors, Scalars;
      Facts(k);
      if k in nodes {
        Discard(nodes[k]);
        StatsMirror();
        Count(stats.(evict := stats.evict + 1));
      }
    }

    method Set(k: Key, v: Value, now: Time) returns (node: CacheNode)
      requires Ready()
      modifies this, Heads(), Owned()`next, Owned()`addressOfPreviousNext
      ensures Ready() && fresh(Owned() - old(Owned())) && k in nodes && node == nodes[k]
      ensures model == Put(old(model), k, v, now)
      ensures k in old(model).lookup ==> k in old(nodes) && old(nodes)[k] !in Owned() && LeftGap(Lookup, old(nodes)[k])
    {
      hide Wf, Linked, Stored, Mirrors, Scalars, MakeRoom, Vacate, LeftGap;
      InLookupOnly(k);
      Facts(k);
      ghost var stale := if k in nodes then Some(nodes[k]) else None;
      Displace(k);
      node := StoreBeside(k, v, now, if k in old(model).lookup then stale else None);
    }

    /** The rest of `set`. The place that `stale` left in the lookup queue stays open. */
    method StoreBeside(k: Key, v: Value, now: Time, ghost stale: Option<CacheNode>) returns (node: CacheNode)
      requires Ready() && k !in nodes
      requires stale.Some? ==> stale.value !in Owned() && LeftGap(Lookup, stale.value)
      modifies this, Heads(), Owned()`next, Owned()`addressOfPreviousNext
      ensures Ready() && fresh(Owned() - old(Owned())) && k in nodes && node == nodes[k]
      ensures Wf(old(model)) && k !in MakeRoom(old(model), now).nodes
      ensures model == Stored(MakeRoom(old(model), now), k, v)
      ensures stale.Some? ==> stale.value !in Owned() && LeftGap(Lookup, stale.value)
    {
      hide Wf, Valid, Stored, MakeRoom, NodesIn;
      ghost var i := 0;
      if stale.Some? { i :| 0 <= i <= |lookupOrder.contents| && lookupOrder.Gap(stale.value, i); }
      node := StoreNew(k, v, now);
      assert stale.Some? ==> lookupOrder.Gap(stale.value, i);
    }

    method StoreNew(k: Key, v: Value, now: Time) returns (node: CacheNode)
      requires Ready() && k !in nodes
      modifies this, Heads(), Owned()`next, Owned()`addressOfPreviousNext
      ensures Ready() && fresh(Owned() - old(Owned())) && k in nodes && node == nodes[k]
      ensures Wf(old(model)) && k !in MakeRoom(old(model), now).nodes
      ensures model == Stored(MakeRoom(old(model), now), k, v)
      ensures lookupOrder.contents == old(lookupOrder.contents)
    {
      hide Wf, Linked, Link, Mirrors, Scalars, MakeRoom, NodesIn;
      Facts(k);
      RoomKeepsOut(model, k, now);
      node := MakeNode(k, Success(v), None, now);
      Facts(k);
      LinkKeepsIds(MakeRoom(old(model), now), k, ValueOf(node));
      Adopt(node);
      Facts(k);
      Count(stats.(store := stats.store + 1));
    }

    lemma RoomKeepsOut(s: State, k: Key, now: Time)
      requires Wf(s) && k !in s.nodes
      ensures k !in MakeRoom(s, now).nodes
    {}

    method Erase(k: Key) returns (node: CacheNode?)
      requires Ready()
      modifies this, Heads(), Owned()`next, Owned()`addressOfPreviousNext
      ensures Ready() && Owned() <= old(Owned())
      ensures node == if k in old(nodes) then old(nodes)[k] else null
      ensures model == LruModel.Erase(old(model), k) && nodes == old(nodes) - {k}
      ensures k in old(nodes) ==> k in old(model).nodes && LeftGap(WhichQ(old(model).nodes[k]), old(nodes)[k])
    {
      hide Wf, Linked, Drop, Mirrors, Scalars;
      Facts(k);
      if k !in nodes {
        return null;
      }
      node := nodes[k];
      Discard(node);
      StatsMirror();
      Count(stats.(erase := stats.erase + 1));
    }

    method Clear()
      requires Ready()
      modifies this, Heads()
      ensures Ready() && model == LruModel.Clear(old(model)) && nodes == map[]
    {
      hide Wf, TailQHead.Valid, Linked, Mirrors;
      evictionOrder.Clear();
      erroredOrder.Clear();
      lookupOrder.Clear();
      nodes, linked := map[], map[];
      stats := Stats(0, 0, 0, 0, 0, 0, 0, stats.clears + 1);
      model := LruModel.Clear(model);
      EmptyIsLinked();
    }
  }
}
