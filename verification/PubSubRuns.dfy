/** What subscribers receive, in every run of a publisher. */
module PubSubRuns {
  import opened Filters
  import opened PubSubModel
  import Runs

  /** With the history: all items ever enqueued; for each subscriber how many there were when it subscribed, where
      its run of items starts, and what it has received. */
  datatype World = World(s: State, log: seq<Item>, joined: seq<nat>, start: seq<nat>, got: seq<seq<Item>>)

  datatype Op = Subscribe | Enqueue(payload: int) | GetPending(id: nat) | Vacate(id: nat) | Destroy(id: nat)

  ghost predicate Next(w: World, op: Op, x: World) {
    match op
    case Subscribe =>
      x == w.(s := Subscribed(w.s), joined := w.joined + [|w.log|], got := w.got + [[]],
              start := w.start + [if |w.s.items| <= |w.log| then |w.log| - |w.s.items| else 0])
    case Enqueue(p) =>
      var s := Enqueued(w.s, p);
      x == w.(s := s, log := if s.nextSerial == w.s.nextSerial then w.log else w.log + [Item(w.s.nextSerial, p)])
    case GetPending(id) =>
      && IsLive(w.s.subs, id) && id < |w.got|
      && x == w.(s := Drained(w.s, id), got := w.got[id := w.got[id] + PendingItems(w.s, id)])
    case Vacate(id) => IsLive(w.s.subs, id) && x == w.(s := Vacated(w.s, id))
    case Destroy(id) => id < |w.s.subs| && !w.s.subs[id].live && x == w.(s := Pruned(w.s))
  }

  ghost predicate Start(w: World) { w == World(State([], 1, [], []), [], [], [], []) }

  // ----- Invariant

  /** The deque is the end of the log, and the log is numbered from 1. */
  ghost predicate Numbered(w: World) {
    && (forall k :: 0 <= k < |w.log| ==> w.log[k].serial == k + 1)
    && w.s.nextSerial == |w.log| + 1
    && |w.s.items| <= |w.log| && w.s.items == w.log[|w.log| - |w.s.items|..]
  }

  /** A subscriber has received a run of the log without gaps, and while it lives the next item it needs is kept. */
  ghost predicate Delivered(w: World, id: nat)
    requires id < |w.s.subs| && id < |w.got| && id < |w.start| && id < |w.joined|
  {
    var end := w.start[id] + |w.got[id]|;
    var front := |w.log| - |w.s.items|;
    && w.start[id] <= w.joined[id] <= |w.log| && end <= |w.log|
    && w.got[id] == w.log[w.start[id]..end]
    && w.s.subs[id].serial == (if w.got[id] == [] then 0 else end)
    && (w.s.subs[id].live ==> id in w.s.vector && if w.got[id] == [] then front == end else front <= end)
  }

  ghost predicate Sound(w: World) {
    && Numbered(w)
    && |w.got| == |w.start| == |w.joined| == |w.s.subs|
    && (forall id :: id in w.s.vector ==> id < |w.s.subs|)
    && forall id :: 0 <= id < |w.s.subs| ==> Delivered(w, id)
  }

  // ----- Steps

  /** Garbage collection drops nothing a live subscriber has not seen. */
  lemma CollectIsSound(w: World, vector: seq<nat>)
    requires Sound(w) && forall id :: id in vector <==> id in w.s.vector && IsLive(w.s.subs, id)
    ensures Sound(w.(s := Collected(w.s.(vector := vector))))
  {
    hide MinSerial, Popped;
    var s := w.s.(vector := vector);
    var min := MinSerial(vector, s.subs);
    var k := PoppedIsSuffix(s.items, min);
    var x := w.(s := Collected(s));
    var front := |w.log| - |s.items|;
    assert x.s.items == w.log[front + k..];
    forall id | 0 <= id < |s.subs|
      ensures Delivered(x, id)
    {
      assert Delivered(w, id);
      if s.subs[id].live && k > 0 {
        assert s.items[k - 1] == w.log[front + k - 1];
      }
    }
  }

  lemma PruneIsSound(w: World)
    requires Sound(w)
    ensures Sound(w.(s := Pruned(w.s)))
  {
    CollectIsSound(w, Filter(w.s.vector, Alive(w.s.subs)));
  }

  lemma EnqueueIsSound(w: World, payload: int, x: World)
    requires Sound(w) && Next(w, Enqueue(payload), x)
    ensures Sound(x)
  {
    hide Pruned;
    PruneIsSound(w);
    var c := w.(s := Pruned(w.s));
    SerialKept(w.s);
    if c.s.vector == [] {
      assert x == c;
    } else {
      forall id | 0 <= id < |x.s.subs|
        ensures Delivered(x, id)
      {
        assert Delivered(c, id);
      }
    }
  }

  lemma SerialKept(s: State)
    ensures Pruned(s).nextSerial == s.nextSerial && Pruned(s).subs == s.subs
  {}

  lemma SerialAt(w: World, i: nat)
    requires Numbered(w) && i < |w.s.items|
    ensures w.s.items[i].serial == |w.log| - |w.s.items| + i + 1
  {}

  /** What a live subscriber still has to receive is the log from the end of what it has received. */
  lemma PendingIsRest(w: World, id: nat)
    requires Sound(w) && IsLive(w.s.subs, id)
    ensures w.start[id] + |w.got[id]| <= |w.log| && PendingItems(w.s, id) == w.log[w.start[id] + |w.got[id]|..]
  {
    hide Numbered, Seen;
    assert Delivered(w, id);
    var n := Seen(w.s.items, w.s.subs[id].serial);
    if n > 0 { SerialAt(w, n - 1); }
    if n < |w.s.items| { SerialAt(w, n); }
    assert n == w.start[id] + |w.got[id]| - (|w.log| - |w.s.items|);
    RestOf(w, n);
  }

  lemma RestOf(w: World, n: nat)
    requires Numbered(w) && n <= |w.s.items|
    ensures w.s.items[n..] == w.log[|w.log| - |w.s.items| + n..]
  {}

  /** The caller of getPending catches up. */
  lemma CallerIsDelivered(w: World, id: nat, x: World)
    requires Sound(w) && Next(w, GetPending(id), x)
    ensures id < |x.s.subs| && id < |x.got| && id < |x.start| && id < |x.joined|
    ensures Delivered(x, id) && x.got[id] == x.log[x.start[id]..]
  {
    hide PendingItems, Numbered;
    PendingIsRest(w, id);
    assert Delivered(w, id);
    var end := w.start[id] + |w.got[id]|;
    assert x.got[id] == w.log[w.start[id]..end] + w.log[end..] == w.log[w.start[id]..];
    if end < |w.log| { LastSerial(w, end); }
  }

  lemma LastSerial(w: World, from: nat)
    requires Numbered(w) && from < |w.log|
    ensures var p := w.log[from..]; p[|p| - 1].serial == |w.log|
  {}

  lemma GetPendingIsSound(w: World, id: nat, x: World)
    requires Sound(w) && Next(w, GetPending(id), x)
    ensures Sound(x) && id < |x.s.subs| && Delivered(x, id) && x.got[id] == x.log[x.start[id]..]
  {
    hide PendingItems;
    CallerIsDelivered(w, id, x);
    forall k | 0 <= k < |x.s.subs| && k != id
      ensures Delivered(x, k)
    {
      assert Delivered(w, k);
      assert x.got[k] == w.got[k] && x.s.subs[k] == w.s.subs[k];
    }
  }

  lemma StepIsSound(w: World, op: Op, x: World)
    requires Sound(w) && Next(w, op, x)
    ensures Sound(x)
  {
    hide Pruned, Enqueued, Drained, PendingItems;
    match op
    case Subscribe =>
      forall id | 0 <= id < |w.s.subs| ensures Delivered(x, id) { assert Delivered(w, id); }
    case Enqueue(p) => EnqueueIsSound(w, p, x);
    case GetPending(id) => GetPendingIsSound(w, id, x);
    case Vacate(v) =>
      forall id | 0 <= id < |w.s.subs| ensures Delivered(x, id) { assert Delivered(w, id); }
    case Destroy(_) => PruneIsSound(w);
  }

  // ----- What is queued and what is kept

  ghost predicate SomeoneLives(s: State) { exists id: nat :: IsLive(s.subs, id) }

  /** A live subscriber has got no further than this item, or has got nothing yet. */
  ghost predicate Wanted(s: State, e: Item) { exists id: nat :: IsLive(s.subs, id) && s.subs[id].serial <= e.serial }

  lemma MinIsReached(vector: seq<nat>, subs: seq<Sub>)
    ensures var r := MinSerial(vector, subs);
            r.Some? ==> exists id :: id in vector && IsLive(subs, id) && subs[id].serial == r.value
  {}

  /** Erasing vacated references and collecting leaves exactly the items that a live subscriber has not got past. */
  lemma CollectionIsExact(w: World, e: Item)
    requires Sound(w)
    ensures e in Pruned(w.s).items <==> e in w.s.items && Wanted(w.s, e)
  {
    hide MinSerial, Popped, Numbered, Filter;
    var s := w.s;
    var vector := Filter(s.vector, Alive(s.subs));
    var min := MinSerial(vector, s.subs);
    MinIsReached(vector, s.subs);
    var k := PoppedIsSuffix(s.items, min);
    assert Pruned(s).items == s.items[k..];
    if e in s.items {
      var i :| 0 <= i < |s.items| && s.items[i] == e;
      SerialAt(w, i);
      if k < |s.items| { SerialAt(w, k); }
      if k > 0 { SerialAt(w, k - 1); }
      if Wanted(s, e) {
        var id: nat :| IsLive(s.subs, id) && s.subs[id].serial <= e.serial;
        assert Delivered(w, id);
        assert id in vector;
        assert i >= k;
        assert s.items[k..][i - k] == e;
      }
      if e in s.items[k..] {
        var j :| 0 <= j < |s.items[k..]| && s.items[k..][j] == e;
        SerialAt(w, k + j);
      }
    }
  }

  /** enqueue puts the item at the end of the queue and of the log, numbered next, exactly if someone is subscribed;
      before that it drops what nobody wants. */
  lemma EnqueueQueues(w: World, payload: int, x: World)
    requires Sound(w) && Next(w, Enqueue(payload), x)
    ensures var last := Item(|w.log| + 1, payload);
            && x.log == (if SomeoneLives(w.s) then w.log + [last] else w.log)
            && (SomeoneLives(w.s) ==> x.s.items == Pruned(w.s).items + [last])
            && (!SomeoneLives(w.s) ==> x.s.items == [])
            && forall e :: e in x.s.items && e != last ==> e in w.s.items && Wanted(w.s, e)
  {
    hide Pruned, Numbered, Popped;
    SerialKept(w.s);
    assert w.s.nextSerial == |w.log| + 1 by { NextNumber(w); }
    LiveReferences(w);
    forall e | e in Pruned(w.s).items ensures e in w.s.items && Wanted(w.s, e) { CollectionIsExact(w, e); }
    assert x.s.items != [] ==> x.s.items[0] in x.s.items;
  }

  lemma NextNumber(w: World)
    requires Numbered(w)
    ensures w.s.nextSerial == |w.log| + 1
  {}

  lemma LiveReferences(w: World)
    requires Sound(w)
    ensures Pruned(w.s).vector != [] <==> SomeoneLives(w.s)
  {
    hide Numbered, Popped, MinSerial;
    var v := Filter(w.s.vector, Alive(w.s.subs));
    assert Pruned(w.s).vector == v;
    if v != [] { assert v[0] in v && Alive(w.s.subs)(v[0]); }
    if id: nat :| IsLive(w.s.subs, id) {
      assert Delivered(w, id);
      assert id in v;
    }
  }

  // ----- Every run

  lemma StartIsSound(w: World)
    requires Start(w)
    ensures Sound(w)
  {}

  lemma SoundRun(b: seq<World>, ops: seq<Op>, i: nat)
    requires Runs.Joined(b, ops, Next) && Start(b[0]) && i < |b|
    ensures Sound(b[i])
  {
    hide Next, Sound, Start;
    StartIsSound(b[0]);
    forall w, op, x | Sound(w) && Next(w, op, x)
      ensures Sound(x)
    {
      StepIsSound(w, op, x);
    }
    Runs.Throughout(b, ops, Sound, Next, i);
  }

  /** In every run what a subscriber has received is a gap-free run of the items enqueued, numbered from 1. */
  lemma SubscribersMissNothing(b: seq<World>, ops: seq<Op>, i: nat, id: nat)
    requires Runs.Joined(b, ops, Next) && Start(b[0]) && i < |b| && id < |b[i].s.subs|
    ensures |b[i].got| == |b[i].start| == |b[i].joined| == |b[i].s.subs| && Delivered(b[i], id) && Numbered(b[i])
  {
    hide Next, Delivered, Numbered, Start;
    SoundRun(b, ops, i);
  }

  /** Right after each call it reaches from its start, which is not later than its subscription, to the last item. */
  lemma GetPendingCatchesUp(b: seq<World>, ops: seq<Op>, i: nat, id: nat)
    requires Runs.Joined(b, ops, Next) && Start(b[0]) && i < |ops| && ops[i] == GetPending(id)
    ensures id < |b[i + 1].got| && id < |b[i + 1].start| && id < |b[i + 1].joined|
    ensures b[i + 1].start[id] <= b[i + 1].joined[id] <= |b[i + 1].log|
    ensures b[i + 1].got[id] == b[i + 1].log[b[i + 1].start[id]..]
  {
    hide Next, Numbered, Start;
    SoundRun(b, ops, i);
    assert Next(b[i], ops[i], b[i + 1]);
    GetPendingIsSound(b[i], id, b[i + 1]);
  }
}
