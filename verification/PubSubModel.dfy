/** The publisher of PubSub.cpp as a value. */
module PubSubModel {
  import opened Filters
  import opened Options

  datatype Item = Item(serial: nat, payload: int)

  /** `live`: the client still holds a reference. */
  datatype Sub = Sub(serial: nat, live: bool)

  /** `vector`: the weak references of the publisher, by number; some may be vacated. `subs`: every subscriber
      ever made. */
  datatype State = State(items: seq<Item>, nextSerial: nat, vector: seq<nat>, subs: seq<Sub>)

  // ----- Garbage

  predicate IsLive(subs: seq<Sub>, id: nat) { id < |subs| && subs[id].live }

  function Alive(subs: seq<Sub>): nat -> bool { (id: nat) => IsLive(subs, id) }

  /** The least serial of a live subscriber; none if there is none. */
  function MinSerial(vector: seq<nat>, subs: seq<Sub>): (r: Option<nat>)
    ensures forall id :: id in vector && IsLive(subs, id) ==> r.Some? && r.value <= subs[id].serial
  {
    if vector == [] then None
    else
      var rest := MinSerial(vector[1..], subs);
      var id := vector[0];
      if !IsLive(subs, id) then rest
      else if rest.None? || subs[id].serial < rest.value then Some(subs[id].serial)
      else rest
  }

  /** The items at the front below the bound go. */
  function Popped(items: seq<Item>, min: Option<nat>): seq<Item> {
    if items != [] && (min.None? || items[0].serial < min.value) then Popped(items[1..], min) else items
  }

  lemma {:induction false} PoppedIsSuffix(items: seq<Item>, min: Option<nat>) returns (k: nat)
    ensures k <= |items| && Popped(items, min) == items[k..]
    ensures min.Some? && k > 0 ==> items[k - 1].serial < min.value
    ensures k < |items| ==> min.Some? && min.value <= items[k].serial
  {
    if items != [] && (min.None? || items[0].serial < min.value) {
      var j := PoppedIsSuffix(items[1..], min);
      assert items[1..][j..] == items[j + 1..];
      k := j + 1;
    } else {
      assert items[0..] == items;
      k := 0;
    }
  }

  function Collected(s: State): State { s.(items := Popped(s.items, MinSerial(s.vector, s.subs))) }

  // ----- Operations

  function Subscribed(s: State): State {
    s.(vector := s.vector + [|s.subs|], subs := s.subs + [Sub(0, true)])
  }

  function Pruned(s: State): State { Collected(s.(vector := Filter(s.vector, Alive(s.subs)))) }

  /** enqueue: dead references and garbage go first; without a subscriber the item is dropped. */
  function Enqueued(s: State, payload: int): State {
    var c := Pruned(s);
    if c.vector == [] then c
    else c.(items := c.items + [Item(c.nextSerial, payload)], nextSerial := c.nextSerial + 1)
  }

  /** How many items from the front the subscriber has seen, walking back from the end. */
  function Seen(items: seq<Item>, serial: nat): (n: nat)
    ensures n <= |items|
    ensures n > 0 ==> items[n - 1].serial <= serial
    ensures forall i :: n <= i < |items| ==> serial < items[i].serial
  {
    if items == [] || items[|items| - 1].serial <= serial then |items| else Seen(items[..|items| - 1], serial)
  }

  function PendingItems(s: State, id: nat): seq<Item>
    requires id < |s.subs|
  {
    s.items[Seen(s.items, s.subs[id].serial)..]
  }

  function Drained(s: State, id: nat): State
    requires id < |s.subs|
  {
    var p := PendingItems(s, id);
    if p == [] then s else s.(subs := s.subs[id := s.subs[id].(serial := p[|p| - 1].serial)])
  }

  /** The last reference to a subscriber is dropped; its destructor runs later. */
  function Vacated(s: State, id: nat): State
    requires id < |s.subs|
  {
    s.(subs := s.subs[id := s.subs[id].(live := false)])
  }
}
