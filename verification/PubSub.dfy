/** Publisher and Subscriber of PubSub.cpp as objects. */
module PubSub {
  import opened Filters
  import opened Options
  import opened PubSubModel

  class Subscriber {
    var serial: nat
    /** Some shared reference is left, so that the weak one can still be locked. */
    var live: bool

    constructor ()
      ensures serial == 0 && live
    {
      serial, live := 0, true;
    }
  }

  ghost function Subs(all: seq<Subscriber>): (r: seq<Sub>)
    reads all
    ensures |r| == |all| && forall i :: 0 <= i < |all| ==> r[i] == Sub(all[i].serial, all[i].live)
  {
    if all == [] then [] else Subs(all[..|all| - 1]) + [Sub(all[|all| - 1].serial, all[|all| - 1].live)]
  }

  /** The smaller of two bounds, where none is no bound. */
  function Lesser(a: Option<nat>, b: Option<nat>): Option<nat> {
    if a.None? then b else if b.None? || a.value <= b.value then a else b
  }

  class Publisher {
    var items: seq<Item>
    var nextSerial: nat
    var subscribers: seq<Subscriber>
    ghost var all: seq<Subscriber>
    ghost var vector: seq<nat>

    ghost predicate Valid()
      reads this
    {
      && (forall i, j :: 0 <= i < j < |all| ==> all[i] != all[j])
      && |vector| == |subscribers|
      && forall j :: 0 <= j < |vector| ==> vector[j] < |all| && subscribers[j] == all[vector[j]]
    }

    ghost function Model(): State
      reads this, all
    {
      State(items, nextSerial, vector, Subs(all))
    }

    constructor ()
      ensures Valid() && Model() == State([], 1, [], [])
    {
      items, nextSerial, subscribers, all, vector := [], 1, [], [], [];
    }

    method Subscribe() returns (sub: Subscriber)
      requires Valid()
      modifies this`subscribers, this`all, this`vector
      ensures Valid() && fresh(sub) && all == old(all) + [sub] && Model() == Subscribed(old(Model()))
    {
      sub := new Subscriber();
      subscribers := subscribers + [sub];
      vector := vector + [|all|];
      all := all + [sub];
      assert all[..|all| - 1] == old(all);
    }

    /** The last reference is dropped. */
    method Vacate(sub: Subscriber, ghost id: nat)
      requires Valid() && id < |all| && all[id] == sub
      modifies sub`live
      ensures Valid() && Model() == Vacated(old(Model()), id)
    {
      sub.live := false;
    }

    /** The bound below which nobody needs the items. */
    method LeastSerial() returns (min: Option<nat>)
      requires Valid()
      ensures min == MinSerial(vector, Subs(all))
    {
      min := None;
      var k := 0;
      assert vector[0..] == vector;
      while k < |subscribers|
        invariant k <= |vector| && MinSerial(vector, Subs(all)) == Lesser(min, MinSerial(vector[k..], Subs(all)))
      {
        var sub := subscribers[k];
        assert sub == all[vector[k]] && vector[k..][1..] == vector[k + 1..];
        if sub.live {
          min := Lesser(min, Some(sub.serial));
        }
        k := k + 1;
      }
    }

    method CollectGarbage()
      requires Valid()
      modifies this`items
      ensures Valid() && Model() == Collected(old(Model()))
    {
      if items == [] {
        return;
      }
      var min := LeastSerial();
      while items != [] && (min.None? || items[0].serial < min.value)
        invariant Popped(items, min) == Popped(old(items), min)
        decreases |items|
      {
        items := items[1..];
      }
    }

    /** Erases the vacated references. */
    method EraseVacated()
      requires Valid()
      modifies this`subscribers, this`vector
      ensures Valid() && Model() == old(Model()).(vector := Filter(old(vector), Alive(Subs(all))))
      ensures forall j :: 0 <= j < |subscribers| ==> subscribers[j].live
    {
      hide Filter, Subs;
      ghost var ids;
      subscribers, ids := LiveOnes();
      vector := ids;
    }

    /** The loop over the references. */
    method LiveOnes() returns (kept: seq<Subscriber>, ghost ids: seq<nat>)
      requires Valid()
      ensures ids == Filter(vector, Alive(Subs(all))) && |kept| == |ids|
      ensures forall j :: 0 <= j < |kept| ==> ids[j] < |all| && kept[j] == all[ids[j]] && kept[j].live
    {
      hide Filter, Subs;
      ghost var alive := Alive(Subs(all));
      kept, ids := [], [];
      var k := 0;
      assert vector[0..] == vector;
      while k < |subscribers|
        invariant k <= |vector| && |ids| == |kept| && Filter(vector, alive) == ids + Filter(vector[k..], alive)
        invariant forall j :: 0 <= j < |kept| ==> ids[j] < |all| && kept[j] == all[ids[j]] && kept[j].live
      {
        assert subscribers[k] == all[vector[k]];
        FilterStep(vector, alive, k);
        ghost var rest := Filter(vector[k + 1..], alive);
        if subscribers[k].live {
          Appended(ids, vector[k], rest);
          kept, ids := kept + [subscribers[k]], ids + [vector[k]];
        } else {
          assert [] + rest == rest;
        }
        k := k + 1;
      }
      FilterStep(vector, alive, k);
    }

    lemma Appended(ids: seq<nat>, id: nat, rest: seq<nat>)
      ensures ids + ([id] + rest) == (ids + [id]) + rest
    {}

    /** The destructor of a subscriber that nobody refers to any more. */
    method Destroy(sub: Subscriber, ghost id: nat)
      requires Valid() && id < |all| && all[id] == sub && !sub.live
      modifies this`items, this`subscribers, this`vector
      ensures Valid() && Model() == Pruned(old(Model())) && sub !in subscribers
    {
      hide Popped, MinSerial, Filter;
      EraseVacated();
      CollectGarbage();
    }

    method Enqueue(payload: int) returns (queued: bool)
      requires Valid()
      modifies this`items, this`nextSerial, this`subscribers, this`vector
      ensures Valid() && Model() == Enqueued(old(Model()), payload)
      ensures queued <==> exists j :: 0 <= j < |old(subscribers)| && old(subscribers)[j].live
    {
      hide Popped, MinSerial, Filter, Subs;
      EraseVacated();
      AnyLeft(old(vector), old(subscribers));
      CollectGarbage();
      if subscribers == [] {
        return false;
      }
      items := items + [Item(nextSerial, payload)];
      nextSerial := nextSerial + 1;
      queued := true;
    }

    lemma AnyLeft(ids: seq<nat>, subs: seq<Subscriber>)
      requires |ids| == |subs| && forall j :: 0 <= j < |ids| ==> ids[j] < |all| && subs[j] == all[ids[j]]
      ensures Filter(ids, Alive(Subs(all))) != [] <==> exists j :: 0 <= j < |subs| && subs[j].live
    {
      var alive := Alive(Subs(all));
      var f := Filter(ids, alive);
      if f != [] {
        assert f[0] in ids && alive(f[0]);
        var j :| 0 <= j < |ids| && ids[j] == f[0];
        assert subs[j].live;
      }
      if j :| 0 <= j < |subs| && subs[j].live {
        assert ids[j] in ids && alive(ids[j]);
      }
    }

    /** Walks back from the end to the last item seen before; the one after it is the first to copy. */
    method FirstUnseen(serial: nat) returns (firstIndex: int)
      requires items != []
      ensures firstIndex == Seen(items, serial)
    {
      firstIndex := |items| - 1;
      assert items[..|items|] == items;
      while firstIndex >= 0
        invariant -1 <= firstIndex < |items| && Seen(items, serial) == Seen(items[..firstIndex + 1], serial)
        decreases firstIndex
      {
        if items[firstIndex].serial <= serial {
          break;
        }
        assert items[..firstIndex + 1][..firstIndex] == items[..firstIndex];
        firstIndex := firstIndex - 1;
      }
      firstIndex := firstIndex + 1;
    }

    /** Appends what the subscriber has not seen. */
    method GetPending(sub: Subscriber, ghost id: nat, pending: seq<Item>) returns (r: seq<Item>)
      requires Valid() && id < |all| && all[id] == sub
      modifies sub`serial
      ensures Valid() && Model() == Drained(old(Model()), id) && r == pending + PendingItems(old(Model()), id)
    {
      hide Seen, Subs;
      r := pending;
      if items == [] {
        return;
      }
      var firstIndex := FirstUnseen(sub.serial);
      var updated;
      r, updated := CopyFrom(firstIndex, pending);
      if updated {
        sub.serial := r[|r| - 1].serial;
      }
    }

    method CopyFrom(start: nat, pending: seq<Item>) returns (r: seq<Item>, updated: bool)
      requires start <= |items|
      ensures r == pending + items[start..] && (updated <==> start < |items|)
    {
      var firstIndex := start;
      r, updated := pending, false;
      while firstIndex < |items|
        invariant start <= firstIndex <= |items| && r == pending + items[start..firstIndex]
        invariant updated <==> firstIndex > start
      {
        r := r + [items[firstIndex]];
        firstIndex := firstIndex + 1;
        updated := true;
      }
    }
  }
}
