/** The recency list of InMemoryView.cpp as a value: the most recently changed file first. */
module ViewModel {
  import opened Filters

  type Name = string

  datatype Stamp = Stamp(ticks: nat, timestamp: int)

  datatype Entry = Entry(name: Name, present: bool, otime: Stamp)

  datatype View = View(list: seq<Entry>, tick: nat, lastAgeOut: nat)

  ghost predicate Distinct(list: seq<Entry>) {
    forall i, j :: 0 <= i < j < |list| ==> list[i].name != list[j].name
  }

  /** Most recent tick first. */
  ghost predicate Ordered(list: seq<Entry>) {
    forall i, j :: 0 <= i < j < |list| ==> list[j].otime.ticks <= list[i].otime.ticks
  }

  ghost predicate Wf(v: View) {
    && Distinct(v.list) && Ordered(v.list)
    && (forall e :: e in v.list ==> e.otime.ticks <= v.tick)
    && v.lastAgeOut <= v.tick
  }

  function Names(list: seq<Entry>): set<Name> { set e | e in list :: e.name }

  function Existing(list: seq<Entry>): set<Name> { set e | e in list && e.present :: e.name }

  // ----- Changes

  lemma FilterKeepsOrder(list: seq<Entry>, keep: Entry -> bool)
    requires Distinct(list) && Ordered(list)
    ensures Distinct(Filter(list, keep)) && Ordered(Filter(list, keep))
  {
    var apart := (d: Entry, e: Entry) => d.name != e.name;
    var newer := (d: Entry, e: Entry) => e.otime.ticks <= d.otime.ticks;
    assert Pairwise(list, apart) && Pairwise(list, newer);
    FilterPairwise(list, keep, apart);
    FilterPairwise(list, keep, newer);
    var r := Filter(list, keep);
    assert forall i, j :: 0 <= i < j < |r| ==> apart(r[i], r[j]) && newer(r[i], r[j]);
  }

  function NotNamed(name: Name): Entry -> bool { (e: Entry) => e.name != name }

  function Without(list: seq<Entry>, name: Name): seq<Entry> { Filter(list, NotNamed(name)) }

  /** A file is found to have changed: it moves to the head with the current tick. */
  function Changed(v: View, name: Name, present: bool, timestamp: int): (r: View)
    ensures Wf(v) ==> Wf(r)
  {
    var rest := Without(v.list, name);
    assert Wf(v) ==> Distinct(rest) && Ordered(rest) by {
      if Wf(v) { FilterKeepsOrder(v.list, NotNamed(name)); }
    }
    assert forall j :: 0 <= j < |rest| ==> rest[j] in rest;
    v.(list := [Entry(name, present, Stamp(v.tick, timestamp))] + rest)
  }

  /** The changed file is at the head, with what was seen and the current tick; the others are as they were. */
  lemma ChangeShows(v: View, name: Name, present: bool, timestamp: int)
    ensures var r := Changed(v, name, present, timestamp);
            && r.list != [] && r.list[0] == Entry(name, present, Stamp(v.tick, timestamp))
            && (forall e :: e in r.list && e.name != name <==> e in v.list && e.name != name)
            && (forall i :: 0 < i < |r.list| ==> r.list[i].name != name)
            && r.tick == v.tick && r.lastAgeOut == v.lastAgeOut
  {
    var rest := Without(v.list, name);
    var r := Changed(v, name, present, timestamp);
    assert forall e :: e in r.list <==> e == r.list[0] || e in rest;
    assert forall i :: 0 < i < |r.list| ==> r.list[i] == rest[i - 1] && rest[i - 1] in rest;
  }

  // ----- Age-out

  /** Deleted, and not changed after the horizon (now - minAge). */
  predicate Stale(e: Entry, horizon: int) { !e.present && e.otime.timestamp <= horizon }

  function Max(a: nat, b: nat): nat { if a < b then b else a }

  function NotStale(horizon: int): Entry -> bool { (e: Entry) => !Stale(e, horizon) }

  function Kept(list: seq<Entry>, horizon: int): seq<Entry> { Filter(list, NotStale(horizon)) }

  /** `sofar` or the latest tick of a stale entry. */
  function LatestStale(list: seq<Entry>, horizon: int, sofar: nat): (r: nat)
    ensures sofar <= r
    ensures forall e :: e in list && Stale(e, horizon) ==> e.otime.ticks <= r
    ensures r == sofar || exists e :: e in list && Stale(e, horizon) && r == e.otime.ticks
  {
    if list == [] then sofar
    else
      LatestStale(list[1..], horizon,
                  if Stale(list[0], horizon) then Max(sofar, list[0].otime.ticks) else sofar)
  }

  /** The walk of ageOut. It restarts from the last entry it kept; when the head itself goes there is none,
      and the walk is over. */
  function AgedOut(v: View, horizon: int): (r: View)
    ensures Wf(v) ==> Wf(r)
    ensures Existing(r.list) == Existing(v.list) && v.lastAgeOut <= r.lastAgeOut && r.tick == v.tick
    ensures forall e :: e in r.list ==> e in v.list
    ensures forall e :: e in v.list && e !in r.list ==> !e.present && e.otime.ticks <= r.lastAgeOut
  {
    if v.list == [] then v
    else if Stale(v.list[0], horizon) then
      assert forall e :: e in v.list <==> e == v.list[0] || e in v.list[1..];
      v.(list := v.list[1..], lastAgeOut := Max(v.lastAgeOut, v.list[0].otime.ticks))
    else
      assert Wf(v) ==> Wf(v.(list := Kept(v.list, horizon))) by {
        if Wf(v) { FilterKeepsOrder(v.list, NotStale(horizon)); }
      }
      v.(list := Kept(v.list, horizon), lastAgeOut := LatestStale(v.list, horizon, v.lastAgeOut))
  }

  /** A head that exists or changed after the horizon: what goes is exactly what is deleted and did not change after it,
      and the age-out tick rises to the latest tick that went. A deleted head that did not: exactly the head goes. */
  lemma AgeOutForgets(v: View, horizon: int)
    requires v.list != [] && Distinct(v.list)
    ensures var head, r := v.list[0], AgedOut(v, horizon);
            if head.present || head.otime.timestamp > horizon then
              && (forall e :: e in r.list <==> e in v.list && (e.present || e.otime.timestamp > horizon))
              && (forall e :: e in v.list && e !in r.list ==> e.otime.ticks <= r.lastAgeOut)
              && v.lastAgeOut <= r.lastAgeOut
              && (r.lastAgeOut == v.lastAgeOut
                  || exists e :: e in v.list && e !in r.list && e.otime.ticks == r.lastAgeOut)
            else
              && r.list == v.list[1..] && head !in r.list
              && r.lastAgeOut == if v.lastAgeOut < head.otime.ticks then head.otime.ticks else v.lastAgeOut
  {
    assert v.list[0] in v.list;
    assert forall e :: e in v.list[1..] ==> e in v.list;
  }

  /** A deletion after the horizon is not forgotten. */
  lemma RecentDeletionStays(v: View, horizon: int, e: Entry)
    requires Distinct(v.list) && e in v.list && e.otime.timestamp > horizon
    ensures e in AgedOut(v, horizon).list
  {
    hide AgedOut;
    AgeOutForgets(v, horizon);
  }

  // ----- Generators

  /** The walk of timeGenerator: from the head, until an entry is not newer than t. */
  function ChangedSince(list: seq<Entry>, t: nat): (r: seq<Entry>)
    ensures r <= list
  {
    if list == [] || list[0].otime.ticks <= t then []
    else [list[0]] + ChangedSince(list[1..], t)
  }

  /** On an ordered list the early exit misses nothing and reports nothing else. */
  lemma {:induction false} EarlyExitIsExact(list: seq<Entry>, t: nat)
    requires Ordered(list)
    ensures forall e :: e in ChangedSince(list, t) <==> e in list && t < e.otime.ticks
  {
    if list != [] {
      assert forall e :: e in list <==> e == list[0] || e in list[1..];
      if t < list[0].otime.ticks {
        EarlyExitIsExact(list[1..], t);
      } else {
        assert forall j :: 0 <= j < |list| ==> list[j].otime.ticks <= list[0].otime.ticks;
      }
    }
  }
}
