/** What the cache holds on to: which nodes an operation may take out of the map, and for how long an error is
    answered, in terms of the nodes before and after. */
module LruRetention {
  import opened LruModel
  import opened LruRuns
  import opened Options

  // ----- Making room

  /** From `before` to `after` room was made for one more node: nothing goes while there are fewer than `limit`
      nodes, and otherwise one goes, exactly if one is not in flight. */
  ghost predicate RoomMade(before: map<Key, Node>, after: map<Key, Node>, limit: nat) {
    if |before| < limit || forall j :: j in before ==> before[j].waiters.Some? then after == before
    else exists j :: j in before && before[j].waiters.None? && after == before - {j}
  }

  lemma IdleIsQueued(s: State)
    requires Wf(s)
    ensures |s.nodes| == |s.lookup| <==> forall j :: j in s.nodes ==> s.nodes[j].waiters.Some?
  {
    assert s.eviction != [] ==> s.eviction[0] in s.eviction;
    assert s.errored != [] ==> s.errored[0] in s.errored;
  }

  lemma VictimIsIdle(s: State, now: Time)
    requires Wf(s)
    ensures var v := Victim(s, now, true);
            if v.Some? then s.nodes[v.value].waiters.None? && EvictOne(s, now).nodes == s.nodes - {v.value}
            else EvictOne(s, now) == s && forall j :: j in s.nodes ==> s.nodes[j].waiters.Some?
  {
    IdleIsQueued(s);
    assert s.eviction != [] ==> s.eviction[0] in s.eviction;
    assert s.errored != [] ==> s.errored[0] in s.errored;
  }

  lemma RoomIsMade(s: State, now: Time)
    requires Wf(s)
    ensures RoomMade(s.nodes, MakeRoom(s, now).nodes, s.maxItems)
  {
    hide Wf, Victim;
    VictimIsIdle(s, now);
  }

  /** A node is answered with: it is there, and not an error whose time is over. */
  predicate Answered(s: State, k: Key, now: Time) {
    k in s.nodes && !(s.nodes[k].result.Failure? && s.nodes[k].deadline <= now)
  }

  /** set puts a new value under the key. Of the other nodes none goes while they are fewer than `maxItems`, and
      otherwise one, exactly if one is not in flight. */
  lemma SetMakesRoom(s: State, k: Key, v: Value, now: Time)
    requires Wf(s)
    ensures var t := Put(s, k, v, now);
            && k in t.nodes && t.nodes[k] == Node(s.nextNode, Success(v), None, 0)
            && RoomMade(s.nodes - {k}, t.nodes - {k}, s.maxItems)
  {
    hide Wf, MakeRoom;
    var u := Vacate(s, k);
    VacateKeeps(s, k);
    RoomIsMade(u, now);
    assert k !in MakeRoom(u, now).nodes;
    assert Put(s, k, v, now).nodes - {k} == MakeRoom(u, now).nodes;
  }

  lemma VacateKeeps(s: State, k: Key)
    requires Wf(s)
    ensures Vacate(s, k).nodes == s.nodes - {k} && Vacate(s, k).maxItems == s.maxItems
    ensures Vacate(s, k).nextNode == s.nextNode && Vacate(s, k).nextPromise == s.nextPromise
  {}

  /** The getter form of get answers with a node that is there and starts a lookup otherwise. A lookup makes room as
      set does; an answer leaves every node alone, save for one more promise on a lookup in flight. */
  lemma LookupMakesRoom(s: State, k: Key, now: Time)
    requires Wf(s)
    ensures var (t, f) := AsyncGet(s, k, now);
            if !Answered(s, k, now) then
              && f == Started(s.nextNode, s.nextPromise)
              && k in t.nodes && t.nodes[k] == Node(s.nextNode, Empty, Some([s.nextPromise]), 0)
              && RoomMade(s.nodes - {k}, t.nodes - {k}, s.maxItems)
            else if s.nodes[k].waiters.Some? then
              && f == Shared(s.nodes[k].id, s.nextPromise)
              && t.nodes == s.nodes[k := s.nodes[k].(waiters := Some(s.nodes[k].waiters.value + [s.nextPromise]))]
            else f == Ready(s.nodes[k].id) && t.nodes == s.nodes
  {
    hide Wf, MakeRoom, Touch;
    if !Answered(s, k, now) {
      var u := Vacate(Loaded(s), k);
      VacateKeeps(Loaded(s), k);
      RoomIsMade(u, now);
      assert k !in MakeRoom(u, now).nodes;
      assert AsyncGet(s, k, now).0.nodes - {k} == MakeRoom(u, now).nodes;
    }
  }

  /** The direct get answers with a node that is there, refuses one in flight, and takes out an error whose time is
      over; it changes no other node. */
  lemma GetTakesOnlyExpired(s: State, k: Key, now: Time)
    requires Wf(s)
    ensures var (t, r) := Get(s, k, now);
            if !Answered(s, k, now) then r == Missing && t.nodes == s.nodes - {k}
            else t.nodes == s.nodes && r == if s.nodes[k].waiters.Some? then Mixed else Hit(s.nodes[k].id)
  {
    hide Wf, Touch;
    VacateKeeps(Loaded(s), k);
  }

  // ----- Completion

  lemma {:induction false} ExcessGoes(s: State, now: Time)
    requires Wf(s)
    ensures var t := EvictExcess(s, now);
            && |t.nodes| == (if |s.nodes| <= s.maxItems then |s.nodes| else Max(s.maxItems, |s.lookup|))
            && (|s.nodes| <= s.maxItems ==> t == s)
    decreases |s.nodes|
  {
    hide Wf, Victim;
    EvictOneTrims(s, now, map[], 0);
    LookupsFit(s);
    if |s.nodes| > s.maxItems && Victim(s, now, true).Some? {
      LookupsFit(EvictOne(s, now));
      ExcessGoes(EvictOne(s, now), now);
    }
  }

  lemma LookupsFit(s: State)
    requires Wf(s)
    ensures |s.lookup| <= |s.nodes|
  {}

  /** A completion stores the outcome. It evicts nothing while the map is within `maxItems`, and otherwise exactly as
      many nodes as it takes to get there, or all that are not in flight. What stays is as it was. */
  lemma CompletionKeeps(s: State, k: Key, r: Try, now: Time)
    requires Wf(s) && k in s.lookup && !r.Empty?
    ensures var t := Complete(s, k, r, now);
            var full := s.nodes[k := Node(s.nodes[k].id, r, None,
                                          if r.Failure? then now + s.errorTtl else s.nodes[k].deadline)];
            && (forall j :: j in t.nodes ==> j in full && t.nodes[j] == full[j])
            && (|s.nodes| <= s.maxItems ==> t.nodes == full)
            && |t.nodes| == (if |s.nodes| <= s.maxItems then |s.nodes| else Max(s.maxItems, |s.lookup| - 1))
  {
    hide Wf, Settle, EvictExcess;
    assert k in s.nodes by { KnownInFlight(s, k); }
    var u := Settle(s, k, r, now);
    SettleShape(s, k, r, now);
    WithoutOne(s, k);
    ExcessGoes(u, now);
    EvictExcessTrims(u, now, map[], 0);
  }

  lemma WithoutOne(s: State, k: Key)
    requires Wf(s) && k in s.lookup
    ensures |Without(s.lookup, k)| == |s.lookup| - 1
  {}

  // ----- The statistics

  /** From `s` to `t` as many nodes were evicted as are missing from `size`, all of them counted, and nothing else was
      counted but what made `s.stats` into `counted`. */
  predicate Books(s: State, t: State, size: nat, counted: Stats) {
    t.stats == counted.(evict := t.stats.evict) && |t.nodes| + t.stats.evict == size + s.stats.evict
  }

  /** A load counts as a hit, a share, a miss or, if it threw, as nothing more. */
  lemma GetIsCounted(s: State, k: Key, now: Time)
    requires Wf(s)
    ensures var (t, r) := Get(s, k, now); var st := s.stats.(load := s.stats.load + 1);
            Books(s, t, |s.nodes|, match r
                                   case Missing => st.(miss := st.miss + 1)
                                   case Mixed => st
                                   case Hit(_) => st.(hit := st.hit + 1))
  {
    hide Wf, Touch, Vacate;
    VacateSize(Loaded(s), k);
  }

  lemma AsyncGetIsCounted(s: State, k: Key, now: Time)
    requires Wf(s)
    ensures var (t, f) := AsyncGet(s, k, now); var st := s.stats.(load := s.stats.load + 1);
            match f
            case Started(_, _) => Books(s, t, |s.nodes| + 1, st.(miss := st.miss + 1))
            case Shared(_, _) => Books(s, t, |s.nodes|, st.(share := st.share + 1))
            case Ready(_) => Books(s, t, |s.nodes|, st.(hit := st.hit + 1))
  {
    hide Wf, Touch, Cleared, Begin, Subscribed;
    if !Answered(s, k, now) {
      UnusableIsIdle(s, k, now);
      ClearedTrims(Loaded(s), k, now, map[], 0);
      BeginCounts(Cleared(Loaded(s), k, now), k);
    } else if s.nodes[k].waiters.Some? {
      SharedCounts(Loaded(s), k);
    }
  }

  lemma BeginCounts(s: State, k: Key)
    requires Wf(s) && k !in s.nodes
    ensures Begin(s, k).stats == s.stats.(miss := s.stats.miss + 1) && |Begin(s, k).nodes| == |s.nodes| + 1
  {}

  lemma SharedCounts(s: State, k: Key)
    requires Wf(s) && k in s.nodes && s.nodes[k].waiters.Some?
    ensures Subscribed(s, k).stats == s.stats.(share := s.stats.share + 1) && |Subscribed(s, k).nodes| == |s.nodes|
  {
    SubscribedEffect(s, k);
  }

  lemma SetIsCounted(s: State, k: Key, v: Value, now: Time)
    requires Wf(s)
    ensures Books(s, Put(s, k, v, now), |s.nodes| + 1, s.stats.(store := s.stats.store + 1))
  {
    hide Wf, MakeRoom, Vacate, Stored;
    var u := Vacate(s, k);
    VacateSize(s, k);
    MakeRoomTrims(u, now, map[], 0);
    StoredCounts(MakeRoom(u, now), k, v);
  }

  lemma StoredCounts(s: State, k: Key, v: Value)
    requires Wf(s) && k !in s.nodes
    ensures Stored(s, k, v).stats == s.stats.(store := s.stats.store + 1) && |Stored(s, k, v).nodes| == |s.nodes| + 1
  {}

  lemma VacateSize(s: State, k: Key)
    requires Wf(s)
    ensures var u := Vacate(s, k);
            |u.nodes| + u.stats.evict == |s.nodes| + s.stats.evict && u.stats == s.stats.(evict := u.stats.evict)
  {}

  lemma CompletionIsCounted(s: State, k: Key, r: Try, now: Time)
    requires Wf(s) && k in s.lookup && !r.Empty?
    ensures Books(s, Complete(s, k, r, now), |s.nodes|, s.stats.(store := s.stats.store + 1))
  {
    hide Wf, Settle, EvictExcess;
    SettleShape(s, k, r, now);
    SettleCounts(s, k, r, now);
    EvictExcessTrims(Settle(s, k, r, now), now, map[], 0);
  }

  lemma SettleCounts(s: State, k: Key, r: Try, now: Time)
    requires Wf(s) && k in s.lookup && !r.Empty?
    ensures Settle(s, k, r, now).stats == s.stats.(store := s.stats.store + 1)
  {}

  lemma EraseIsCounted(s: State, k: Key)
    requires Wf(s)
    ensures var t := Erase(s, k);
            && t.nodes == s.nodes - {k}
            && t.stats == s.stats.(erase := s.stats.erase + if k in s.nodes then 1 else 0)
  {
    hide Wf;
    if k !in s.nodes { assert s.nodes - {k} == s.nodes; }
  }

  lemma ClearIsCounted(s: State)
    ensures var t := Clear(s);
            && t.nodes == map[] && t.lookup == t.eviction == t.errored == []
            && t.stats == Stats(0, 0, 0, 0, 0, 0, 0, s.stats.clears + 1)
  {}

  // ----- Who goes first

  /** The oldest error has had its time. */
  predicate Over(s: State, now: Time) {
    s.errored != [] && s.errored[0] in s.nodes
    && s.nodes[s.errored[0]].result.Failure? && s.nodes[s.errored[0]].deadline <= now
  }

  ghost predicate HasValue(s: State) {
    exists j :: j in s.nodes && s.nodes[j].waiters.None? && s.nodes[j].result.Success?
  }

  /** Eviction takes the oldest error if its time is over, else the value that was not used for longest, else, if it is
      forced, the oldest error all the same; and nothing if none of these is there. */
  lemma ErrorsThenValues(s: State, now: Time, force: bool)
    requires Wf(s)
    ensures var v := Victim(s, now, force);
            && (v.None? <==> !Over(s, now) && !HasValue(s) && !(force && s.errored != []))
            && (v.Some? ==>
                  var n := s.nodes[v.value];
                  && n.waiters.None?
                  && (n.result.Success? <==> !Over(s, now) && HasValue(s))
                  && v.value == if n.result.Success? then s.eviction[0] else s.errored[0])
  {
    assert s.eviction != [] ==> s.eviction[0] in s.eviction;
    assert s.errored != [] ==> s.errored[0] in s.errored;
  }

  // ----- How long an error lasts

  /** A lookup that failed is answered with its error until the time-to-live has passed since the lookup began, and
      begins anew after that, or if the error was evicted. */
  lemma ErrorLastsItsTime(w: World, k: Key, later: Time)
    requires Ledger(w) && Allowed(w, DoComplete(k, Failure))
    ensures var x := Step(w, DoComplete(k, Failure));
            && (AsyncGet(x.s, k, later).1.Started? <==>
                  k !in x.s.nodes || later >= w.started[k].now + w.s.errorTtl)
            && (|w.s.nodes| <= w.s.maxItems ==> k in x.s.nodes)
  {
    hide Wf, Complete, AsyncGet;
    CompletionKeeps(w.s, k, Failure, w.started[k].now);
    LookupMakesRoom(Step(w, DoComplete(k, Failure)).s, k, later);
  }
}
