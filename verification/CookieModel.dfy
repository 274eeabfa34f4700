/** The sync cookies of CookieSync.cpp as a state machine: every lock section and every atomic decrement is a
    step of its own. */
module CookieModel {
  import opened CookieName

  type Path = string

  datatype Outcome = Waiting | Fulfilled | Aborted

  /** One call of sync: how many of its cookie files are outstanding, and what its promise holds. */
  datatype Cookie = Cookie(numPending: nat, outcome: Outcome)

  /** Where an outstanding cookie file is: in the map, taken out by notifyCookie, or swapped out by
      abortAllCookies; in the last two cases its decrement is still to come. */
  datatype Stage = Listed | Taken | Swapped

  datatype File = File(cookie: nat, stage: Stage)

  /** `files`: the outstanding cookie files. `table`: the cookies, by number. */
  datatype State = State(dirs: set<Path>, issued: nat, files: map<Path, File>, table: seq<Cookie>)

  // ----- Cookie paths

  /** The serial number is a uint32_t. */
  const SERIALS: nat := 0x1_0000_0000

  function Digit(n: nat): char
    requires n < 10
  {
    "0123456789"[n]
  }

  function Decimal(n: nat): (r: string)
    ensures r != "" && forall i :: 0 <= i < |r| ==> r[i] != '-'
  {
    if n < 10 then [Digit(n)] else Decimal(n / 10) + [Digit(n % 10)]
  }

  lemma {:induction false} DecimalIsInjective(m: nat, n: nat)
    requires Decimal(m) == Decimal(n)
    ensures m == n
  {
    var d := Decimal(m);
    assert d[|d| - 1] == Digit(m % 10) == Digit(n % 10);
    if m >= 10 && n >= 10 {
      assert Decimal(m / 10) == d[..|d| - 1] == Decimal(n / 10);
      DecimalIsInjective(m / 10, n / 10);
    }
  }

  /** The marker, then host "-" pid "-". */
  predicate CookiePrefix(prefix: string) {
    COOKIE_PREFIX <= prefix && prefix != "" && prefix[|prefix| - 1] == '-'
  }

  function CookiePath(dir: Path, prefix: string, serial: nat): Path { dir + "/" + prefix + Decimal(serial) }

  /** A cookie file's name determines its directory and its serial. */
  lemma PathIsInjective(d: Path, e: Path, prefix: string, m: nat, n: nat)
    requires CookiePrefix(prefix) && CookiePath(d, prefix, m) == CookiePath(e, prefix, n)
    ensures d == e && m == n
  {
    var a, b := d + "/" + prefix, e + "/" + prefix;
    var p := CookiePath(d, prefix, m);
    LastDash(a, Decimal(m), b, Decimal(n));
    DecimalIsInjective(m, n);
    assert d == a[..|a| - |prefix| - 1] && e == b[..|b| - |prefix| - 1];
  }

  lemma LastDash(a: string, s: string, b: string, t: string)
    requires a != "" && a[|a| - 1] == '-' && b != "" && b[|b| - 1] == '-' && a + s == b + t
    requires forall i :: 0 <= i < |s| ==> s[i] != '-'
    requires forall i :: 0 <= i < |t| ==> t[i] != '-'
    ensures a == b && s == t
  {
    var x := a + s;
    assert forall i :: |a| <= i < |x| ==> x[i] == s[i - |a|];
    assert forall i :: |b| <= i < |x| ==> x[i] == t[i - |b|];
    assert x[|a| - 1] == (b + t)[|a| - 1] && x[|b| - 1] == (b + t)[|b| - 1];
    assert a == (a + s)[..|a|] && b == (b + t)[..|b|] && s == (a + s)[|a|..] && t == (b + t)[|b|..];
  }

  // ----- Steps

  /** fetch_sub on the counter; whoever takes it to zero completes the promise. */
  function Decremented(c: Cookie, how: Outcome): Cookie
    requires c.numPending > 0
  {
    Cookie(c.numPending - 1, if c.numPending == 1 then how else c.outcome)
  }

  /** The files a sync touches, and those of them it creates. */
  function Attempted(s: State, prefix: string): set<Path> {
    set d | d in s.dirs :: CookiePath(d, prefix, s.issued % SERIALS)
  }

  /** sync, with the files whose creation fails. When none is created it throws and no cookie remains; the map's
      insert leaves an entry that is already there alone. */
  function Sync(s: State, prefix: string, failed: set<Path>): State {
    var created := Attempted(s, prefix) - failed;
    if created == {} then s.(issued := s.issued + 1)
    else
      s.(issued := s.issued + 1,
         files := (map p | p in created :: File(|s.table|, Listed)) + s.files,
         table := s.table + [Cookie(|created|, Waiting)])
  }

  predicate IsAt(s: State, path: Path, stage: Stage) { path in s.files && s.files[path].stage == stage }

  /** The lock section of notifyCookie. */
  function Take(s: State, path: Path): State {
    if IsAt(s, path, Listed) then s.(files := s.files[path := s.files[path].(stage := Taken)]) else s
  }

  /** The lock section of abortAllCookies. */
  function Swap(s: State): State {
    s.(files := map p | p in s.files ::
                  s.files[p].(stage := if s.files[p].stage == Listed then Swapped else s.files[p].stage))
  }

  /** A file is served or aborted: its cookie is decremented, and it is no longer outstanding. */
  function Retire(s: State, path: Path, how: Outcome): State
    requires path in s.files && s.files[path].cookie < |s.table| && s.table[s.files[path].cookie].numPending > 0
  {
    var id := s.files[path].cookie;
    s.(files := s.files - {path}, table := s.table[id := Decremented(s.table[id], how)])
  }

  // ----- Counting

  ghost function Outstanding(s: State, id: nat): set<Path> {
    set p | p in s.files && s.files[p].cookie == id
  }

  /** Each counter is the number of outstanding files, and a promise is open exactly while there are any. */
  ghost predicate Counted(s: State) {
    && (forall p :: p in s.files ==> s.files[p].cookie < |s.table|)
    && (forall id :: 0 <= id < |s.table| ==>
          && s.table[id].numPending == |Outstanding(s, id)|
          && (s.table[id].outcome == Waiting <==> s.table[id].numPending > 0))
  }

  lemma OutstandingIsPositive(s: State, path: Path)
    requires Counted(s) && path in s.files
    ensures s.files[path].cookie < |s.table| && s.table[s.files[path].cookie].numPending > 0
  {
    assert path in Outstanding(s, s.files[path].cookie);
  }

  lemma SyncKeepsCount(s: State, prefix: string, failed: set<Path>)
    requires Counted(s) && (Attempted(s, prefix) - failed) !! s.files.Keys
    ensures Counted(Sync(s, prefix, failed))
  {
    var r := Sync(s, prefix, failed);
    var created := Attempted(s, prefix) - failed;
    if created != {} {
      assert Outstanding(r, |s.table|) == created;
      CreatedSome(created);
      forall id | 0 <= id < |s.table|
        ensures Outstanding(r, id) == Outstanding(s, id)
      {}
    }
  }

  lemma CreatedSome(created: set<Path>)
    requires created != {}
    ensures |created| > 0
  {}

  lemma MoveKeepsCount(s: State, r: State)
    requires Counted(s) && r.table == s.table && r.files.Keys == s.files.Keys
    requires forall p :: p in s.files ==> r.files[p].cookie == s.files[p].cookie
    ensures Counted(r)
  {
    forall id | 0 <= id < |s.table|
      ensures Outstanding(r, id) == Outstanding(s, id)
    {}
  }

  lemma RetireKeepsCount(s: State, path: Path, how: Outcome)
    requires Counted(s) && path in s.files && how != Waiting
    ensures s.files[path].cookie < |s.table| && s.table[s.files[path].cookie].numPending > 0
    ensures s.table[s.files[path].cookie].outcome == Waiting
    ensures Counted(Retire(s, path, how))
  {
    OutstandingIsPositive(s, path);
    var r := Retire(s, path, how);
    var id := s.files[path].cookie;
    assert Outstanding(r, id) == Outstanding(s, id) - {path};
    forall k | 0 <= k < |s.table| && k != id
      ensures Outstanding(r, k) == Outstanding(s, k)
    {}
  }
}
