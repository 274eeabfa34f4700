/** CookieSync as an object: the loops of sync, removeCookieDir and abortAllCookies against the state machine. */
module CookieSync {
  import opened CookieModel

  /** sync throws when no file could be created, and its assertion fails when there is no directory at all. */
  datatype SyncResult = Cookies(id: nat) | CreateFailed | AssertionFails

  class CookieSync {
    const prefix: string
    var dirs: set<Path>
    var issued: nat
    var cookies: map<Path, nat>
    var table: seq<Cookie>

    constructor (prefix: string, dir: Path)
      requires CookiePrefix(prefix)
      ensures this.prefix == prefix && dirs == {dir} && cookies == map[] && Valid()
    {
      this.prefix, dirs, issued, cookies, table := prefix, {dir}, 0, map[], [];
    }

    /** Between calls every outstanding file is in the map. */
    ghost function Model(): State
      reads this
    {
      State(dirs, issued, map p | p in cookies :: File(cookies[p], Listed), table)
    }

    ghost predicate Valid()
      reads this
    {
      CookiePrefix(prefix) && Counted(Model())
    }

    /** Touches a file in every cookie directory; `failed` tells which creations fail. */
    method Sync(failed: set<Path>) returns (r: SyncResult)
      requires Valid()
      modifies this`issued, this`cookies, this`table
      ensures Model() == CookieModel.Sync(old(Model()), prefix, failed)
      ensures (Attempted(old(Model()), prefix) - failed) !! old(cookies).Keys ==> Valid()
      ensures r.AssertionFails? <==> dirs == {}
      ensures r.Cookies? <==> |table| > |old(table)|
      ensures r.Cookies? ==> r.id == |old(table)|
    {
      hide CookiePath, Counted, Outstanding;
      var serial := issued % SERIALS;
      issued := issued + 1;
      var numPending, made, lastError := Touch(dirs, serial, failed);
      FilesAre(dirs, serial);
      if made !! cookies.Keys { SyncKeepsCount(old(Model()), prefix, failed); }
      assert made == Attempted(old(Model()), prefix) - failed;
      if made == {} {
        return if lastError then CreateFailed else AssertionFails;
      }
      Insert(made);
      r := Cookies(|table|);
      table := table + [Cookie(numPending, Waiting)];
    }

    /** The map's insert: entries that are there already stay. */
    method Insert(made: set<Path>)
      modifies this`cookies
      ensures Model() == old(Model()).(files := (map p | p in made :: File(|table|, Listed)) + old(Model()).files)
    {
      cookies := (map p | p in made :: |table|) + cookies;
      assert Model().files == (map p | p in made :: File(|table|, Listed)) + old(Model()).files;
    }

    /** The loop over the cookie prefixes. The counter starts at their number and loses one per failure. */
    method Touch(todo: set<Path>, serial: nat, failed: set<Path>)
      returns (numPending: nat, made: set<Path>, lastError: bool)
      requires CookiePrefix(prefix)
      ensures made == Files(todo, serial) - failed
      ensures numPending == |made| && (made == {} ==> (lastError <==> todo != {}))
    {
      hide CookiePath, Files, Parts;
      numPending, made, lastError := |todo|, {}, false;
      var rest := todo;
      ghost var done := {};
      NoFiles(serial);
      AllToDo(todo);
      while rest != {}
        invariant Parts(todo, done, rest) && numPending == |made| + |rest|
        invariant made == Files(done, serial) - failed
        invariant made == {} ==> (lastError <==> done != {})
        decreases |rest|
      {
        var d :| d in rest;
        Move(todo, done, rest, d);
        OneMoreFile(done, d, serial, failed);
        rest, done := rest - {d}, done + {d};
        if CookiePath(d, prefix, serial) in failed {
          lastError := true;
          numPending := numPending - 1;
        } else {
          made := made + {CookiePath(d, prefix, serial)};
        }
      }
      AllDone(todo, done);
    }

    ghost predicate Parts(todo: set<Path>, done: set<Path>, rest: set<Path>) { done !! rest && done + rest == todo }

    lemma AllToDo(todo: set<Path>)
      ensures Parts(todo, {}, todo)
    {}

    lemma AllDone(todo: set<Path>, done: set<Path>)
      requires Parts(todo, done, {})
      ensures done == todo
    {}

    lemma Move(todo: set<Path>, done: set<Path>, rest: set<Path>, d: Path)
      requires Parts(todo, done, rest) && d in rest
      ensures Parts(todo, done + {d}, rest - {d}) && d !in done && |rest - {d}| == |rest| - 1
    {}

    /** The cookie files of some directories. */
    ghost function Files(ds: set<Path>, serial: nat): set<Path> { set d | d in ds :: CookiePath(d, prefix, serial) }

    lemma FilesAre(ds: set<Path>, serial: nat)
      ensures Files(ds, serial) == set d | d in ds :: CookiePath(d, prefix, serial)
    {}

    lemma NoFiles(serial: nat)
      ensures Files({}, serial) == {}
    {}

    lemma OneMoreFile(ds: set<Path>, d: Path, serial: nat, failed: set<Path>)
      requires CookiePrefix(prefix) && d !in ds
      ensures var path, was, now := CookiePath(d, prefix, serial), Files(ds, serial) - failed,
                                    Files(ds + {d}, serial) - failed;
              if path in failed then now == was else now == was + {path} && |now| == |was| + 1
    {
      hide CookiePath;
      PathIsNew(ds, d, serial);
      assert Files(ds + {d}, serial) == Files(ds, serial) + {CookiePath(d, prefix, serial)};
    }

    lemma PathIsNew(earlier: set<Path>, d: Path, serial: nat)
      requires CookiePrefix(prefix) && d !in earlier
      ensures CookiePath(d, prefix, serial) !in (set e | e in earlier :: CookiePath(e, prefix, serial))
    {
      hide CookiePath;
      forall e | e in earlier
        ensures CookiePath(e, prefix, serial) != CookiePath(d, prefix, serial)
      {
        if CookiePath(e, prefix, serial) == CookiePath(d, prefix, serial) {
          PathIsInjective(e, d, prefix, serial, serial);
          assert false;
        }
      }
    }

    /** One file is no longer outstanding: erase and notify, or erase and abort. */
    method Complete(path: Path, how: Outcome)
      requires Valid() && path in cookies && how != Waiting
      modifies this`cookies, this`table
      ensures Valid() && cookies == old(cookies) - {path}
      ensures |table| == |old(table)| && forall i :: 0 <= i < |table| ==> Completed(old(table)[i], table[i], how)
    {
      RetireKeepsCount(Model(), path, how);
      var id := cookies[path];
      table := table[id := Decremented(table[id], how)];
      cookies := cookies - {path};
      assert Model() == Retire(old(Model()), path, how);
    }

    method NotifyCookie(path: Path)
      requires Valid()
      modifies this`cookies, this`table
      ensures Valid() && cookies == old(cookies) - {path}
      ensures |table| == |old(table)| && forall i :: 0 <= i < |table| ==> Completed(old(table)[i], table[i], Fulfilled)
    {
      if path in cookies {
        Complete(path, Fulfilled);
      } else {
        assert cookies == cookies - {path};
      }
    }

    /** Cancels every file whose path starts with the directory's name, as if it had been observed. */
    method RemoveCookieDir(dir: Path)
      requires Valid()
      modifies this`dirs, this`cookies, this`table
      ensures Valid() && dirs == old(dirs) - {dir}
      ensures cookies == map p | p in old(cookies) && !(dir <= p) :: old(cookies)[p]
      ensures |table| == |old(table)| && forall i :: 0 <= i < |table| ==> Completed(old(table)[i], table[i], Fulfilled)
    {
      hide Counted;
      dirs := dirs - {dir};
      NewDirs();
      var todo := set p | p in cookies && dir <= p;
      while todo != {}
        invariant Valid() && dirs == old(dirs) - {dir}
        invariant forall p :: p in todo <==> p in cookies && dir <= p
        invariant forall p :: p in cookies ==> p in old(cookies) && cookies[p] == old(cookies)[p]
        invariant forall p :: p in old(cookies) && !(dir <= p) ==> p in cookies
        invariant |table| == |old(table)|
        invariant forall i :: 0 <= i < |table| ==> Completed(old(table)[i], table[i], Fulfilled)
        decreases |todo|
      {
        var p :| p in todo;
        Complete(p, Fulfilled);
        todo := todo - {p};
      }
      assert forall p :: p in cookies ==> p !in todo && !(dir <= p);
    }

    twostate lemma NewDirs()
      requires old(Valid()) && cookies == old(cookies) && table == old(table) && issued == old(issued)
      ensures Valid()
    {
      MoveKeepsCount(old(Model()), Model());
    }

    /** Every promise that is still open is aborted. */
    method AbortAllCookies()
      requires Valid()
      modifies this`cookies, this`table
      ensures Valid() && cookies == map[]
      ensures |table| == |old(table)|
      ensures forall i :: 0 <= i < |table| ==>
                table[i] == if old(table)[i].outcome == Waiting then Cookie(0, Aborted) else old(table)[i]
    {
      hide Counted;
      OpenIsPending();
      while cookies != map[]
        invariant Valid()
        invariant |table| == |old(table)|
        invariant forall i :: 0 <= i < |table| ==> Completed(old(table)[i], table[i], Aborted)
        decreases |cookies|
      {
        var p :| p in cookies;
        Complete(p, Aborted);
      }
      NoneOpen(old(table));
    }

    lemma OpenIsPending()
      requires Valid()
      ensures forall i :: 0 <= i < |table| ==> (table[i].outcome == Waiting <==> table[i].numPending > 0)
    {}

    lemma NoneOpen(was: seq<Cookie>)
      requires Valid() && cookies == map[] && |was| == |table|
      requires forall i :: 0 <= i < |table| ==> Completed(was[i], table[i], Aborted)
      requires forall i :: 0 <= i < |table| ==> (was[i].outcome == Waiting <==> was[i].numPending > 0)
      ensures forall i :: 0 <= i < |table| ==>
                table[i] == if was[i].outcome == Waiting then Cookie(0, Aborted) else was[i]
    {
      forall i | 0 <= i < |table|
        ensures table[i].numPending == 0
      {
        assert Outstanding(Model(), i) == {};
      }
    }
  }

  /** A cookie after some decrements: completed if they took an open one to zero, and only then. */
  predicate Completed(was: Cookie, now: Cookie, how: Outcome) {
    && now.numPending <= was.numPending
    && (now.numPending == was.numPending ==> now == was)
    && now.outcome == (if was.numPending > 0 && now.numPending == 0 then how else was.outcome)
  }
}
