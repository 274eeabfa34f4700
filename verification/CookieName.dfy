/** The marker in the names of sync cookie files, and the test for it, of Cookie.h. */
module CookieName {

  const COOKIE_PREFIX: string := ".watchman-cookie-"

  /** isPossiblyACookie: the marker occurs anywhere in the path. */
  predicate PossiblyACookie(path: string) {
    COOKIE_PREFIX <= path || (path != "" && PossiblyACookie(path[1..]))
  }

  /** The marker stands at position i of the path. */
  predicate MarkedAt(path: string, i: nat) { i <= |path| && COOKIE_PREFIX <= path[i..] }

  lemma {:induction false} MarkerIsFound(path: string)
    ensures PossiblyACookie(path) <==> exists i: nat :: MarkedAt(path, i)
  {
    if COOKIE_PREFIX <= path {
      assert path[0..] == path && MarkedAt(path, 0);
    } else if path != "" {
      MarkerIsFound(path[1..]);
      if i: nat :| MarkedAt(path[1..], i) {
        assert path[1..][i..] == path[i + 1..];
        assert MarkedAt(path, i + 1);
      }
      if i: nat :| MarkedAt(path, i) {
        assert i > 0 by { assert path[0..] == path; }
        assert path[1..][i - 1..] == path[i..];
        assert MarkedAt(path[1..], i - 1);
      }
    }
  }
}
