/**
 * The account directory's name listing, `get_matching_users`: the
 * registered usernames, in the insertion order of the `users` dictionary,
 * that match a shell-style wildcard (`fnmatch.filter`).
 */
module DataStore {
  import opened Seqs

  /**
   * `fnmatch` on case-sensitive names: `star` matches any run (also an empty
   * one), `one` matches exactly one element, anything else only itself.
   */
  predicate GlobMatch<T(==)>(p: seq<T>, s: seq<T>, star: T, one: T)
    decreases |p| + |s|
  {
    if p == [] then s == []
    else if p[0] == star then GlobMatch(p[1..], s, star, one) || (s != [] && GlobMatch(p, s[1..], star, one))
    else s != [] && (p[0] == one || p[0] == s[0]) && GlobMatch(p[1..], s[1..], star, one)
  }

  /** A pattern that is a lone star matches every name. */
  lemma {:induction false} StarMatchesAll<T>(s: seq<T>, star: T, one: T)
    ensures GlobMatch([star], s, star, one)
  {
    if s != [] {
      StarMatchesAll(s[1..], star, one);
    }
  }

  /** A pattern without wildcards matches only itself. */
  lemma {:induction false} LiteralMatchesItself<T>(p: seq<T>, s: seq<T>, star: T, one: T)
    requires forall i :: 0 <= i < |p| ==> p[i] != star && p[i] != one
    ensures GlobMatch(p, s, star, one) <==> s == p
  {
    if p != [] && s != [] {
      LiteralMatchesItself(p[1..], s[1..], star, one);
      if s[0] == p[0] && s[1..] == p[1..] {
        assert s == [s[0]] + s[1..] && p == [p[0]] + p[1..];
      }
    }
  }

  /**
   * `fnmatch.filter(list(users.keys()), wildcard)`: exactly the registered
   * names that match, each once, in registration order.
   */
  function MatchingUsers<T(==)>(names: seq<seq<T>>, wildcard: seq<T>, star: T, one: T): (r: seq<seq<T>>)
    ensures forall i :: 0 <= i < |r| ==> r[i] in names && GlobMatch(wildcard, r[i], star, one)
    ensures forall i :: 0 <= i < |names| && GlobMatch(wildcard, names[i], star, one) ==> names[i] in r
    ensures IsSubsequence(r, names)
  {
    FilterIsSubsequence(names, n => GlobMatch(wildcard, n, star, one));
    Filter(names, n => GlobMatch(wildcard, n, star, one))
  }

  /** Python's `get_matching_users()` with its default pattern `"*"` lists every user. */
  lemma DefaultPatternListsAll(names: seq<string>)
    ensures MatchingUsers(names, "*", '*', '?') == names
  {
    forall n | n in names
      ensures GlobMatch("*", n, '*', '?')
    {
      StarMatchesAll(n, '*', '?');
    }
    FilterKeepAll(names, n => GlobMatch("*", n, '*', '?'));
  }

  /** Listing with `"a*"` after creating alice, adam and bob gives alice and adam, in that order. */
  lemma ListScenario()
    ensures MatchingUsers(["alice", "adam", "bob"], "a*", '*', '?') == ["alice", "adam"]
  {
    StarMatchesAll("lice", '*', '?');
    StarMatchesAll("dam", '*', '?');
    assert GlobMatch("a*", "alice", '*', '?');
    assert GlobMatch("a*", "adam", '*', '?');
    assert !GlobMatch("a*", "bob", '*', '?');
    assert ["alice", "adam", "bob"][1..] == ["adam", "bob"];
    assert ["adam", "bob"][1..] == ["bob"];
    assert ["bob"][1..] == [];
  }
}
