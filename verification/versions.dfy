/** The unanchored path filter the out command delegates to: compile the
    pattern, then keep, in walk order, every path it matches somewhere. */
module Versions {
  import opened Types
  import opened Regex

  /** The paths of `paths` that `pattern` matches, in their original order. */
  function Matching(re: Engine, paths: seq<string>, pattern: string): (r: seq<string>)
    ensures |r| <= |paths|
    ensures forall i :: 0 <= i < |r| ==> r[i] in paths && MatchString(re, pattern, r[i])
  {
    if paths == [] then []
    else
      (if MatchString(re, pattern, paths[0]) then [paths[0]] else [])
      + Matching(re, paths[1..], pattern)
  }

  /** The matching paths, or the compile error of an invalid pattern. */
  function MatchUnanchored(re: Engine, paths: seq<string>, pattern: string): (r: Result<seq<string>, Error>)
    ensures r.Err? <==> !re.compiles(pattern)
    ensures r.Err? ==> r.error == InvalidPattern(pattern)
    ensures r.Ok? ==> forall p :: p in r.value <==> p in paths && MatchString(re, pattern, p)
  {
    if !re.compiles(pattern) then Err(InvalidPattern(pattern))
    else
      MatchingMembers(re, paths, pattern);
      Ok(Matching(re, paths, pattern))
  }

  /** A path survives the filter exactly when it was walked and matches. */
  lemma {:induction false} MatchingMembers(re: Engine, paths: seq<string>, pattern: string)
    ensures forall p :: p in Matching(re, paths, pattern) <==> p in paths && MatchString(re, pattern, p)
  {
    if paths != [] {
      MatchingMembers(re, paths[1..], pattern);
      assert paths == [paths[0]] + paths[1..];
    }
  }

  /** The filter keeps order: filtering a concatenation concatenates the results. */
  lemma {:induction false} MatchingAppend(re: Engine, a: seq<string>, b: seq<string>, pattern: string)
    ensures Matching(re, a + b, pattern) == Matching(re, a, pattern) + Matching(re, b, pattern)
  {
    if a == [] {
      assert a + b == b;
    } else {
      assert (a + b)[1..] == a[1..] + b;
      MatchingAppend(re, a[1..], b, pattern);
    }
  }

  /** Each path occurs among the matches as often as it was walked, if it
      matches, and not at all otherwise. */
  lemma {:induction false} MatchingMultiplicity(re: Engine, paths: seq<string>, pattern: string, p: string)
    ensures multiset(Matching(re, paths, pattern))[p]
         == if MatchString(re, pattern, p) then multiset(paths)[p] else 0
  {
    if paths != [] {
      MatchingMultiplicity(re, paths[1..], pattern, p);
      assert paths == [paths[0]] + paths[1..];
    }
  }

  /** Walking the same paths in another order yields the same matches, up to order. */
  lemma MatchingPermutation(re: Engine, a: seq<string>, b: seq<string>, pattern: string)
    requires multiset(a) == multiset(b)
    ensures multiset(Matching(re, a, pattern)) == multiset(Matching(re, b, pattern))
    ensures |Matching(re, a, pattern)| == |Matching(re, b, pattern)|
  {
    forall p
      ensures multiset(Matching(re, a, pattern))[p] == multiset(Matching(re, b, pattern))[p]
    {
      MatchingMultiplicity(re, a, pattern, p);
      MatchingMultiplicity(re, b, pattern, p);
    }
    assert multiset(Matching(re, a, pattern)) == multiset(Matching(re, b, pattern));
    assert |multiset(Matching(re, a, pattern))| == |multiset(Matching(re, b, pattern))|;
  }
}
