/** The slash-separated path and string helpers the out command relies on
    (Go's `strings.HasSuffix`, `strings.TrimPrefix`, `filepath.Base` and
    `filepath.Join`), for Unix paths. */
module Paths {

  /** `s` ends with `suffix`. */
  predicate HasSuffix(s: string, suffix: string) {
    |suffix| <= |s| && s[|s| - |suffix|..] == suffix
  }

  /** `s` without its leading `prefix`, or `s` itself when it does not start with it. */
  function TrimPrefix(s: string, prefix: string): (r: string)
    ensures prefix <= s ==> prefix + r == s
    ensures !(prefix <= s) ==> r == s
  {
    if prefix <= s then s[|prefix|..] else s
  }

  /** `p` with every trailing '/' removed. */
  function TrimTrailingSlashes(p: string): (r: string)
    ensures r <= p
    ensures r == "" || r[|r| - 1] != '/'
    ensures forall i :: |r| <= i < |p| ==> p[i] == '/'
  {
    if p != "" && p[|p| - 1] == '/' then TrimTrailingSlashes(p[..|p| - 1]) else p
  }

  /** The part of `p` after its last '/', or all of `p` when it has none. */
  function AfterLastSlash(p: string): (r: string)
    ensures '/' !in r
    ensures |r| <= |p| && r == p[|p| - |r|..]
    ensures |r| < |p| ==> p[|p| - |r| - 1] == '/'
  {
    if p == "" then ""
    else if p[|p| - 1] == '/' then ""
    else AfterLastSlash(p[..|p| - 1]) + [p[|p| - 1]]
  }

  /** The last element of `p`: trailing slashes are dropped first; the empty
      path gives "." and a path made only of slashes gives "/". */
  function Base(p: string): (r: string)
    ensures r != ""
    ensures r == "/" || '/' !in r
    ensures p == "" ==> r == "."
    ensures p != "" && '/' !in p ==> r == p
    ensures p != "" && r != "/" ==>
              var q := TrimTrailingSlashes(p);
              HasSuffix(q, r) && (|r| == |q| || q[|q| - |r| - 1] == '/')
  {
    if p == "" then "."
    else
      var q := TrimTrailingSlashes(p);
      if q == "" then "/"
      else
        assert q[|q| - 1] != '/';
        AfterLastSlash(q)
  }

  /** `dir` and `name` joined by one '/'; an empty `dir` gives `name` alone.
      Unlike Go's filepath.Join, the result is not passed through Clean. */
  function Join(dir: string, name: string): (r: string)
    ensures dir == "" ==> r == name
    ensures dir <= r && HasSuffix(r, name)
  {
    if dir == "" then name
    else if HasSuffix(dir, "/") then dir + name
    else dir + "/" + name
  }

  /** The name after the last '/' of `dir + name` is `name` itself, when
      `dir` is empty or ends with '/' and `name` holds no '/'. */
  lemma {:induction false} AfterLastSlashOfAppend(dir: string, name: string)
    requires dir == "" || dir[|dir| - 1] == '/'
    requires '/' !in name
    ensures AfterLastSlash(dir + name) == name
    decreases |name|
  {
    if name == "" {
      assert dir + name == dir;
    } else {
      var init, c := name[..|name| - 1], name[|name| - 1];
      var joined := dir + name;
      assert name == init + [c];
      assert c != '/' by { assert c in name; }
      assert joined[|joined| - 1] == c;
      assert joined[..|joined| - 1] == dir + init;
      AfterLastSlashOfAppend(dir, init);
    }
  }

  /** Joining a plain name under a folder keeps that name as the base name. */
  lemma BaseOfJoin(dir: string, name: string)
    requires dir == "" || HasSuffix(dir, "/")
    requires name != "" && '/' !in name
    ensures Base(Join(dir, name)) == name
  {
    var j := Join(dir, name);
    assert j == dir + name;
    assert j[|j| - 1] == name[|name| - 1];
    assert TrimTrailingSlashes(j) == j;
    AfterLastSlashOfAppend(dir, name);
  }

  /** A file put in a folder keeps its base name, unless that base name is
      the root "/" itself. */
  lemma BaseOfFolderEntry(dir: string, p: string)
    requires dir == "" || HasSuffix(dir, "/")
    ensures Base(p) != "/" ==> Base(Join(dir, Base(p))) == Base(p)
  {
    if Base(p) != "/" {
      BaseOfJoin(dir, Base(p));
    }
  }

  /** Joining under an empty or '/'-terminated folder is concatenation. */
  lemma JoinUnderFolder(dir: string, name: string)
    requires dir == "" || HasSuffix(dir, "/")
    ensures Join(dir, name) == dir + name
  {
  }
}
