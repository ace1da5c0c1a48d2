/** POSIX path arithmetic as Python's `os.path` does it for two components. */
module Paths {
  import Keys

  predicate EndsWithSlash(p: string) {
    |p| > 0 && p[|p| - 1] == '/'
  }

  /** `os.path.join(a, b)`: an absolute `b` replaces `a`; otherwise `b` is
      appended, with a slash between them unless `a` is empty or already ends
      with one. */
  function Join(a: string, b: string): (r: string)
    ensures |b| > 0 && b[0] == '/' ==> r == b
    ensures !(|b| > 0 && b[0] == '/') ==> |r| >= |a| + |b|
  {
    if |b| > 0 && b[0] == '/' then b
    else if a == [] || EndsWithSlash(a) then a + b
    else a + Keys.Slash + b
  }

  /** A relative component is appended whole after the directory, and
      after a slash when the directory is not empty. */
  lemma JoinShape(a: string, b: string)
    requires !(|b| > 0 && b[0] == '/')
    ensures Keys.IsPrefix(a, Join(a, b)) && Keys.IsSuffix(b, Join(a, b))
    ensures a != [] ==> |Join(a, b)| > |b| && Join(a, b)[|Join(a, b)| - |b| - 1] == '/'
  {
  }

  /** `os.path.basename(p)`: the part after the last slash. */
  function BaseName(p: string): (r: string)
    ensures |r| <= |p|
  {
    if p == [] then []
    else if p[|p| - 1] == '/' then []
    else BaseName(p[..|p| - 1]) + [p[|p| - 1]]
  }

  /** A suffix of `init` extended by `c` is a slash-free suffix of
      `init + [c]` when both parts are, and the character before it is the one
      before the shorter suffix. */
  lemma SuffixSnoc(p: string, init: string, q: string, c: char)
    requires p == init + [c]
    requires Keys.IsSuffix(q, init) && '/' !in q && c != '/'
    ensures Keys.IsSuffix(q + [c], p)
    ensures '/' !in q + [c]
    ensures |q| < |init| ==> p[|p| - |q + [c]| - 1] == init[|init| - |q| - 1]
  {
    assert p[|p| - |q| - 1..] == init[|init| - |q|..] + [c];
    assert forall x :: x in q + [c] ==> x in q || x == c;
  }

  /** The base name is the longest slash-free ending of `p`: either all of
      `p`, or it is preceded by a slash. */
  lemma {:induction false} BaseNameShape(p: string)
    ensures Keys.IsSuffix(BaseName(p), p)
    ensures '/' !in BaseName(p)
    ensures |BaseName(p)| < |p| ==> p[|p| - |BaseName(p)| - 1] == '/'
    decreases |p|
  {
    if p != [] && p[|p| - 1] != '/' {
      var init := p[..|p| - 1];
      var c := p[|p| - 1];
      BaseNameShape(init);
      var q := BaseName(init);
      assert BaseName(p) == q + [c];
      assert p == init + [c];
      SuffixSnoc(p, init, q, c);
    }
  }

  /** A slash-free ending that follows a slash, or the whole path, is the
      base name: the contract of BaseName determines its result. */
  lemma BaseNameUnique(p: string, b: string)
    requires Keys.IsSuffix(b, p)
    requires '/' !in b
    requires |b| < |p| ==> p[|p| - |b| - 1] == '/'
    ensures BaseName(p) == b
  {
    BaseNameShape(p);
    var r := BaseName(p);
    if |r| > |b| {
      assert false;
    } else if |r| < |b| {
      assert false;
    }
  }

  /** Joining a slash-free file name onto a directory and taking the base
      name gives the file name back. */
  lemma BaseNameOfJoin(dir: string, name: string)
    requires '/' !in name
    ensures BaseName(Join(dir, name)) == name
  {
    var p := Join(dir, name);
    if |name| > 0 {
      assert name[0] != '/' by { assert name[0] in name; }
    }
    JoinShape(dir, name);
    BaseNameUnique(p, name);
  }

  /** `os.path.join(base, c1, ..., cn)` applied one component at a time, as a
      recursive descent through folders builds its directory. */
  function JoinAll(base: string, components: seq<string>): string
  {
    if components == [] then base
    else Join(JoinAll(base, components[..|components| - 1]), components[|components| - 1])
  }
}
