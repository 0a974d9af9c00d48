/** Pathname text and its components, and the byte-level subtree test of the directory cache. */
module DirTreePaths {

  /** A pathname as its components; an absolute pathname has the empty first component. */
  type Path = seq<string>

  predicate Plain(name: string) {
    '/' !in name
  }

  ghost predicate Components(p: Path) {
    p != [] && forall i :: 0 <= i < |p| ==> Plain(p[i])
  }

  function Join(p: Path): string
    requires p != []
  {
    if |p| == 1 then p[0] else p[0] + "/" + Join(p[1..])
  }

  function Split(s: string): (p: Path)
    ensures Components(p)
  {
    if s == "" then [""]
    else
      if s[0] == '/' then [""] + Split(s[1..]) else Prepend(s[0], Split(s[1..]))
  }

  function Prepend(c: char, p: Path): (q: Path)
    requires p != []
    ensures Components(p) && c != '/' ==> Components(q)
  {
    [[c] + p[0]] + p[1..]
  }

  /** strncmp over strlen(dir) bytes, followed by '/' or the end of the string. */
  predicate ByteTest(dir: string, path: string) {
    && |dir| <= |path|
    && path[..|dir|] == dir
    && (|path| == |dir| || path[|dir|] == '/')
  }

  lemma JoinPrepend(c: char, p: Path)
    requires p != []
    ensures Join(Prepend(c, p)) == [c] + Join(p)
  {
  }

  lemma {:induction false} JoinSplit(s: string)
    ensures Join(Split(s)) == s
  {
    if s != "" {
      JoinSplit(s[1..]);
      var rest := Split(s[1..]);
      if s[0] == '/' {
        assert ([""] + rest)[1..] == rest;
      } else {
        JoinPrepend(s[0], rest);
      }
    }
  }

  lemma {:induction false} SplitPlain(name: string)
    requires Plain(name)
    ensures Split(name) == [name]
  {
    if name != "" {
      SplitPlain(name[1..]);
      assert name == [name[0]] + name[1..];
    }
  }

  lemma PrependAppend(c: char, p: Path, q: Path)
    requires p != []
    ensures Prepend(c, p) + q == Prepend(c, p + q)
  {
  }

  lemma SplitStep(c: char, s: string)
    ensures Split([c] + s) == if c == '/' then [""] + Split(s) else Prepend(c, Split(s))
  {
  }

  lemma Regrouped(s: string, t: string)
    requires s != ""
    ensures s == [s[0]] + s[1..] && s + "/" + t == [s[0]] + (s[1..] + "/" + t)
  {
  }

  lemma Associates(p: Path, q: Path, r: Path)
    ensures p + q + r == p + (q + r)
  {
  }

  /** Splitting commutes with joining two texts by a slash. */
  lemma {:induction false} SplitSlash(s: string, t: string)
    ensures Split(s + "/" + t) == Split(s) + Split(t)
  {
    if s == "" {
      SplitStep('/', t);
      assert s + "/" + t == ['/'] + t;
    } else {
      hide Split, Prepend;
      var c, r := s[0], s[1..];
      SplitSlash(r, t);
      Regrouped(s, t);
      SplitStep(c, r);
      SplitStep(c, r + "/" + t);
      if c == '/' { Associates([""], Split(r), Split(t)); } else { PrependAppend(c, Split(r), Split(t)); }
    }
  }

  lemma {:induction false} SplitJoin(p: Path)
    requires Components(p)
    ensures Split(Join(p)) == p
  {
    SplitPlain(p[0]);
    if |p| > 1 {
      SplitJoin(p[1..]);
      SplitSlash(p[0], Join(p[1..]));
      assert p == [p[0]] + p[1..];
    }
  }

  lemma {:induction false} JoinAppend(p: Path, q: Path)
    requires p != [] && q != []
    ensures Join(p + q) == Join(p) + "/" + Join(q)
  {
    if |p| == 1 {
      assert (p + q)[1..] == q;
    } else {
      JoinAppend(p[1..], q);
      assert (p + q)[1..] == p[1..] + q;
    }
  }

  lemma SplitChild(dir: string, name: string)
    requires Plain(name)
    ensures Split(dir + "/" + name) == Split(dir) + [name]
  {
    SplitSlash(dir, name);
    SplitPlain(name);
  }

  lemma SplitInjective(s: string, t: string)
    requires Split(s) == Split(t)
    ensures s == t
  {
    JoinSplit(s);
    JoinSplit(t);
  }

  lemma ByteTestMeansPrefix(dir: string, path: string)
    requires ByteTest(dir, path)
    ensures Split(dir) <= Split(path)
  {
    if |path| == |dir| {
      assert path == dir;
    } else {
      var tail := path[|dir| + 1..];
      assert path == dir + "/" + tail;
      SplitSlash(dir, tail);
    }
  }

  lemma PrefixMeansByteTest(dir: string, path: string)
    requires Split(dir) <= Split(path)
    ensures ByteTest(dir, path)
  {
    var d, p := Split(dir), Split(path);
    JoinSplit(dir);
    JoinSplit(path);
    if |p| == |d| {
      assert d == p;
    } else {
      assert p == d + p[|d|..];
      JoinAppend(d, p[|d|..]);
      assert path == dir + "/" + Join(p[|d|..]);
    }
  }

  /** The byte test selects the directory itself and its descendants by whole components. */
  lemma ByteTestIsComponentPrefix(dir: string, path: string)
    ensures ByteTest(dir, path) <==> Split(dir) <= Split(path)
  {
    if ByteTest(dir, path) { ByteTestMeansPrefix(dir, path); }
    if Split(dir) <= Split(path) { PrefixMeansByteTest(dir, path); }
  }

  /** Replacing the matched bytes by a new prefix replaces exactly the matched components. */
  lemma RewriteIsComponentRewrite(dir: string, path: string, to: string)
    requires ByteTest(dir, path)
    ensures Split(dir) <= Split(path)
    ensures Split(to + path[|dir|..]) == Split(to) + Split(path)[|Split(dir)|..]
  {
    ByteTestMeansPrefix(dir, path);
    if |path| == |dir| {
      assert path == dir;
      assert to + path[|dir|..] == to;
    } else {
      var tail := path[|dir| + 1..];
      assert path == dir + "/" + tail;
      assert to + path[|dir|..] == to + "/" + tail;
      SplitSlash(dir, tail);
      SplitSlash(to, tail);
    }
  }
}
