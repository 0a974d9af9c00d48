/** The search for a command along PATH. */
module PathSearch {
  import opened Options
  import opened StrChr
  import DirTreePaths

  const ENOENT := 2
  const ENOEXEC := 8
  const EACCES := 13

  /** What trying to execute a pathname does: the program runs, or execve sets errno; a file that is no
      executable is given to the shell, which may run it. */
  datatype Exec = Runs | Fails(errno: int, shellRuns: bool)

  predicate Gone(x: Exec) {
    x.Runs? || (x.errno == ENOEXEC && x.shellRuns)
  }

  /** The prefixes between the colons. */
  function Prefixes(path: string): seq<string>
    decreases |path|
  {
    var (first, rest) := Cut(path, ':');
    if rest.None? then [first] else [first] + Prefixes(rest.value)
  }

  /** The pathname for one prefix; an empty prefix means the current directory. */
  function Candidate(prefix: string, filename: string): string {
    (if prefix == "" then "." else prefix) + "/" + filename
  }

  function Candidates(path: string, filename: string): seq<string> {
    var ps := Prefixes(path);
    seq(|ps|, i requires 0 <= i < |ps| => Candidate(ps[i], filename))
  }

  /** An undefined or empty PATH means the current directory. */
  function SearchPath(p: Option<string>): string {
    if p.None? || p.value == "" then "." else p.value
  }

  lemma {:induction false} PrefixesJoin(path: string)
    ensures Prefixes(path) != [] && JoinWith(Prefixes(path), ':') == path
    ensures forall i :: 0 <= i < |Prefixes(path)| ==> ':' !in Prefixes(path)[i]
    decreases |path|
  {
    var (first, rest) := Cut(path, ':');
    if rest.Some? {
      PrefixesJoin(rest.value);
      assert Prefixes(path)[1..] == Prefixes(rest.value);
    }
  }

  /** Any list of prefixes without colons is what the search takes its joined text apart into. */
  lemma {:induction false} JoinedPrefixes(ps: seq<string>)
    requires ps != [] && forall i :: 0 <= i < |ps| ==> ':' !in ps[i]
    ensures Prefixes(JoinWith(ps, ':')) == ps
  {
    if |ps| == 1 {
      CutNone(ps[0], ':');
      assert ps == [ps[0]];
    } else {
      CutAt(ps[0], ':', JoinWith(ps[1..], ':'));
      JoinedPrefixes(ps[1..]);
      assert ps == [ps[0]] + ps[1..];
    }
  }

  // ---- which pathnames are tried ------------------------------------------------------------

  /** The pathname names the file in the directory that the prefix stands for; no prefix is the current one. */
  ghost predicate InDirectory(name: string, prefix: string, filename: string) {
    DirTreePaths.Split(name) == (if prefix == "" then ["."] else DirTreePaths.Split(prefix)) + [filename]
  }

  ghost predicate NoColons(ps: seq<string>) {
    forall i :: 0 <= i < |ps| ==> ':' !in ps[i]
  }

  /** However the value of PATH is written as prefixes with colons between them: one pathname for each of the first
      prefixes, in their order, and for all of them where the search came to its end. */
  ghost predicate TriedAlong(tried: seq<string>, ended: bool, value: string, filename: string) {
    forall ps :: ps != [] && NoColons(ps) && JoinWith(ps, ':') == value ==>
      && |tried| <= |ps| && (ended ==> |tried| == |ps|)
      && forall i :: 0 <= i < |tried| ==> InDirectory(tried[i], ps[i], filename)
  }

  lemma CandidateInDirectory(prefix: string, filename: string)
    requires '/' !in filename
    ensures InDirectory(Candidate(prefix, filename), prefix, filename)
  {
    var dir := if prefix == "" then "." else prefix;
    DirTreePaths.SplitChild(dir, filename);
    if prefix == "" { DirTreePaths.SplitPlain("."); }
  }

  lemma CandidatesTried(tried: seq<string>, ended: bool, value: string, filename: string)
    requires '/' !in filename && tried <= Candidates(value, filename)
    requires ended ==> tried == Candidates(value, filename)
    ensures TriedAlong(tried, ended, value, filename)
  {
    hide InDirectory, Prefixes, Candidate;
    forall ps | ps != [] && NoColons(ps) && JoinWith(ps, ':') == value
      ensures |tried| <= |ps| && (ended ==> |tried| == |ps|)
      ensures forall i :: 0 <= i < |tried| ==> InDirectory(tried[i], ps[i], filename)
    {
      JoinedPrefixes(ps);
      forall i | 0 <= i < |tried|
        ensures InDirectory(tried[i], ps[i], filename)
      {
        assert tried[i] == Candidates(value, filename)[i];
        CandidateInDirectory(ps[i], filename);
      }
    }
  }

  lemma CurrentDirectory(filename: string)
    ensures Candidates(".", filename) == ["./" + filename]
  {
    JoinedPrefixes(["."]);
    assert Candidate(".", filename) == "./" + filename;
  }

  function Errno(x: Exec): int {
    if x.Runs? then 0 else x.errno
  }

  /** Every attempt failed: the error is EACCES if that was the error of any of them, else it is that of the last. */
  ghost predicate FinalErrno(tried: seq<string>, exec: string -> Exec, errno: int) {
    && tried != [] && (forall i :: 0 <= i < |tried| ==> exec(tried[i]).Fails?)
    && ((exists i :: 0 <= i < |tried| && exec(tried[i]).errno == EACCES) ==> errno == EACCES)
    && ((forall i :: 0 <= i < |tried| ==> exec(tried[i]).errno != EACCES) ==> errno == exec(tried[|tried| - 1]).errno)
  }

  predicate AnyDenied(tried: seq<string>, exec: string -> Exec) {
    exists i :: 0 <= i < |tried| && Errno(exec(tried[i])) == EACCES
  }

  lemma DeniedMore(tried: seq<string>, name: string, exec: string -> Exec)
    ensures AnyDenied(tried + [name], exec) <==> AnyDenied(tried, exec) || Errno(exec(name)) == EACCES
  {
    var t := tried + [name];
    assert t[|tried|] == name;
    if AnyDenied(tried, exec) {
      var i :| 0 <= i < |tried| && Errno(exec(tried[i])) == EACCES;
      assert t[i] == tried[i];
    }
  }

  /** The buffer for a pathname: filled by appending, within the size it was allocated with. */
  class PathBuffer {
    const data: array<char>
    ghost var text: string

    ghost predicate Valid()
      reads this, data
    {
      |text| < data.Length && data[..|text|] == text && data[|text|] == '\0' && '\0' !in text
    }

    constructor (size: nat)
      requires size > 0
      ensures Valid() && text == "" && data.Length == size && fresh(data)
    {
      data := new char[size](_ => '\0');
      text := "";
    }

    /** strcat, and strncat of a whole prefix. */
    method Append(s: string)
      requires Valid() && |text| + |s| < data.Length && '\0' !in s
      modifies this, data
      ensures Valid() && text == old(text) + s
    {
      ghost var t := text;
      var at := 0;
      while data[at] != '\0'
        invariant 0 <= at <= |t|
        decreases |t| - at
      {
        assert at < |t| ==> data[at] == data[..|t|][at];
        at := at + 1;
      }
      var i := 0;
      while i < |s|
        invariant 0 <= i <= |s| && at == |t| && text == t && data[..at] == t && data[at..at + i] == s[..i]
      {
        data[at + i] := s[i];
        i := i + 1;
      }
      data[at + i] := '\0';
      text := text + s;
    }
  }

  /** Builds the pathname for the prefix path[from..to]; the allocation is exactly as large as needed. */
  method BuildPathname(path: string, from: nat, to: nat, filename: string) returns (b: PathBuffer)
    requires from <= to <= |path| && '\0' !in path && '\0' !in filename
    ensures fresh(b) && fresh(b.data) && b.Valid() && b.text == Candidate(path[from..to], filename)
    ensures '/' !in filename ==> InDirectory(b.text, path[from..to], filename)
    ensures |b.text| + 1 == b.data.Length
  {
    hide InDirectory;
    if '/' !in filename { CandidateInDirectory(path[from..to], filename); }
    b := new PathBuffer((if to - from > 1 then to - from else 1) + |filename| + 2);
    if to == from {
      b.Append(".");
    } else {
      b.Append(path[from..to]);
    }
    b.Append("/");
    b.Append(filename);
  }

  /** The search loop: from the start of the path to its end, or to the first program that runs. */
  method SearchAlong(searchPath: string, filename: string, exec: string -> Exec)
    returns (errno: Option<int>, tried: seq<string>)
    requires '\0' !in filename && '\0' !in searchPath
    ensures tried <= Candidates(searchPath, filename) && tried != []
    ensures forall i :: 0 <= i < |tried| - 1 ==> !Gone(exec(tried[i]))
    ensures errno.None? <==> Gone(exec(tried[|tried| - 1]))
    ensures errno.Some? ==> tried == Candidates(searchPath, filename) && FinalErrno(tried, exec, errno.value)
  {
    var prStart, morePrefixes, fndEACCES, savedErrno := 0, true, false, 0;
    hide Prefixes, Cut, Candidate, Candidates, AnyDenied, Searched, FinalErrno, InDirectory;
    errno, tried := None, [];
    SearchStarts(searchPath, filename);
    while morePrefixes
      invariant prStart <= |searchPath| && Searched(searchPath, filename, tried, prStart, morePrefixes)
      invariant forall i :: 0 <= i < |tried| ==> !Gone(exec(tried[i]))
      invariant if tried == [] then morePrefixes && !fndEACCES
                else fndEACCES == AnyDenied(tried, exec) && savedErrno == Errno(exec(tried[|tried| - 1]))
      decreases morePrefixes, |searchPath| - prStart
    {
      var prEnd := FindColon(searchPath, prStart);
      SearchedMore(searchPath, filename, tried, prStart, prEnd);
      var pathname := BuildPathname(searchPath, prStart, prEnd, filename);
      var name := pathname.data[..pathname.data.Length - 1];
      if prEnd == |searchPath| {
        morePrefixes := false;
      } else {
        prStart := prEnd + 1;
      }
      DeniedFirst(tried, exec);
      DeniedMore(tried, name, exec);
      tried := tried + [name];
      SearchedPart(searchPath, filename, tried, prStart, morePrefixes);
      if Gone(exec(name)) { return; }
      savedErrno := exec(name).errno;
      if savedErrno == EACCES { fndEACCES := true; }
    }
    SearchedPart(searchPath, filename, tried, prStart, false);
    errno := Some(if fndEACCES then EACCES else savedErrno);
    FinalErrnoIs(tried, exec, errno.value);
  }

  /** The attempts of execlp. The result is None when some program took over; tried lists the pathnames given
      to execve, in order. */
  method Execlp(pathVar: Option<string>, filename: string, exec: string -> Exec)
    returns (errno: Option<int>, tried: seq<string>)
    requires '\0' !in filename && (pathVar.Some? ==> '\0' !in pathVar.value)
    ensures tried != []
    ensures '/' in filename ==> tried == [filename]
    ensures '/' !in filename && (pathVar.None? || pathVar.value == "") ==> tried == ["./" + filename]
    ensures '/' !in filename && pathVar.Some? && pathVar.value != "" ==>
              TriedAlong(tried, errno.Some?, pathVar.value, filename)
    ensures forall i :: 0 <= i < |tried| - 1 ==> !Gone(exec(tried[i]))
    ensures errno.None? <==> Gone(exec(tried[|tried| - 1]))
    ensures errno.None? <==> var last := exec(tried[|tried| - 1]);
              last.Runs? || (last.errno == ENOEXEC && last.shellRuns)
    ensures errno.Some? ==> FinalErrno(tried, exec, errno.value)
  {
    hide TriedAlong;
    if '/' in filename {
      tried := [filename];
      errno := if Gone(exec(filename)) then None else Some(exec(filename).errno);
    } else {
      errno, tried := SearchAlong(SearchPath(pathVar), filename, exec);
      CurrentDirectory(filename);
      if pathVar.Some? && pathVar.value != "" { CandidatesTried(tried, errno.Some?, pathVar.value, filename); }
    }
  }

  /** The pathnames tried so far are the first candidates; more says whether the path has more from start on. */
  ghost predicate Searched(path: string, filename: string, tried: seq<string>, start: nat, more: bool)
    requires start <= |path|
  {
    && |tried| <= |Prefixes(path)| && tried <= Candidates(path, filename)
    && if more then Prefixes(path[start..]) == Prefixes(path)[|tried|..] else |tried| == |Prefixes(path)|
  }

  lemma SearchStarts(path: string, filename: string)
    ensures Searched(path, filename, [], 0, true)
  {
    hide Prefixes, Candidate;
    assert path[0..] == path;
  }

  lemma SearchedMore(path: string, filename: string, tried: seq<string>, start: nat, end: nat)
    requires start <= end <= |path| && Searched(path, filename, tried, start, true)
    requires Prefixes(path[start..]) == [path[start..end]] + if end == |path| then [] else Prefixes(path[end + 1..])
    ensures Searched(path, filename, tried + [Candidate(path[start..end], filename)],
                     if end == |path| then start else end + 1, end != |path|)
  {
    hide Prefixes, Candidate;
    var ps, n := Prefixes(path), |tried|;
    assert ps[n] == ps[n..][0] == path[start..end] && ps[n + 1..] == ps[n..][1..];
  }

  lemma SearchedPart(path: string, filename: string, tried: seq<string>, start: nat, more: bool)
    requires start <= |path| && Searched(path, filename, tried, start, more)
    ensures tried <= Candidates(path, filename) && (!more ==> tried == Candidates(path, filename))
  {
    hide Prefixes, Candidate;
  }

  lemma DeniedFirst(tried: seq<string>, exec: string -> Exec)
    ensures tried == [] ==> !AnyDenied(tried, exec)
  {
  }

  lemma FinalErrnoIs(tried: seq<string>, exec: string -> Exec, errno: int)
    requires tried != [] && forall i :: 0 <= i < |tried| ==> !Gone(exec(tried[i]))
    requires errno == if AnyDenied(tried, exec) then EACCES else Errno(exec(tried[|tried| - 1]))
    ensures FinalErrno(tried, exec, errno)
  {
  }

  /** Where the prefix that starts at a position ends. */
  method FindColon(path: string, from: nat) returns (k: nat)
    requires from <= |path|
    ensures from <= k <= |path|
    ensures Prefixes(path[from..]) == [path[from..k]] + if k == |path| then [] else Prefixes(path[k + 1..])
  {
    hide Prefixes;
    k := from;
    while k < |path| && path[k] != ':'
      invariant from <= k <= |path| && forall i :: from <= i < k ==> path[i] != ':'
    {
      k := k + 1;
    }
    PrefixEnds(path, from, k);
  }

  lemma PrefixEnds(path: string, from: nat, k: nat)
    requires from <= k <= |path| && (k < |path| ==> path[k] == ':') && forall i :: from <= i < k ==> path[i] != ':'
    ensures Prefixes(path[from..]) == [path[from..k]] + if k == |path| then [] else Prefixes(path[k + 1..])
  {
    hide Cut;
    assert ':' !in path[from..k];
    if k == |path| {
      assert path[from..k] == path[from..];
      CutNone(path[from..], ':');
    } else {
      assert path[from..] == path[from..k] + [':'] + path[k + 1..];
      CutAt(path[from..k], ':', path[k + 1..]);
    }
  }
}
