/** The recursive walk over a file tree that keeps the current pathname in one shared, growing buffer. */
module FileWalk {
  import opened DirTreePaths

  const NAME_MAX := 255
  /** The least value that POSIX allows for PATH_MAX, and so the least initial buffer. */
  const POSIX_PATH_MAX := 256

  datatype Kind = Reg | Blk | Chr | Fifo | Link | Sock

  /** What lstat, opendir and readdir find: an object that cannot be examined, a file, a directory. */
  datatype Node = Unstatable | File(kind: Kind) | Dir(readable: bool, entries: seq<Entry>)

  datatype Entry = Dot | DotDot | Child(name: string, node: Node)

  datatype Flag = FtwF(kind: Kind) | FtwD | FtwDnr | FtwNs

  datatype Call = Call(path: string, flag: Flag)

  ghost predicate CString(s: string) {
    '\0' !in s
  }

  ghost predicate ValidNode(node: Node) {
    node.Dir? ==> forall i :: 0 <= i < |node.entries| && node.entries[i].Child? ==>
      CString(node.entries[i].name) && |node.entries[i].name| <= NAME_MAX && ValidNode(node.entries[i].node)
  }

  /** The calls of the callback for a whole tree: pre-order, each object once. An unreadable directory is
      reported a second time, under its pathname with the slash already appended. */
  function Calls(path: string, node: Node): seq<Call>
    decreases node
  {
    match node
    case Unstatable => [Call(path, FtwNs)]
    case File(kind) => [Call(path, FtwF(kind))]
    case Dir(readable, entries) =>
      [Call(path, FtwD)] + if readable then CallsIn(path + "/", entries) else [Call(path + "/", FtwDnr)]
  }

  function CallsIn(prefix: string, entries: seq<Entry>): seq<Call>
    decreases entries
  {
    if entries == [] then []
    else
      (if entries[0].Child? then Calls(prefix + entries[0].name, entries[0].node) else []) +
      CallsIn(prefix, entries[1..])
  }

  /** The calls that are made when the walk stops at the first callback that does not return 0. */
  function UpTo(calls: seq<Call>, f: Call -> int): seq<Call> {
    if calls == [] then []
    else if f(calls[0]) != 0 then [calls[0]]
    else [calls[0]] + UpTo(calls[1..], f)
  }

  function Verdict(calls: seq<Call>, f: Call -> int): int {
    if calls == [] then 0
    else if f(calls[0]) != 0 then f(calls[0])
    else Verdict(calls[1..], f)
  }

  lemma {:induction false} UpToAppend(a: seq<Call>, b: seq<Call>, f: Call -> int)
    ensures UpTo(a + b, f) == if Verdict(a, f) == 0 then UpTo(a, f) + UpTo(b, f) else UpTo(a, f)
    ensures Verdict(a + b, f) == if Verdict(a, f) == 0 then Verdict(b, f) else Verdict(a, f)
  {
    if a == [] {
      assert a + b == b;
    } else {
      assert (a + b)[1..] == a[1..] + b;
      UpToAppend(a[1..], b, f);
    }
  }

  lemma {:induction false} UpToAll(calls: seq<Call>)
    ensures UpTo(calls, _ => 0) == calls && Verdict(calls, _ => 0) == 0
  {
    if calls != [] {
      UpToAll(calls[1..]);
      assert calls == [calls[0]] + calls[1..];
    }
  }

  lemma UpToOne(c: Call, f: Call -> int)
    ensures UpTo([c], f) == [c] && Verdict([c], f) == f(c)
  {
  }

  lemma {:induction false} CallsInAppend(prefix: string, a: seq<Entry>, b: seq<Entry>)
    ensures CallsIn(prefix, a + b) == CallsIn(prefix, a) + CallsIn(prefix, b)
  {
    if a == [] {
      assert a + b == b;
    } else {
      assert (a + b)[1..] == a[1..] + b;
      CallsInAppend(prefix, a[1..], b);
    }
  }

  // ---- counting -----------------------------------------------------------------------------

  /** The number of calls that myfunc counts under each heading. */
  function Tally(calls: seq<Call>, flag: Flag): nat {
    if calls == [] then 0 else (if calls[0].flag == flag then 1 else 0) + Tally(calls[1..], flag)
  }

  lemma {:induction false} TallyAppend(a: seq<Call>, b: seq<Call>, flag: Flag)
    ensures Tally(a + b, flag) == Tally(a, flag) + Tally(b, flag)
  {
    if a == [] {
      assert a + b == b;
    } else {
      assert (a + b)[1..] == a[1..] + b;
      TallyAppend(a[1..], b, flag);
    }
  }

  function Total(calls: seq<Call>): nat {
    Tally(calls, FtwF(Reg)) + Tally(calls, FtwD) + Tally(calls, FtwF(Blk)) + Tally(calls, FtwF(Chr)) +
    Tally(calls, FtwF(Fifo)) + Tally(calls, FtwF(Link)) + Tally(calls, FtwF(Sock))
  }

  lemma TotalAppend(a: seq<Call>, b: seq<Call>)
    ensures Total(a + b) == Total(a) + Total(b)
  {
    TallyAppend(a, b, FtwF(Reg));
    TallyAppend(a, b, FtwD);
    TallyAppend(a, b, FtwF(Blk));
    TallyAppend(a, b, FtwF(Chr));
    TallyAppend(a, b, FtwF(Fifo));
    TallyAppend(a, b, FtwF(Link));
    TallyAppend(a, b, FtwF(Sock));
  }

  lemma TallyOne(c: Call, flag: Flag)
    ensures Tally([c], flag) == if c.flag == flag then 1 else 0
  {
  }

  lemma TotalOne(c: Call)
    ensures Total([c]) == if c.flag.FtwF? || c.flag.FtwD? then 1 else 0
  {
    TallyOne(c, FtwF(Reg));
    TallyOne(c, FtwD);
    TallyOne(c, FtwF(Blk));
    TallyOne(c, FtwF(Chr));
    TallyOne(c, FtwF(Fifo));
    TallyOne(c, FtwF(Link));
    TallyOne(c, FtwF(Sock));
    if c.flag.FtwF? {
      match c.flag.kind {
        case Reg =>
        case Blk =>
        case Chr =>
        case Fifo =>
        case Link =>
        case Sock =>
      }
    }
  }

  /** The objects of a tree that lstat can examine and the walk can reach. */
  function Statable(node: Node): nat {
    match node
    case Unstatable => 0
    case File(_) => 1
    case Dir(readable, entries) => 1 + if readable then StatableIn(entries) else 0
  }

  function StatableIn(entries: seq<Entry>): nat {
    if entries == [] then 0
    else (if entries[0].Child? then Statable(entries[0].node) else 0) + StatableIn(entries[1..])
  }

  lemma {:induction false} TotalCalls(path: string, node: Node)
    ensures Total(Calls(path, node)) == Statable(node)
    decreases node
  {
    match node {
      case Unstatable => TotalOne(Call(path, FtwNs));
      case File(kind) => TotalOne(Call(path, FtwF(kind)));
      case Dir(readable, entries) =>
        hide Total;
        TotalOne(Call(path, FtwD));
        if readable {
          TotalAppend([Call(path, FtwD)], CallsIn(path + "/", entries));
          TotalCallsIn(path + "/", entries);
        } else {
          TotalAppend([Call(path, FtwD)], [Call(path + "/", FtwDnr)]);
          TotalOne(Call(path + "/", FtwDnr));
        }
    }
  }

  lemma {:induction false} TotalCallsIn(prefix: string, entries: seq<Entry>)
    ensures Total(CallsIn(prefix, entries)) == StatableIn(entries)
    decreases entries
  {
    if entries != [] {
      hide Total;
      var first := if entries[0].Child? then Calls(prefix + entries[0].name, entries[0].node) else [];
      TotalAppend(first, CallsIn(prefix, entries[1..]));
      TotalCallsIn(prefix, entries[1..]);
      if entries[0].Child? { TotalCalls(prefix + entries[0].name, entries[0].node); } else { TotalNone(); }
    } else {
      TotalNone();
    }
  }

  lemma TotalNone()
    ensures Total([]) == 0
  {
  }

  // ---- which pathnames are reported ---------------------------------------------------------

  /** A branch: from node, through readable directories only, along these names, one comes to n. */
  ghost predicate Reaches(node: Node, names: seq<string>, n: Node)
    decreases |names|
  {
    if names == [] then n == node
    else
      && node.Dir? && node.readable
      && exists i :: 0 <= i < |node.entries| && node.entries[i].Child? && node.entries[i].name == names[0]
                       && Reaches(node.entries[i].node, names[1..], n)
  }

  function PathTo(path: string, names: seq<string>): string
    decreases |names|
  {
    if names == [] then path else PathTo(path + "/" + names[0], names[1..])
  }

  /** What is said about one object by itself. */
  predicate Reported(path: string, n: Node, c: Call) {
    match n
    case Unstatable => c == Call(path, FtwNs)
    case File(kind) => c == Call(path, FtwF(kind))
    case Dir(readable, _) => c == Call(path, FtwD) || (!readable && c == Call(path + "/", FtwDnr))
  }

  /** The call reports the object at the end of a branch, under the names along it. */
  ghost predicate Branch(path: string, node: Node, names: seq<string>, n: Node, c: Call) {
    Reaches(node, names, n) && Reported(PathTo(path, names), n, c)
  }

  ghost predicate FromEntry(prefix: string, entries: seq<Entry>, i: int, c: Call) {
    0 <= i < |entries| && entries[i].Child? && c in Calls(prefix + entries[i].name, entries[i].node)
  }

  lemma {:induction false} CallsInMembers(prefix: string, entries: seq<Entry>, c: Call)
    ensures c in CallsIn(prefix, entries) <==> exists i :: FromEntry(prefix, entries, i, c)
    decreases |entries|
  {
    if entries != [] {
      var rest := entries[1..];
      CallsInMembers(prefix, rest, c);
      if i :| FromEntry(prefix, rest, i, c) { assert FromEntry(prefix, entries, i + 1, c); }
      if i :| FromEntry(prefix, entries, i, c) {
        if i > 0 { assert FromEntry(prefix, rest, i - 1, c); }
      }
      if entries[0].Child? && c in Calls(prefix + entries[0].name, entries[0].node) {
        assert FromEntry(prefix, entries, 0, c);
      }
    }
  }

  lemma {:induction false} BranchOf(path: string, node: Node, c: Call) returns (names: seq<string>, n: Node)
    requires c in Calls(path, node)
    ensures Branch(path, node, names, n, c)
    decreases node
  {
    names, n := [], node;
    if !Reported(path, node, c) {
      CallsInMembers(path + "/", node.entries, c);
      var i :| FromEntry(path + "/", node.entries, i, c);
      var e := node.entries[i];
      names, n := BranchOf(path + "/" + e.name, e.node, c);
      var rest := names;
      names := [e.name] + rest;
      assert names[1..] == rest;
    }
  }

  lemma {:induction false} BranchIsCalled(path: string, node: Node, names: seq<string>, n: Node, c: Call)
    requires Branch(path, node, names, n, c)
    ensures c in Calls(path, node)
    decreases |names|
  {
    if names != [] {
      var i :| 0 <= i < |node.entries| && node.entries[i].Child? && node.entries[i].name == names[0]
               && Reaches(node.entries[i].node, names[1..], n);
      BranchIsCalled(path + "/" + names[0], node.entries[i].node, names[1..], n, c);
      assert FromEntry(path + "/", node.entries, i, c);
      CallsInMembers(path + "/", node.entries, c);
    }
  }

  /** A call is made if and only if it reports the object at the end of some branch, under the starting pathname
      followed by the names along the branch. */
  lemma CallsAreBranches(path: string, node: Node, c: Call)
    ensures c in Calls(path, node) <==>
            exists names, n :: Branch(path, node, names, n, c)
  {
    hide Branch, Calls;
    if c in Calls(path, node) { var names, n := BranchOf(path, node, c); }
    if names, n :| Branch(path, node, names, n, c) {
      BranchIsCalled(path, node, names, n, c);
    }
  }

  // ---- exactly once -------------------------------------------------------------------------

  /** Directory entries have names that a file system gives: not empty, no slash, no two alike. */
  ghost predicate Tidy(node: Node) {
    node.Dir? ==> TidyIn(node.entries)
  }

  ghost predicate TidyIn(entries: seq<Entry>) {
    && (forall i :: 0 <= i < |entries| && entries[i].Child? ==>
          entries[i].name != "" && Plain(entries[i].name) && Tidy(entries[i].node))
    && (forall i, j :: 0 <= i < j < |entries| && entries[i].Child? && entries[j].Child? ==>
          entries[i].name != entries[j].name)
  }

  ghost predicate Distinct(calls: seq<Call>) {
    forall i, j :: 0 <= i < j < |calls| ==> calls[i].path != calls[j].path
  }

  /** Every call concerns an object at or below the given pathname. */
  lemma {:induction false} CallsBelow(path: string, node: Node)
    ensures forall c :: c in Calls(path, node) ==> ByteTest(path, c.path)
    decreases node
  {
    if node.Dir? && node.readable { CallsInBelow(path, node.entries); }
  }

  lemma {:induction false} CallsInBelow(path: string, entries: seq<Entry>)
    ensures forall c :: c in CallsIn(path + "/", entries) ==> ByteTest(path, c.path)
    ensures forall c :: c in CallsIn(path + "/", entries) ==>
              exists e :: e in entries && e.Child? && ByteTest(path + "/" + e.name, c.path)
    decreases entries
  {
    if entries != [] {
      assert entries == [entries[0]] + entries[1..];
      CallsInBelow(path, entries[1..]);
      if entries[0].Child? {
        var name := entries[0].name;
        CallsBelow(path + "/" + name, entries[0].node);
        forall c | c in Calls(path + "/" + name, entries[0].node)
          ensures ByteTest(path, c.path)
        {
          assert c.path[..|path| + 1] == path + "/";
        }
      }
    }
  }

  lemma SiblingsApart(path: string, n: string, n': string, q: string)
    requires Plain(n) && Plain(n') && ByteTest(path + "/" + n, q) && ByteTest(path + "/" + n', q)
    ensures n == n'
  {
    ByteTestMeansPrefix(path + "/" + n, q);
    ByteTestMeansPrefix(path + "/" + n', q);
    SplitChild(path, n);
    SplitChild(path, n');
    assert (Split(path) + [n])[|Split(path)|] == Split(q)[|Split(path)|] == (Split(path) + [n'])[|Split(path)|];
  }

  lemma DistinctAppend(a: seq<Call>, b: seq<Call>)
    requires Distinct(a) && Distinct(b)
    requires forall c, d :: c in a && d in b ==> c.path != d.path
    ensures Distinct(a + b)
  {
  }

  /** No pathname is reported twice, so each object is visited exactly once. */
  lemma {:induction false} CallsDistinct(path: string, node: Node)
    requires Tidy(node)
    ensures Distinct(Calls(path, node))
    decreases node
  {
    if node.Dir? && node.readable {
      CallsInDistinct(path, node.entries);
      CallsInBelow(path, node.entries);
      var rest := CallsIn(path + "/", node.entries);
      forall d | d in rest
        ensures d.path != path
      {
        var e :| e in node.entries && e.Child? && ByteTest(path + "/" + e.name, d.path);
      }
      DistinctAppend([Call(path, FtwD)], rest);
    }
  }

  lemma {:induction false} CallsInDistinct(path: string, entries: seq<Entry>)
    requires TidyIn(entries)
    ensures Distinct(CallsIn(path + "/", entries))
    decreases entries
  {
    if entries != [] {
      CallsInDistinct(path, entries[1..]);
      if entries[0].Child? {
        var name := entries[0].name;
        var first, rest := Calls(path + "/" + name, entries[0].node), CallsIn(path + "/", entries[1..]);
        CallsDistinct(path + "/" + name, entries[0].node);
        CallsBelow(path + "/" + name, entries[0].node);
        CallsInBelow(path, entries[1..]);
        forall c, d | c in first && d in rest
          ensures c.path != d.path
        {
          var e :| e in entries[1..] && e.Child? && ByteTest(path + "/" + e.name, d.path);
          var i :| 0 <= i < |entries[1..]| && entries[1..][i] == e;
          assert entries[i + 1] == e;
          if c.path == d.path { SiblingsApart(path, name, e.name, c.path); }
        }
        DistinctAppend(first, rest);
      }
    }
  }
}
