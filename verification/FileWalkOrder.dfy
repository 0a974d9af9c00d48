/** The order of the walk: a directory before what lies below it, and the entries of a directory as readdir gives them;
    and where a walk stops. */
module FileWalkOrder {
  import opened DirTreePaths
  import opened FileWalk

  /** q lies below dir. */
  ghost predicate Under(dir: string, q: string) {
    ByteTest(dir, q) && q != dir
  }

  ghost predicate AncestorsFirst(calls: seq<Call>) {
    forall i, j :: 0 <= i < |calls| && 0 <= j < |calls| && Under(calls[i].path, calls[j].path) ==> i < j
  }

  /** The calls made: up to and including the first for which the callback does not return 0; that is returned. */
  ghost predicate StopsAtFirst(made: seq<Call>, all: seq<Call>, f: Call -> int, ret: int) {
    && made <= all && (all != [] ==> made != [])
    && (forall i :: 0 <= i < |made| - 1 ==> f(made[i]) == 0)
    && (if made == [] then ret == 0 else ret == f(made[|made| - 1]))
    && (ret == 0 ==> made == all)
  }

  /** Nothing below an object for which the callback did not return 0 is looked at. */
  ghost predicate NothingBelow(made: seq<Call>, f: Call -> int) {
    forall i, j :: 0 <= i < |made| && 0 <= j < |made| && f(made[i]) != 0 ==> !Under(made[i].path, made[j].path)
  }

  lemma {:induction false} UpToStops(calls: seq<Call>, f: Call -> int)
    ensures StopsAtFirst(UpTo(calls, f), calls, f, Verdict(calls, f))
  {
    if calls != [] && f(calls[0]) == 0 {
      UpToStops(calls[1..], f);
      var made := UpTo(calls, f);
      assert made[1..] == UpTo(calls[1..], f);
      assert calls == [calls[0]] + calls[1..];
      forall i | 0 <= i < |made| - 1 ensures f(made[i]) == 0 { if i > 0 { assert made[i] == made[1..][i - 1]; } }
      if |made| > 1 { assert made[|made| - 1] == made[1..][|made| - 2]; }
    }
  }

  lemma CutOff(made: seq<Call>, all: seq<Call>, f: Call -> int, ret: int)
    requires StopsAtFirst(made, all, f, ret) && AncestorsFirst(all)
    ensures AncestorsFirst(made) && NothingBelow(made, f)
  {
    hide Under;
  }

  // ---- the calls for one entry --------------------------------------------------------------

  lemma BelowBelow(a: string, b: string, c: string)
    requires ByteTest(a, b) && ByteTest(b, c)
    ensures ByteTest(a, c)
  {
    assert c[..|a|] == c[..|b|][..|a|];
    if |b| > |a| { assert c[|a|] == c[..|b|][|a|]; }
  }

  lemma Extends(path: string, name: string)
    ensures ByteTest(path, path + "/" + name)
  {
  }

  function StartOf(path: string, entries: seq<Entry>, k: nat): nat
    requires k <= |entries|
  {
    |CallsIn(path + "/", entries[..k])|
  }

  function CallsOf(path: string, e: Entry): seq<Call>
    requires e.Child?
  {
    Calls(path + "/" + e.name, e.node)
  }

  lemma Segments(path: string, entries: seq<Entry>, k: nat)
    requires k < |entries| && entries[k].Child?
    ensures CallsIn(path + "/", entries)
         == CallsIn(path + "/", entries[..k]) + CallsOf(path, entries[k]) + CallsIn(path + "/", entries[k + 1..])
    ensures StartOf(path, entries, k + 1) == StartOf(path, entries, k) + |CallsOf(path, entries[k])|
  {
    hide Calls;
    var prefix, e := path + "/", entries[k];
    assert CallsIn(prefix, [e]) == CallsOf(path, e);
    assert entries[..k + 1] == entries[..k] + [e];
    assert entries == entries[..k + 1] + entries[k + 1..];
    hide CallsIn;
    CallsInAppend(prefix, entries[..k], [e]);
    CallsInAppend(prefix, entries[..k + 1], entries[k + 1..]);
  }

  lemma {:induction false} StartsGrow(path: string, entries: seq<Entry>, a: nat, b: nat)
    requires a <= b <= |entries|
    ensures StartOf(path, entries, a) <= StartOf(path, entries, b)
  {
    assert entries[..b] == entries[..a] + entries[a..b];
    CallsInAppend(path + "/", entries[..a], entries[a..b]);
  }

  lemma OtherEntry(path: string, entries: seq<Entry>, some: seq<Entry>, k: nat, c: Call)
    requires TidyIn(entries) && k < |entries| && entries[k].Child? && c in CallsIn(path + "/", some)
    requires forall e :: e in some ==> exists i :: 0 <= i < |entries| && i != k && entries[i] == e
    ensures !ByteTest(path + "/" + entries[k].name, c.path)
  {
    hide CallsIn, ByteTest;
    CallsInBelow(path, some);
    var e :| e in some && e.Child? && ByteTest(path + "/" + e.name, c.path);
    if ByteTest(path + "/" + entries[k].name, c.path) {
      SiblingsApart(path, entries[k].name, e.name, c.path);
    }
  }

  /** The calls for an entry stand together, and no other call concerns what lies below the entry. */
  lemma Segment(path: string, entries: seq<Entry>, k: nat, i: nat)
    requires TidyIn(entries) && k < |entries| && entries[k].Child?
    requires i < |CallsIn(path + "/", entries)|
    requires ByteTest(path + "/" + entries[k].name, CallsIn(path + "/", entries)[i].path)
    ensures var lo, mine := StartOf(path, entries, k), CallsOf(path, entries[k]);
      lo <= i < lo + |mine| && CallsIn(path + "/", entries)[i] == mine[i - lo]
  {
    hide CallsIn, Calls, ByteTest, TidyIn;
    var prefix := path + "/";
    var c := CallsIn(prefix, entries)[i];
    Segments(path, entries, k);
    var before, mine := CallsIn(prefix, entries[..k]), CallsOf(path, entries[k]);
    var after := CallsIn(prefix, entries[k + 1..]);
    if i < |before| {
      assert c == before[i];
      forall e | e in entries[..k]
        ensures exists n :: 0 <= n < |entries| && n != k && entries[n] == e
      {
        var n :| 0 <= n < k && entries[..k][n] == e;
        assert entries[n] == e;
      }
      OtherEntry(path, entries, entries[..k], k, c);
    } else if i >= |before| + |mine| {
      assert c == after[i - |before| - |mine|];
      var later := entries[k + 1..];
      forall e | e in later
        ensures exists n :: 0 <= n < |entries| && n != k && entries[n] == e
      {
        var n :| 0 <= n < |later| && later[n] == e;
        assert entries[k + 1 + n] == e;
      }
      OtherEntry(path, entries, later, k, c);
    }
  }

  /** Which entry a call belongs to. */
  lemma EntryOf(path: string, entries: seq<Entry>, c: Call) returns (k: nat)
    requires c in CallsIn(path + "/", entries)
    ensures k < |entries| && entries[k].Child? && ByteTest(path + "/" + entries[k].name, c.path)
  {
    hide CallsIn, ByteTest;
    CallsInBelow(path, entries);
    var e :| e in entries && e.Child? && ByteTest(path + "/" + e.name, c.path);
    k :| 0 <= k < |entries| && entries[k] == e;
  }

  // ---- directories first --------------------------------------------------------------------

  /** Every directory is reported before what lies below it. */
  lemma {:induction false} DirectoriesFirst(path: string, node: Node)
    requires Tidy(node)
    ensures AncestorsFirst(Calls(path, node))
    decreases node
  {
    if node.Dir? && node.readable {
      var calls := Calls(path, node);
      forall i, j | 0 <= i < |calls| && 0 <= j < |calls| && Under(calls[i].path, calls[j].path)
        ensures i < j
      {
        DirectoryFirst(path, node, i, j);
      }
    }
  }

  lemma {:induction false} DirectoryFirst(path: string, node: Node, i: nat, j: nat)
    requires Tidy(node) && node.Dir? && node.readable && i < |Calls(path, node)| && j < |Calls(path, node)|
    requires Under(Calls(path, node)[i].path, Calls(path, node)[j].path)
    ensures i < j
    decreases node, 0
  {
    var calls, rest := Calls(path, node), CallsIn(path + "/", node.entries);
    assert calls == [Call(path, FtwD)] + rest;
    hide Calls, CallsIn, TidyIn;
    if i > 0 {
      assert calls[i] == rest[i - 1];
      var k := EntryOf(path, node.entries, rest[i - 1]);
      var sub := path + "/" + node.entries[k].name;
      BelowBelow(sub, calls[i].path, calls[j].path);
      assert j > 0 && calls[j] == rest[j - 1];
      Segment(path, node.entries, k, i - 1);
      Segment(path, node.entries, k, j - 1);
      TidyChild(node, k);
      DirectoriesFirst(sub, node.entries[k].node);
    }
  }

  lemma TidyChild(node: Node, k: nat)
    requires Tidy(node) && node.Dir? && k < |node.entries| && node.entries[k].Child?
    ensures Tidy(node.entries[k].node)
  {
  }

  /** A walk with the callback f: where it stops, and in which order it goes. */
  ghost predicate Walked(made: seq<Call>, path: string, node: Node, f: Call -> int, ret: int) {
    && StopsAtFirst(made, Calls(path, node), f, ret)
    && (Tidy(node) ==> AncestorsFirst(made) && NothingBelow(made, f))
  }

  lemma WalkIs(path: string, node: Node, f: Call -> int)
    ensures Walked(UpTo(Calls(path, node), f), path, node, f, Verdict(Calls(path, node), f))
  {
    hide StopsAtFirst, AncestorsFirst, NothingBelow, UpTo, Verdict, Tidy;
    var calls := Calls(path, node);
    UpToStops(calls, f);
    if Tidy(node) {
      DirectoriesFirst(path, node);
      CutOff(UpTo(calls, f), calls, f, Verdict(calls, f));
    }
  }

  // ---- entries in their order ---------------------------------------------------------------

  lemma {:induction false} PathToBelow(path: string, names: seq<string>)
    ensures ByteTest(path, PathTo(path, names))
    decreases |names|
  {
    if names != [] {
      PathToBelow(path + "/" + names[0], names[1..]);
      Extends(path, names[0]);
      BelowBelow(path, path + "/" + names[0], PathTo(path, names));
    }
  }

  /** In every directory that the walk reads: what concerns one entry, and all below it, is reported before what
      concerns an entry that readdir gives later. */
  lemma {:induction false} EntriesInOrder(path: string, node: Node, names: seq<string>, dir: Node, a: nat, b: nat,
                                          i: nat, j: nat)
    requires Tidy(node) && Reaches(node, names, dir) && dir.Dir? && dir.readable
    requires a < b < |dir.entries| && dir.entries[a].Child? && dir.entries[b].Child?
    requires i < |Calls(path, node)| && j < |Calls(path, node)|
    requires ByteTest(PathTo(path, names) + "/" + dir.entries[a].name, Calls(path, node)[i].path)
    requires ByteTest(PathTo(path, names) + "/" + dir.entries[b].name, Calls(path, node)[j].path)
    ensures i < j
    decreases |names|
  {
    var calls, entries := Calls(path, node), node.entries;
    var rest := CallsIn(path + "/", entries);
    assert calls == [Call(path, FtwD)] + rest;
    if names == [] {
      hide Calls, CallsIn;
      assert i > 0 && j > 0 && calls[i] == rest[i - 1] && calls[j] == rest[j - 1];
      Segment(path, entries, a, i - 1);
      Segment(path, entries, b, j - 1);
      Segments(path, entries, a);
      StartsGrow(path, entries, a + 1, b);
    } else {
      var k :| 0 <= k < |entries| && entries[k].Child? && entries[k].name == names[0]
               && Reaches(entries[k].node, names[1..], dir);
      var sub, p := path + "/" + names[0], PathTo(path, names);
      hide Calls, CallsIn, Reaches, TidyIn;
      PathToBelow(sub, names[1..]);
      InSegment(path, entries, k, p, dir.entries[a].name, calls, i);
      InSegment(path, entries, k, p, dir.entries[b].name, calls, j);
      TidyChild(node, k);
      var lo := StartOf(path, entries, k);
      EntriesInOrder(sub, entries[k].node, names[1..], dir, a, b, i - 1 - lo, j - 1 - lo);
    }
  }

  lemma InSegment(path: string, entries: seq<Entry>, k: nat, p: string, name: string, calls: seq<Call>, i: nat)
    requires TidyIn(entries) && k < |entries| && entries[k].Child? && ByteTest(path + "/" + entries[k].name, p)
    requires calls == [Call(path, FtwD)] + CallsIn(path + "/", entries)
    requires i < |calls| && ByteTest(p + "/" + name, calls[i].path)
    ensures var lo, mine := StartOf(path, entries, k), CallsOf(path, entries[k]);
      1 + lo <= i < 1 + lo + |mine| && calls[i] == mine[i - 1 - lo]
  {
    hide CallsIn, Calls, TidyIn;
    Extends(p, name);
    BelowBelow(p, p + "/" + name, calls[i].path);
    BelowBelow(path + "/" + entries[k].name, p, calls[i].path);
    assert i > 0 && calls[i] == CallsIn(path + "/", entries)[i - 1];
    Segment(path, entries, k, i - 1);
  }
}
