/** Building the map of user namespaces from the processes, and displaying it. */
module NamespaceOverview {
  import opened Options
  import opened Namespaces
  import opened Tables

  /** A /proc entry: the number in its name, and the namespace that its ns/user file refers to. */
  datatype Process = Process(pid: int, ns: NamespaceID)

  ghost predicate Known(w: World, procs: seq<Process>) {
    forall i :: 0 <= i < |procs| ==> procs[i].ns in w.parent
  }

  /** The namespaces of the processes and all above them. */
  ghost function Found(w: World, procs: seq<Process>): set<NamespaceID>
    requires ValidWorld(w) && Known(w, procs)
  {
    if procs == [] then {} else Found(w, procs[..|procs| - 1]) + Ancestors(w, procs[|procs| - 1].ns)
  }

  /** The processes of one namespace, in the order in which they were met. */
  function PidsOf(procs: seq<Process>, n: NamespaceID): seq<int> {
    if procs == [] then []
    else
      var p := procs[|procs| - 1];
      PidsOf(procs[..|procs| - 1], n) + Added(n == p.ns, p.pid)
  }

  ghost predicate DistinctPids(procs: seq<Process>) {
    forall i, j :: 0 <= i < j < |procs| ==> procs[i].pid != procs[j].pid
  }

  /** With distinct process numbers, a number is listed under its own namespace, once, and under no other. */
  lemma {:induction false} PidListedOnce(procs: seq<Process>, n: NamespaceID)
    requires DistinctPids(procs)
    ensures NoRepeat(PidsOf(procs, n))
    ensures forall x :: x in PidsOf(procs, n) <==>
              exists i :: 0 <= i < |procs| && procs[i].pid == x && procs[i].ns == n && x > 0
  {
    if procs != [] {
      var k := |procs| - 1;
      PidListedOnce(procs[..k], n);
      var last := Added(n == procs[k].ns, procs[k].pid);
      forall x
        ensures x in PidsOf(procs, n) <==>
                exists i :: 0 <= i < |procs| && procs[i].pid == x && procs[i].ns == n && x > 0
      {
        if x in PidsOf(procs[..k], n) {
          var i :| 0 <= i < k && procs[..k][i].pid == x && procs[..k][i].ns == n && x > 0;
          assert procs[i].pid == x;
        }
        if i :| 0 <= i < |procs| && procs[i].pid == x && procs[i].ns == n && x > 0 {
          if i < k { assert procs[..k][i].pid == x; }
        }
      }
      NoRepeatAppend(PidsOf(procs[..k], n), last);
    }
  }

  /** The numbers stand in the order in which the processes were met. */
  lemma {:induction false} PidsInOrder(procs: seq<Process>, n: NamespaceID, i: nat, j: nat) returns (a: nat, b: nat)
    requires i < j < |procs| && procs[i].ns == procs[j].ns == n && procs[i].pid > 0 && procs[j].pid > 0
    ensures a < b < |PidsOf(procs, n)| && PidsOf(procs, n)[a] == procs[i].pid && PidsOf(procs, n)[b] == procs[j].pid
    decreases |procs|
  {
    var k := |procs| - 1;
    if j < k {
      a, b := PidsInOrder(procs[..k], n, i, j);
    } else {
      a := PidPlace(procs[..k], n, i);
      b := |PidsOf(procs, n)| - 1;
    }
  }

  lemma {:induction false} PidPlace(procs: seq<Process>, n: NamespaceID, i: nat) returns (a: nat)
    requires i < |procs| && procs[i].ns == n && procs[i].pid > 0
    ensures a < |PidsOf(procs, n)| && PidsOf(procs, n)[a] == procs[i].pid
    decreases |procs|
  {
    var k := |procs| - 1;
    if i < k { a := PidPlace(procs[..k], n, i); } else { a := |PidsOf(procs, n)| - 1; }
  }

  /** The namespace is that of the process or lies above it. */
  ghost predicate FoundBy(w: World, p: Process, n: NamespaceID)
    requires ValidWorld(w)
  {
    p.ns in w.parent && n in Ancestors(w, p.ns)
  }

  /** Found are the namespaces of the processes and what lies above them, and nothing else. */
  lemma {:induction false} FoundMeans(w: World, procs: seq<Process>, n: NamespaceID)
    requires ValidWorld(w) && Known(w, procs)
    ensures n in Found(w, procs) <==> exists p :: p in procs && FoundBy(w, p, n)
    decreases |procs|
  {
    if procs != [] {
      var k := |procs| - 1;
      assert FoundBy(w, procs[k], n) <==> n in Ancestors(w, procs[k].ns);
      hide ValidWorld, Ancestors, FoundBy;
      assert procs == procs[..k] + [procs[k]];
      FoundMeans(w, procs[..k], n);
    }
  }

  class Overview {
    /** What the kernel answers to NS_GET_PARENT. */
    const world: World
    var nsList: NSMap
    var initialNS: Option<NamespaceID>

    /** The initial namespace is remembered once it has been met. */
    ghost predicate Valid(loose: set<NamespaceID>)
      reads this
    {
      && ValidWorld(world) && Tree(world, nsList, loose)
      && (forall n :: n in nsList && world.parent[n].None? ==> initialNS == Some(n))
    }

    constructor (world: World)
      requires ValidWorld(world)
      ensures this.world == world && Valid({}) && nsList == map[]
    {
      this.world, nsList, initialNS := world, map[], None;
    }

    /** The entry is created before its parent is looked at. */
    method Enter(ns: NamespaceID, ghost loose: set<NamespaceID>)
      requires Valid(loose) && ns in world.parent && ns !in nsList
      modifies this
      ensures Valid(loose + {ns}) && nsList == old(nsList)[ns := Attribs([], [])]
    {
      EnterKeepsTree(world, nsList, loose, ns);
      nsList := nsList[ns := Attribs([], [])];
      if world.parent[ns].None? { initialNS := Some(ns); }
    }

    method Link(ns: NamespaceID, par: NamespaceID, ghost loose: set<NamespaceID>)
      requires Valid(loose + {ns}) && ns in nsList && par in nsList && ns !in loose && world.parent[ns] == Some(par)
      modifies this`nsList
      ensures Valid(loose) && nsList.Keys == old(nsList.Keys) && forall n :: Pids(nsList, n) == Pids(old(nsList), n)
    {
      LinkKeepsTree(world, nsList, loose, ns, par);
      nsList := nsList[par := nsList[par].(children := nsList[par].children + [ns])];
    }

    method AddPid(ns: NamespaceID, pid: int, ghost loose: set<NamespaceID>)
      requires Valid(loose) && ns in nsList
      modifies this`nsList
      ensures Valid(loose) && nsList.Keys == old(nsList.Keys)
      ensures forall n :: Pids(nsList, n) == Pids(old(nsList), n) + Added(n == ns, pid)
    {
      if pid > 0 {
        PidKeepsTree(world, nsList, loose, ns, nsList[ns].pids + [pid]);
        nsList := nsList[ns := nsList[ns].(pids := nsList[ns].pids + [pid])];
      }
    }

    method AddNamespace(ns: NamespaceID, pid: int, ghost loose: set<NamespaceID>) returns (id: NamespaceID)
      requires Valid(loose) && ns in world.parent
      requires forall l :: l in loose ==> world.depth[ns] < world.depth[l]
      modifies this
      ensures Valid(loose) && id == ns
      ensures nsList.Keys == old(nsList.Keys) + Ancestors(world, ns)
      ensures forall n :: Pids(nsList, n) == Pids(old(nsList), n) + Added(n == ns, pid)
      decreases world.depth[ns]
    {
      hide Tree, Ancestors;
      AncestorsSplit(world, ns);
      if ns in nsList {
        ClosedUpward(world, nsList, loose, ns);
      } else {
        Enter(ns, loose);
        if world.parent[ns].None? {
          RootNeedsNoParent(world, nsList, loose, ns);
        } else {
          var par := AddNamespace(world.parent[ns].value, -1, loose + {ns});
          AncestorsSplit(world, par);
          Link(ns, par, loose);
        }
      }
      AddPid(ns, pid, loose);
      id := ns;
    }

    method ProcessAll(procs: seq<Process>)
      requires Valid({}) && nsList == map[] && Known(world, procs)
      modifies this
      ensures Valid({}) && nsList.Keys == Found(world, procs)
      ensures forall n :: Pids(nsList, n) == PidsOf(procs, n)
    {
      hide Tree, ValidWorld, Ancestors;
      var i := 0;
      while i < |procs|
        invariant 0 <= i <= |procs| && Valid({}) && nsList.Keys == Found(world, procs[..i])
        invariant forall n :: Pids(nsList, n) == PidsOf(procs[..i], n)
      {
        assert procs[..i + 1][..i] == procs[..i];
        var id := AddNamespace(procs[i].ns, procs[i].pid, {});
        i := i + 1;
      }
      assert procs[..i] == procs;
    }

    method DisplayNamespaceTree(ns: NamespaceID) returns (shown: seq<NamespaceID>)
      requires Valid({}) && ns in nsList
      ensures shown == Visits(world, nsList, ns)
      decreases world.height - world.depth[ns]
    {
      shown := [ns];
      var i, children := 0, nsList[ns].children;
      while i < |children|
        invariant 0 <= i <= |children|
        invariant shown + VisitsOf(world, nsList, ns, children[i..]) == Visits(world, nsList, ns)
      {
        assert children[i] in nsList[ns].children && children[i..][1..] == children[i + 1..];
        ChildOf(world, nsList, ns, children[i]);
        var below := DisplayNamespaceTree(children[i]);
        assert shown + (below + VisitsOf(world, nsList, ns, children[i + 1..]))
            == shown + below + VisitsOf(world, nsList, ns, children[i + 1..]);
        shown := shown + below;
        i := i + 1;
      }
    }

    /** The display that main asks for: every namespace found, each once. */
    method DisplayAll(procs: seq<Process>) returns (shown: seq<NamespaceID>)
      requires Valid({}) && Known(world, procs) && procs != [] && nsList.Keys == Found(world, procs)
      ensures NoRepeat(shown) && forall n :: n in shown <==> n in Found(world, procs)
    {
      ghost var r := TopOf(world, procs[|procs| - 1].ns);
      shown := DisplayNamespaceTree(initialNS.value);
      DisplayIsComplete(world, nsList, initialNS.value);
    }
  }

  lemma {:induction false} TopOf(w: World, n: NamespaceID) returns (r: NamespaceID)
    requires ValidWorld(w) && n in w.parent
    ensures r in Ancestors(w, n) && r in w.parent && w.parent[r].None?
    decreases w.depth[n]
  {
    if w.parent[n].None? { r := n; } else { r := TopOf(w, w.parent[n].value); }
  }

  lemma RootNeedsNoParent(w: World, m: NSMap, loose: set<NamespaceID>, n: NamespaceID)
    requires Tree(w, m, loose + {n}) && n in m && w.parent[n].None? && n !in loose
    ensures Tree(w, m, loose)
  {
  }

  lemma PidKeepsTree(w: World, m: NSMap, loose: set<NamespaceID>, n: NamespaceID, pids: seq<int>)
    requires Tree(w, m, loose) && n in m
    ensures Tree(w, m[n := m[n].(pids := pids)], loose)
  {
    var m' := m[n := m[n].(pids := pids)];
    assert forall p :: p in m ==> m'[p].children == m[p].children;
    forall x | x in m' && x !in loose ensures ListedByParent(w, m', x) { assert ListedByParent(w, m, x); }
  }

  lemma AncestorsSplit(w: World, n: NamespaceID)
    requires ValidWorld(w) && n in w.parent
    ensures n in Ancestors(w, n)
    ensures Ancestors(w, n) == {n} + if w.parent[n].None? then {} else Ancestors(w, w.parent[n].value)
  {
  }

  function Pids(m: NSMap, n: NamespaceID): seq<int> {
    if n in m then m[n].pids else []
  }

  function Added(here: bool, pid: int): seq<int> {
    if here && pid > 0 then [pid] else []
  }
}
