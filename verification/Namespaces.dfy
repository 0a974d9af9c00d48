/** The user namespaces that exist, and the tree of those that were found through processes. */
module Namespaces {
  import opened Options
  import opened Tables

  datatype NamespaceID = NamespaceID(device: nat, inode: nat)

  datatype Attribs = Attribs(children: seq<NamespaceID>, pids: seq<int>)

  type NSMap = map<NamespaceID, Attribs>

  /** The kernel's answers: the parent of each namespace, none for the initial one. The depth witnesses that
      the relation has no cycle. */
  datatype World = World(parent: map<NamespaceID, Option<NamespaceID>>, depth: map<NamespaceID, nat>, height: nat)

  ghost predicate ValidWorld(w: World) {
    && w.depth.Keys == w.parent.Keys
    && (forall n :: n in w.parent ==> w.depth[n] <= w.height)
    && (forall n :: n in w.parent && w.parent[n].Some? ==>
          w.parent[n].value in w.parent && w.depth[w.parent[n].value] < w.depth[n])
    && (forall n, m :: n in w.parent && m in w.parent && w.parent[n].None? && w.parent[m].None? ==> n == m)
  }

  /** A namespace and everything above it. */
  ghost function Ancestors(w: World, n: NamespaceID): set<NamespaceID>
    requires ValidWorld(w) && n in w.parent
    decreases w.depth[n]
  {
    {n} + if w.parent[n].None? then {} else Ancestors(w, w.parent[n].value)
  }

  lemma {:induction false} AncestorsAbove(w: World, n: NamespaceID)
    requires ValidWorld(w) && n in w.parent
    ensures Ancestors(w, n) <= w.parent.Keys
    ensures forall a :: a in Ancestors(w, n) && a != n ==> w.depth[a] < w.depth[n]
    decreases w.depth[n]
  {
    if w.parent[n].Some? { AncestorsAbove(w, w.parent[n].value); }
  }

  lemma {:induction false} AncestorsTransitive(w: World, a: NamespaceID, n: NamespaceID)
    requires ValidWorld(w) && n in w.parent && a in Ancestors(w, n)
    ensures a in w.parent && Ancestors(w, a) <= Ancestors(w, n)
    decreases w.depth[n]
  {
    if a != n { AncestorsTransitive(w, a, w.parent[n].value); }
  }

  /** What lies above one namespace forms a chain. */
  lemma {:induction false} AncestorsChain(w: World, a: NamespaceID, b: NamespaceID, n: NamespaceID)
    requires ValidWorld(w) && n in w.parent && a in Ancestors(w, n) && b in Ancestors(w, n)
    ensures a in w.parent && b in w.parent && (a in Ancestors(w, b) || b in Ancestors(w, a))
    decreases w.depth[n]
  {
    AncestorsAbove(w, n);
    if a != n && b != n { AncestorsChain(w, a, b, w.parent[n].value); }
  }

  /** Every namespace is below the initial one. */
  lemma {:induction false} RootAbove(w: World, root: NamespaceID, n: NamespaceID)
    requires ValidWorld(w) && n in w.parent && root in w.parent && w.parent[root].None?
    ensures root in Ancestors(w, n)
    decreases w.depth[n]
  {
    if w.parent[n].Some? { RootAbove(w, root, w.parent[n].value); }
  }

  // ---- the map being built ------------------------------------------------------------------

  /** The map is a tree that follows the kernel's: each entry is listed once, by its own parent and nowhere
      else. The namespaces in loose have been entered and not yet been given to their parent. */
  ghost predicate Tree(w: World, m: NSMap, loose: set<NamespaceID>) {
    && m.Keys <= w.parent.Keys && loose <= m.Keys
    && (forall n {:trigger ListedByParent(w, m, n)} :: n in m && n !in loose ==> ListedByParent(w, m, n))
    && (forall p, c {:trigger c in m[p].children} :: p in m && c in m[p].children ==>
          c in m && c !in loose && w.parent[c] == Some(p))
    && (forall p {:trigger m[p]} :: p in m ==> NoRepeat(m[p].children))
  }

  ghost predicate ListedByParent(w: World, m: NSMap, n: NamespaceID) {
    n in w.parent && w.parent[n].Some? ==>
      w.parent[n].value in m && n in m[w.parent[n].value].children
  }

  /** The map holds, with an entry, all that lies above it. */
  lemma {:induction false} ClosedUpward(w: World, m: NSMap, loose: set<NamespaceID>, n: NamespaceID)
    requires ValidWorld(w) && Tree(w, m, loose) && n in m
    requires forall l :: l in loose ==> l != n && w.depth[n] < w.depth[l]
    ensures Ancestors(w, n) <= m.Keys
    decreases w.depth[n]
  {
    assert ListedByParent(w, m, n);
    if w.parent[n].Some? { ClosedUpward(w, m, loose, w.parent[n].value); }
  }

  lemma EnterKeepsTree(w: World, m: NSMap, loose: set<NamespaceID>, n: NamespaceID)
    requires Tree(w, m, loose) && n !in m && n in w.parent
    ensures Tree(w, m[n := Attribs([], [])], loose + {n})
  {
    var m' := m[n := Attribs([], [])];
    forall x | x in m' && x !in loose + {n} ensures ListedByParent(w, m', x) { assert ListedByParent(w, m, x); }
  }

  lemma LinkKeepsTree(w: World, m: NSMap, loose: set<NamespaceID>, n: NamespaceID, p: NamespaceID)
    requires Tree(w, m, loose + {n}) && n !in loose && n in m && p in m && w.parent[n] == Some(p)
    ensures Tree(w, m[p := m[p].(children := m[p].children + [n])], loose)
  {
    var m' := m[p := m[p].(children := m[p].children + [n])];
    assert n !in m[p].children;
    assert NoRepeat(m'[p].children);
    assert forall c :: c in m'[p].children <==> c in m[p].children || c == n;
    forall x | x in m' && x !in loose ensures ListedByParent(w, m', x) {
      if x != n { assert ListedByParent(w, m, x); }
    }
  }

  lemma ChildOf(w: World, m: NSMap, ns: NamespaceID, c: NamespaceID)
    requires ValidWorld(w) && Tree(w, m, {}) && ns in m && c in m[ns].children
    ensures c in m && c in w.parent && w.parent[c] == Some(ns) && w.depth[ns] < w.depth[c] <= w.height
  {
  }

  // ---- displaying ---------------------------------------------------------------------------

  /** The order in which the tree below ns is displayed. */
  ghost function Visits(w: World, m: NSMap, ns: NamespaceID): seq<NamespaceID>
    requires ValidWorld(w) && Tree(w, m, {}) && ns in m
    decreases w.height - w.depth[ns], 1, 0
  {
    [ns] + VisitsOf(w, m, ns, m[ns].children)
  }

  ghost function VisitsOf(w: World, m: NSMap, ns: NamespaceID, cs: seq<NamespaceID>): seq<NamespaceID>
    requires ValidWorld(w) && Tree(w, m, {}) && ns in m
    requires forall c :: c in cs ==> c in m[ns].children
    decreases w.height - w.depth[ns], 0, |cs|
  {
    if cs == [] then []
    else
      ChildOf(w, m, ns, cs[0]);
      Visits(w, m, cs[0]) + VisitsOf(w, m, ns, cs[1..])
  }

  lemma {:induction false} VisitsSubtree(w: World, m: NSMap, ns: NamespaceID)
    requires ValidWorld(w) && Tree(w, m, {}) && ns in m
    ensures forall n :: n in Visits(w, m, ns) <==> n in m && ns in Ancestors(w, n)
    ensures NoRepeat(Visits(w, m, ns))
    decreases w.height - w.depth[ns], 1, 0
  {
    var cs := m[ns].children;
    var rest := VisitsOf(w, m, ns, cs);
    VisitsOfSubtrees(w, m, ns, cs);
    forall n
      ensures n in [ns] + rest <==> n in m && ns in Ancestors(w, n)
    {
      if n in rest {
        var c :| c in cs && n in m && c in Ancestors(w, n);
        AncestorsTransitive(w, c, n);
        assert ns in Ancestors(w, c);
      }
      if n in m && ns in Ancestors(w, n) && n != ns {
        var c := ChildAbove(w, m, ns, n);
      }
    }
    assert ns !in rest by {
      if ns in rest {
        var c :| c in cs && ns in m && c in Ancestors(w, ns);
        AncestorsAbove(w, ns);
      }
    }
  }

  /** Between a namespace and one below it there is a child of the former. */
  lemma {:induction false} ChildAbove(w: World, m: NSMap, ns: NamespaceID, n: NamespaceID) returns (c: NamespaceID)
    requires ValidWorld(w) && Tree(w, m, {}) && ns in m && n in m && ns in Ancestors(w, n) && n != ns
    ensures c in m[ns].children && c in Ancestors(w, n)
    decreases w.depth[n]
  {
    var p := w.parent[n].value;
    assert ListedByParent(w, m, n);
    if p == ns { c := n; } else { c := ChildAbove(w, m, ns, p); }
  }

  lemma TailHasNone<T>(s: seq<T>)
    requires s != [] && NoRepeat(s)
    ensures NoRepeat(s[1..]) && s[0] !in s[1..]
  {
  }

  lemma {:induction false} VisitsOfSubtrees(w: World, m: NSMap, ns: NamespaceID, cs: seq<NamespaceID>)
    requires ValidWorld(w) && Tree(w, m, {}) && ns in m && NoRepeat(cs)
    requires forall c :: c in cs ==> c in m[ns].children
    ensures forall n :: n in VisitsOf(w, m, ns, cs) <==> n in m && exists c :: c in cs && c in Ancestors(w, n)
    ensures NoRepeat(VisitsOf(w, m, ns, cs))
    decreases w.height - w.depth[ns], 0, |cs|
  {
    if cs != [] {
      hide Tree, ValidWorld, Ancestors, NoRepeat, Visits;
      TailHasNone(cs);
      var c := cs[0];
      ChildOf(w, m, ns, c);
      assert cs == [c] + cs[1..];
      VisitsSubtree(w, m, c);
      VisitsOfSubtrees(w, m, ns, cs[1..]);
      var first, rest := Visits(w, m, c), VisitsOf(w, m, ns, cs[1..]);
      forall n | n in first
        ensures n !in rest
      {
        if n in rest {
          var d :| d in cs[1..] && d in Ancestors(w, n);
          ChildOf(w, m, ns, d);
          SiblingsShareNothing(w, ns, c, d, n);
        }
      }
      NoRepeatAppend(first, rest);
      forall n
        ensures n in first + rest <==> n in m && exists d :: d in cs && d in Ancestors(w, n)
      {
        if n in rest {
          var d :| d in cs[1..] && d in Ancestors(w, n);
          assert d in cs;
        }
        if n in m && exists d :: d in cs && d in Ancestors(w, n) {
          var d :| d in cs && d in Ancestors(w, n);
          assert d == c || d in cs[1..];
        }
      }
    }
  }

  lemma SiblingsShareNothing(w: World, ns: NamespaceID, c: NamespaceID, d: NamespaceID, n: NamespaceID)
    requires ValidWorld(w) && n in w.parent && c in w.parent && d in w.parent
    requires w.parent[c] == Some(ns) && w.parent[d] == Some(ns)
    requires c in Ancestors(w, n) && d in Ancestors(w, n)
    ensures c == d
  {
    AncestorsChain(w, c, d, n);
    AncestorsAbove(w, ns);
  }

  /** The display started at the initial namespace shows every entry of the map exactly once. */
  lemma DisplayIsComplete(w: World, m: NSMap, root: NamespaceID)
    requires ValidWorld(w) && Tree(w, m, {}) && root in m && w.parent[root].None?
    ensures NoRepeat(Visits(w, m, root))
    ensures forall n :: n in Visits(w, m, root) <==> n in m
  {
    VisitsSubtree(w, m, root);
    forall n | n in m ensures root in Ancestors(w, n) { RootAbove(w, root, n); }
  }
}
