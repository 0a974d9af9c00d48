/** The order of the display: a namespace before those below it, and the children of one in their order. */
module NamespaceOrder {
  import opened Options
  import opened Tables
  import opened Namespaces

  ghost predicate Above(w: World, a: NamespaceID, n: NamespaceID)
    requires ValidWorld(w)
  {
    n in w.parent && a in Ancestors(w, n)
  }

  lemma AboveAbove(w: World, a: NamespaceID, b: NamespaceID, n: NamespaceID)
    requires ValidWorld(w) && b in w.parent && Above(w, a, b) && Above(w, b, n)
    ensures Above(w, a, n) && (a != b ==> a != n)
  {
    AncestorsTransitive(w, b, n);
    AncestorsAbove(w, b);
    AncestorsAbove(w, n);
  }

  lemma ParentAbove(w: World, p: NamespaceID, c: NamespaceID)
    requires ValidWorld(w) && c in w.parent && w.parent[c] == Some(p)
    ensures Above(w, p, c) && p != c
  {
  }

  // ---- the part of the display for one child ------------------------------------------------

  ghost function StartOf(w: World, m: NSMap, ns: NamespaceID, k: nat): nat
    requires ValidWorld(w) && Tree(w, m, {}) && ns in m && k <= |m[ns].children|
  {
    |VisitsOf(w, m, ns, m[ns].children[..k])|
  }

  lemma {:induction false} VisitsOfAppend(w: World, m: NSMap, ns: NamespaceID, a: seq<NamespaceID>, b: seq<NamespaceID>)
    requires ValidWorld(w) && Tree(w, m, {}) && ns in m
    requires forall c :: c in a + b ==> c in m[ns].children
    ensures VisitsOf(w, m, ns, a + b) == VisitsOf(w, m, ns, a) + VisitsOf(w, m, ns, b)
    decreases |a|
  {
    if a == [] {
      assert a + b == b;
    } else {
      hide Tree, ValidWorld, Visits;
      assert a[0] in a + b;
      ChildOf(w, m, ns, a[0]);
      assert (a + b)[1..] == a[1..] + b && a + b == [a[0]] + (a[1..] + b);
      VisitsOfAppend(w, m, ns, a[1..], b);
    }
  }

  lemma Segments(w: World, m: NSMap, ns: NamespaceID, k: nat)
    requires ValidWorld(w) && Tree(w, m, {}) && ns in m && k < |m[ns].children|
    ensures m[ns].children[k] in m
    ensures var cs := m[ns].children;
      && VisitsOf(w, m, ns, cs)
      == VisitsOf(w, m, ns, cs[..k]) + Visits(w, m, cs[k]) + VisitsOf(w, m, ns, cs[k + 1..])
      && StartOf(w, m, ns, k + 1) == StartOf(w, m, ns, k) + |Visits(w, m, cs[k])|
  {
    var cs := m[ns].children;
    ChildOf(w, m, ns, cs[k]);
    hide Tree, ValidWorld, Visits;
    assert cs[..k + 1] == cs[..k] + [cs[k]] && cs == cs[..k + 1] + cs[k + 1..];
    VisitsOfAppend(w, m, ns, cs[..k], [cs[k]]);
    VisitsOfAppend(w, m, ns, cs[..k + 1], cs[k + 1..]);
    assert VisitsOf(w, m, ns, [cs[k]]) == Visits(w, m, cs[k]) + VisitsOf(w, m, ns, [cs[k]][1..]);
  }

  lemma StartsGrow(w: World, m: NSMap, ns: NamespaceID, a: nat, b: nat)
    requires ValidWorld(w) && Tree(w, m, {}) && ns in m && a <= b <= |m[ns].children|
    ensures StartOf(w, m, ns, a) <= StartOf(w, m, ns, b)
  {
    var cs := m[ns].children;
    hide Tree, ValidWorld;
    assert cs[..b] == cs[..a] + cs[a..b];
    VisitsOfAppend(w, m, ns, cs[..a], cs[a..b]);
  }

  /** What is displayed for other children does not lie below this one. */
  lemma OtherChild(w: World, m: NSMap, ns: NamespaceID, some: seq<NamespaceID>, c: NamespaceID, n: NamespaceID)
    requires ValidWorld(w) && Tree(w, m, {}) && ns in m && c in m[ns].children && c !in some && NoRepeat(some)
    requires forall d :: d in some ==> d in m[ns].children
    requires n in VisitsOf(w, m, ns, some)
    ensures !Above(w, c, n)
  {
    VisitsOfSubtrees(w, m, ns, some);
    var d :| d in some && d in Ancestors(w, n);
    ChildOf(w, m, ns, c);
    ChildOf(w, m, ns, d);
    if Above(w, c, n) { SiblingsShareNothing(w, ns, c, d, n); }
  }

  lemma PartsRepeatNothing<T>(s: seq<T>, k: nat)
    requires NoRepeat(s) && k < |s|
    ensures NoRepeat(s[..k]) && NoRepeat(s[k + 1..]) && s[k] !in s[..k] && s[k] !in s[k + 1..]
  {
  }

  lemma Segment(w: World, m: NSMap, ns: NamespaceID, k: nat, i: nat)
    requires ValidWorld(w) && Tree(w, m, {}) && ns in m && k < |m[ns].children|
    requires i < |VisitsOf(w, m, ns, m[ns].children)|
    requires Above(w, m[ns].children[k], VisitsOf(w, m, ns, m[ns].children)[i])
    ensures m[ns].children[k] in m
    ensures var lo, mine := StartOf(w, m, ns, k), Visits(w, m, m[ns].children[k]);
      lo <= i < lo + |mine| && VisitsOf(w, m, ns, m[ns].children)[i] == mine[i - lo]
  {
    var cs := m[ns].children;
    PartsRepeatNothing(cs, k);
    Segments(w, m, ns, k);
    hide Tree, ValidWorld, Visits, VisitsOf, NoRepeat, Above;
    var all := VisitsOf(w, m, ns, cs);
    var before, mine := VisitsOf(w, m, ns, cs[..k]), Visits(w, m, cs[k]);
    var after := VisitsOf(w, m, ns, cs[k + 1..]);
    if i < |before| {
      assert all[i] == before[i];
      OtherChild(w, m, ns, cs[..k], cs[k], all[i]);
    } else if i >= |before| + |mine| {
      assert all[i] == after[i - |before| - |mine|];
      OtherChild(w, m, ns, cs[k + 1..], cs[k], all[i]);
    }
  }

  // ---- the order ----------------------------------------------------------------------------

  /** Both are displayed in the part for the same child. */
  lemma BothBelow(w: World, m: NSMap, ns: NamespaceID, c: NamespaceID, i: nat, j: nat) returns (k: nat)
    requires ValidWorld(w) && Tree(w, m, {}) && ns in m && c in m[ns].children
    requires i < |Visits(w, m, ns)| && j < |Visits(w, m, ns)|
    requires Above(w, c, Visits(w, m, ns)[i]) && Above(w, c, Visits(w, m, ns)[j])
    ensures c in m && k < |m[ns].children| && m[ns].children[k] == c
    ensures var lo, mine := 1 + StartOf(w, m, ns, k), Visits(w, m, c);
      && lo <= i < lo + |mine| && Visits(w, m, ns)[i] == mine[i - lo]
      && lo <= j < lo + |mine| && Visits(w, m, ns)[j] == mine[j - lo]
  {
    ChildOf(w, m, ns, c);
    hide Tree, ValidWorld, Visits, Above;
    k :| 0 <= k < |m[ns].children| && m[ns].children[k] == c;
    InPart(w, m, ns, k, i);
    InPart(w, m, ns, k, j);
  }

  lemma InPart(w: World, m: NSMap, ns: NamespaceID, k: nat, i: nat)
    requires ValidWorld(w) && Tree(w, m, {}) && ns in m && k < |m[ns].children|
    requires i < |Visits(w, m, ns)| && Above(w, m[ns].children[k], Visits(w, m, ns)[i])
    ensures m[ns].children[k] in m
    ensures var lo, mine := 1 + StartOf(w, m, ns, k), Visits(w, m, m[ns].children[k]);
      lo <= i < lo + |mine| && Visits(w, m, ns)[i] == mine[i - lo]
  {
    var c := m[ns].children[k];
    ChildOf(w, m, ns, c);
    NotAboveParent(w, ns, c);
    var v, rest := Visits(w, m, ns), VisitsOf(w, m, ns, m[ns].children);
    assert v == [ns] + rest;
    hide Tree, ValidWorld, Visits, VisitsOf, Above;
    assert i > 0 && v[i] == rest[i - 1];
    Segment(w, m, ns, k, i - 1);
  }

  lemma NotAboveParent(w: World, p: NamespaceID, c: NamespaceID)
    requires ValidWorld(w) && p in w.parent && c in w.parent && w.parent[c] == Some(p)
    ensures !Above(w, c, p)
  {
    AncestorsAbove(w, p);
  }

  /** All but the first of the display lie below some child. */
  lemma ChildOver(w: World, m: NSMap, ns: NamespaceID, i: nat) returns (c: NamespaceID)
    requires ValidWorld(w) && Tree(w, m, {}) && ns in m && 0 < i < |Visits(w, m, ns)|
    ensures c in m[ns].children && Visits(w, m, ns)[i] in w.parent && Above(w, c, Visits(w, m, ns)[i])
  {
    var v := Visits(w, m, ns);
    VisitsSubtree(w, m, ns);
    assert v[i] in v && v[0] == ns;
    c := ChildAbove(w, m, ns, v[i]);
  }

  /** A namespace is displayed before every namespace below it. */
  lemma {:induction false} AncestorsFirst(w: World, m: NSMap, ns: NamespaceID, i: nat, j: nat)
    requires ValidWorld(w) && Tree(w, m, {}) && ns in m
    requires i < |Visits(w, m, ns)| && j < |Visits(w, m, ns)|
    requires Above(w, Visits(w, m, ns)[i], Visits(w, m, ns)[j]) && Visits(w, m, ns)[i] != Visits(w, m, ns)[j]
    ensures i < j
    decreases w.height - w.depth[ns]
  {
    var v := Visits(w, m, ns);
    if i == 0 {
      assert v[0] == ns;
    } else {
      var c := ChildOver(w, m, ns, i);
      ChildOf(w, m, ns, c);
      hide Tree, ValidWorld, Visits, Above, Ancestors;
      AboveAbove(w, c, v[i], v[j]);
      var k := BothBelow(w, m, ns, c, i, j);
      var lo := 1 + StartOf(w, m, ns, k);
      AncestorsFirst(w, m, c, i - lo, j - lo);
    }
  }

  /** What lies below one child is displayed before what lies below a later child. */
  lemma {:induction false} ChildrenInOrder(w: World, m: NSMap, ns: NamespaceID, p: NamespaceID, a: nat, b: nat,
                                           i: nat, j: nat)
    requires ValidWorld(w) && Tree(w, m, {}) && ns in m && p in m && Above(w, ns, p) && a < b < |m[p].children|
    requires i < |Visits(w, m, ns)| && j < |Visits(w, m, ns)|
    requires Above(w, m[p].children[a], Visits(w, m, ns)[i]) && Above(w, m[p].children[b], Visits(w, m, ns)[j])
    ensures i < j
    decreases w.height - w.depth[ns]
  {
    var v, ca, cb := Visits(w, m, ns), m[p].children[a], m[p].children[b];
    ChildOf(w, m, p, ca);
    ChildOf(w, m, p, cb);
    if p == ns {
      hide Tree, ValidWorld, Visits, Above;
      InPart(w, m, ns, a, i);
      InPart(w, m, ns, b, j);
      Segments(w, m, ns, a);
      StartsGrow(w, m, ns, a + 1, b);
    } else {
      var c := ChildAbove(w, m, ns, p);
      ChildOf(w, m, ns, c);
      ParentAbove(w, p, ca);
      ParentAbove(w, p, cb);
      hide Tree, ValidWorld, Visits, Above, Ancestors;
      AboveAbove(w, p, ca, v[i]);
      AboveAbove(w, p, cb, v[j]);
      AboveAbove(w, c, p, v[i]);
      AboveAbove(w, c, p, v[j]);
      var k := BothBelow(w, m, ns, c, i, j);
      var lo := 1 + StartOf(w, m, ns, k);
      ChildrenInOrder(w, m, c, p, a, b, i - lo, j - lo);
    }
  }
}
