/** A rename within, out of or into the monitored trees, handled before the next change. */
module DirTreeRename {
  import opened DirTreePaths
  import opened DirTreeState
  import opened DirTreeSync
  import opened DirTreeRuns

  /** A legal rename from an agreeing state that moves no directory above a root. */
  ghost predicate Renaming(s: State, a: Path, b: Path, listing: seq<Path>) {
    && Synced(s) && Legal(s, Rename(a, b), listing)
    && (forall r :: IsRoot(s, r) && a <= r ==> r == a)
  }

  lemma NotBelowTarget(s: State, a: Path, b: Path, listing: seq<Path>, q: Path)
    requires Renaming(s, a, b, listing) && Exists(s, q) && b <= q
    ensures q == b
  {
  }

  lemma ComponentsOfMoved(a: Path, b: Path, p: Path)
    requires Components(b) && b <= p && Components(a + p[|b|..])
    ensures Components(p)
  {
    forall i | 0 <= i < |p|
      ensures Plain(p[i])
    {
      if i < |b| { assert p[i] == b[i]; } else { assert p[i] == (a + p[|b|..])[|a| + i - |b|]; }
    }
  }

  lemma RenameClosed(s: State, t: State, a: Path, b: Path, listing: seq<Path>)
    requires Renaming(s, a, b, listing) && t.kernel.listing == listing
    ensures Closed(t)
  {
    assert Components(b) by {
      if |b| > 1 { assert Components(Parent(b)); }
      assert b == Parent(b) + [Name(b)];
    }
    forall p | Exists(t, p)
      ensures Components(p)
    {
      if b <= p { ComponentsOfMoved(a, b, p); }
    }
    forall p, q | Above(q, p) && Exists(t, p)
      ensures Exists(t, q)
    {
      if b <= q {
        assert Above(a + q[|b|..], a + p[|b|..]);
      } else if b <= p {
        Comparable(b, q, p);
        AboveChild(q, b);
        assert Above(q, Parent(b));
        if a <= q { Transitive(a, q, b); }
      } else if a <= q {
        Transitive(a, q, p);
      }
    }
  }

  lemma RenameRoots(s: State, t: State, a: Path, b: Path, listing: seq<Path>)
    requires Renaming(s, a, b, listing)
    requires t.roots == Without(s.roots, {a, b}) && t.kernel.listing == listing
    ensures RootsApart(t)
  {
    forall r | IsRoot(s, r) && r !in {a, b}
      ensures Exists(t, r)
    {
      if b <= r { NotBelowTarget(s, a, b, listing, r); }
    }
    RootsStayApart(s, t, {a, b});
  }

  lemma MonitoredBelowTarget(s: State, t: State, a: Path, b: Path, q: Path)
    requires t.roots == Without(s.roots, {a, b}) && b != [] && b <= q && !(a <= b)
    requires forall r :: IsRoot(s, r) && b <= r ==> r == b
    ensures Monitored(t, q) <==> Monitored(s, Parent(b))
  {
    RootsWithout(s, t, {a, b});
    if Monitored(t, q) {
      var r :| IsRoot(t, r) && r <= q;
      assert IsRoot(s, r) && r != b;
      Comparable(r, b, q);
      AboveChild(r, b);
    }
    if Monitored(s, Parent(b)) {
      var r :| IsRoot(s, r) && r <= Parent(b);
      AboveChild(r, b);
      Transitive(r, b, q);
      assert IsRoot(t, r);
    }
  }

  lemma MonitoredElsewhere(s: State, t: State, a: Path, b: Path, q: Path)
    requires t.roots == Without(s.roots, {a, b}) && !(a <= q) && !(b <= q)
    ensures Monitored(t, q) <==> Monitored(s, q)
  {
    RootsWithout(s, t, {a, b});
    if Monitored(t, q) {
      var r :| IsRoot(t, r) && r <= q;
      assert IsRoot(s, r);
    }
    if Monitored(s, q) {
      var r :| IsRoot(s, r) && r <= q;
      assert IsRoot(t, r);
    }
  }

  /** What must hold of the watches for the agreement to be back after a rename. */
  ghost predicate RightWatches(s: State, t: State, a: Path, b: Path, listing: seq<Path>)
    requires b != []
  {
    && (forall q :: q in t.kernel.watch ==> q in listing)
    && (forall q :: q in listing && b <= q ==> (q in t.kernel.watch <==> Monitored(s, Parent(b))))
    && (forall q :: q in t.kernel.watch && b <= q ==> !t.kernel.watch[q].moveSelf)
    && (forall q :: q in listing && !(b <= q) ==> (q in t.kernel.watch <==> q in s.kernel.watch))
    && (forall q :: q in t.kernel.watch && !(b <= q) ==> t.kernel.watch[q] == s.kernel.watch[q])
  }

  lemma RenameCovered(s: State, t: State, a: Path, b: Path, listing: seq<Path>)
    requires Renaming(s, a, b, listing) && b != []
    requires t.running && t.roots == Without(s.roots, {a, b}) && t.kernel.listing == listing
    requires Linked(t) && RightWatches(s, t, a, b, listing)
    ensures Synced(t)
  {
    hide Closed, RootsApart, Linked, Monitored;
    RenameClosed(s, t, a, b, listing);
    RenameRoots(s, t, a, b, listing);
    RootsWithout(s, t, {a, b});
    forall r | IsRoot(s, r) && b <= r
      ensures r == b
    {
      RootExists(s, r);
      NotBelowTarget(s, a, b, listing, r);
    }
    forall q | q in listing
      ensures b <= q ==> (Monitored(t, q) <==> Monitored(s, Parent(b)))
      ensures !(b <= q) ==> (Monitored(t, q) <==> Monitored(s, q))
    {
      if b <= q { MonitoredBelowTarget(s, t, a, b, q); } else { MonitoredElsewhere(s, t, a, b, q); }
    }
    forall q | q in t.kernel.watch
      ensures t.kernel.watch[q].moveSelf <==> IsRoot(t, q)
    {
      if b <= q && IsRoot(t, q) { RootExists(s, q); NotBelowTarget(s, a, b, listing, q); }
    }
    assert forall q :: q in listing && !(b <= q) ==> Exists(s, q);
  }

  // ---- the watches follow the directories ---------------------------------------------------

  /** The watches w after a rename are those of k before it, at the new places. */
  ghost predicate Follows(k: Kernel, w: map<Path, Watch>, a: Path, b: Path) {
    && (forall q {:trigger w[q]} :: q in w ==> Back(a, b, q) in k.watch && w[q] == k.watch[Back(a, b, q)])
    && (forall q :: q in w && !(b <= q) ==> !(a <= q))
    && (forall p {:trigger Moved(a, b, p)} :: p in k.watch && p != b ==>
          Moved(a, b, p) in w && w[Moved(a, b, p)] == k.watch[p])
  }

  lemma WatchesFollow(s: State, a: Path, b: Path, listing: seq<Path>)
    requires Renaming(s, a, b, listing)
    ensures Follows(s.kernel, Changed(s, Rename(a, b), listing).kernel.watch, a, b)
  {
    hide Closed, RootsApart, Linked, Monitored, Legal;
    var w := Changed(s, Rename(a, b), listing).kernel.watch;
    forall q | q in w && !(b <= q)
      ensures !(a <= q)
    {
      NotLeftBehind(s, a, b, listing, q);
    }
    forall p | p in s.kernel.watch && p != b
      ensures Moved(a, b, p) in w && w[Moved(a, b, p)] == s.kernel.watch[p]
    {
      MovedAlong(s, a, b, listing, p);
    }
  }

  lemma NotLeftBehind(s: State, a: Path, b: Path, listing: seq<Path>, q: Path)
    requires Legal(s, Rename(a, b), listing) && q in listing && !(b <= q)
    ensures !(a <= q)
  {
  }

  /** Every directory but the replaced one is found again at its new place. */
  lemma MovedAlong(s: State, a: Path, b: Path, listing: seq<Path>, p: Path)
    requires Closed(s) && Legal(s, Rename(a, b), listing) && Exists(s, p) && p != b
    ensures Moved(a, b, p) in listing && Back(a, b, Moved(a, b, p)) == p
  {
    if a <= p {
      BackOfMoved(a, b, p);
      assert a + Moved(a, b, p)[|b|..] == p;
    } else if b <= p {
      assert Above(b, p);
    }
  }
}
