/** Each kind of change, handled before the next one, keeps the agreement of cache, watches and tree. */
module DirTreeSteps {
  import opened Options
  import opened DirTreePaths
  import opened DirTreeState
  import opened DirTreeSync
  import opened DirTreeRuns

  /** A monitored directory that is no root has a watched parent. */
  lemma WatchedParent(s: State, p: Path)
    requires Closed(s) && Covered(s) && p != [] && !IsRoot(s, p)
    requires |p| == 1 || Exists(s, Parent(p))
    requires RootsApart(s)
    ensures Parent(p) in s.kernel.watch <==> Monitored(s, p)
    ensures Monitored(s, Parent(p)) <==> Monitored(s, p)
  {
    if Monitored(s, p) {
      var r :| IsRoot(s, r) && r <= p;
      AboveChild(r, p);
      assert Exists(s, r);
    }
    if Monitored(s, Parent(p)) {
      var r :| IsRoot(s, r) && r <= Parent(p);
      AboveChild(r, p);
      assert Exists(s, r);
    }
  }

  lemma RootWatched(s: State, r: Path)
    requires RootsApart(s) && Covered(s) && IsRoot(s, r)
    ensures r in s.kernel.watch && Monitored(s, r)
  {
  }

  lemma SameRoots(s: State, t: State, p: Path)
    requires s.roots == t.roots
    ensures Monitored(t, p) <==> Monitored(s, p)
  {
    if Monitored(s, p) { var r :| IsRoot(s, r) && r <= p; assert IsRoot(t, r); }
    if Monitored(t, p) { var r :| IsRoot(t, r) && r <= p; assert IsRoot(s, r); }
  }

  // ---- mkdir --------------------------------------------------------------------------------

  lemma MkdirListing(s: State, d: Path, listing: seq<Path>)
    requires Synced(s) && Legal(s, Mkdir(d), listing)
    ensures Closed(Changed(s, Mkdir(d), listing)) && RootsApart(Changed(s, Mkdir(d), listing))
    ensures Chosen(d, listing) == {d}
  {
    var t := Changed(s, Mkdir(d), listing);
    NothingRemoved(s, {});
    RootsStayApart(s, t, {});
    forall p, q | Above(q, p) && Exists(t, p)
      ensures Exists(t, q)
    {
      if p == d {
        AboveChild(q, d);
        assert q != d ==> Above(q, Parent(d));
      }
    }
    assert d in listing;
    forall p | p in listing && d <= p ensures p == d { assert Above(d, p); }
  }

  lemma MkdirCovered(s: State, t: State, d: Path, listing: seq<Path>)
    requires Synced(s) && Legal(s, Mkdir(d), listing)
    requires t.roots == s.roots && t.running && t.kernel.listing == listing && Linked(t)
    requires t.kernel.watch.Keys == s.kernel.watch.Keys + (if Monitored(s, d) then {d} else {})
    requires forall p :: p in s.kernel.watch ==> t.kernel.watch[p] == s.kernel.watch[p]
    requires d in t.kernel.watch ==> t.kernel.watch[d].moveSelf == IsRoot(s, d)
    ensures Synced(t)
  {
    hide Linked, Monitored;
    MkdirListing(s, d, listing);
    forall p ensures Monitored(t, p) <==> Monitored(s, p) { SameRoots(s, t, p); }
    assert forall p :: IsRoot(t, p) <==> IsRoot(s, p);
  }

  lemma MkdirSyncs(s: State, d: Path, listing: seq<Path>)
    requires Synced(s) && Legal(s, Mkdir(d), listing)
    ensures AllWellFormed(EventsOf(s, Mkdir(d), 0))
    ensures var t := HandleAll(Changed(s, Mkdir(d), listing), EventsOf(s, Mkdir(d), 0));
      Synced(t) && Outcome(s, t, Mkdir(d), listing)
  {
    hide Closed, RootsApart, Monitored;
    var s1 := Changed(s, Mkdir(d), listing);
    var evs := EventsOf(s, Mkdir(d), 0);
    if IsRoot(s, d) { RootExists(s, d); }
    WatchedParent(s, d);
    MkdirListing(s, d, listing);
    if Parent(d) in s.kernel.watch {
      var e := evs[0];
      assert s.view[e.wd] == Parent(d);
      assert Parent(d) + [Name(d)] == d;
      if d in s.view.Values { var wd := KeyOf(s.view, d); }
      assert evs == [e] + [];
      HandleOne(s1, e, []);
      WatchListAdds(s1, d, listing);
      MkdirCovered(s, WatchSubtree(s1, d), d, listing);
      RootsUnchanged(s, WatchSubtree(s1, d), Mkdir(d), listing);
    } else {
      MkdirCovered(s, s1, d, listing);
      RootsUnchanged(s, s1, Mkdir(d), listing);
    }
  }

  // ---- rmdir --------------------------------------------------------------------------------

  lemma RmdirMonitored(s: State, t: State, d: Path, p: Path)
    requires Synced(s) && t.roots == Without(s.roots, {d}) && Exists(s, d) && Leaf(s, d)
    requires p != d && Exists(s, p)
    ensures Monitored(t, p) <==> Monitored(s, p)
  {
    MonitoredWithout(s, t, {d}, p);
    if Monitored(s, p) {
      var r :| IsRoot(s, r) && r <= p;
      assert r != d;
    }
  }

  lemma RmdirCovered(s: State, t: State, d: Path, listing: seq<Path>)
    requires Synced(s) && Legal(s, Rmdir(d), listing)
    requires t.roots == Without(s.roots, {d}) && t.running && t.kernel.listing == listing && Linked(t)
    requires t.kernel.watch == s.kernel.watch - {d}
    ensures Synced(t)
  {
    hide Linked, Monitored;
    RootsWithout(s, t, {d});
    RootsStayApart(s, t, {d});
    forall p | p != d && Exists(s, p)
      ensures Monitored(t, p) <==> Monitored(s, p)
    {
      RmdirMonitored(s, t, d, p);
    }
    assert Closed(t);
    assert Covered(t);
  }

  lemma RmdirSyncs(s: State, d: Path, listing: seq<Path>)
    requires Synced(s) && Legal(s, Rmdir(d), listing)
    ensures AllWellFormed(EventsOf(s, Rmdir(d), 0))
    ensures var t := HandleAll(Changed(s, Rmdir(d), listing), EventsOf(s, Rmdir(d), 0));
      (t.running ==> Synced(t)) && Outcome(s, t, Rmdir(d), listing)
  {
    hide Closed, Covered;
    var s1 := Changed(s, Rmdir(d), listing);
    HandleGone(s.kernel, s1, d);
    var t := AfterGone(s.kernel, s1, d);
    if IsRoot(s, d) { RootWatched(s, d); }
    NothingRemoved(s, {});
    GoneRoots(s, s1, {}, d);
    assert {} + {d} == {d};
    if t.running { RmdirCovered(s, t, d, listing); }
  }

  // ---- files --------------------------------------------------------------------------------

  lemma RelistedSynced(s: State, t: State)
    requires Synced(s) && t == s.(kernel := s.kernel.(listing := t.kernel.listing))
    requires forall q :: q in t.kernel.listing <==> q in s.kernel.listing
    ensures Synced(t)
  {
    hide Monitored;
    assert forall q :: Exists(t, q) <==> Exists(s, q);
    NothingRemoved(s, {});
    RootsStayApart(s, t, {});
    forall p ensures Monitored(t, p) <==> Monitored(s, p) { SameRoots(s, t, p); }
    assert forall p :: IsRoot(t, p) <==> IsRoot(s, p);
  }

  /** What happens to other files is reported to the program and leaves the cache alone. */
  lemma FileSyncs(s: State, x: Change, listing: seq<Path>, cookie: int)
    requires x.File? && Synced(s) && Legal(s, x, listing)
    ensures AllWellFormed(EventsOf(s, x, cookie))
    ensures HandleAll(Changed(s, x, listing), EventsOf(s, x, cookie)) == Changed(s, x, listing)
    ensures Synced(Changed(s, x, listing)) && Outcome(s, Changed(s, x, listing), x, listing)
  {
    hide Closed, RootsApart, Covered, Monitored;
    var s1, evs := Changed(s, x, listing), EventsOf(s, x, cookie);
    RelistedSynced(s, s1);
    RootsUnchanged(s, s1, x, listing);
    if x.dir in s.kernel.watch {
      assert evs == [evs[0]] + [];
      HandleOne(s1, evs[0], []);
    }
  }
}
