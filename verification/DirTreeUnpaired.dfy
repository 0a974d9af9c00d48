/** A rename within the trees whose two events are not recognised as a pair. */
module DirTreeUnpaired {
  import opened Options
  import opened DirTreePaths
  import opened DirTreeState
  import opened DirTreeSync
  import opened DirTreeRuns
  import opened DirTreeSteps
  import opened DirTreeRename
  import opened DirTreeMoves
  import opened DirTreeBreaks

  /** The "moved from" event handled alone, and the "moved to" event with the rest handled later. */
  ghost function Separately(s: State, a: Path, b: Path, listing: seq<Path>, cookie: int): State
    requires a != [] && b != [] && Parent(a) in s.kernel.watch && Parent(b) in s.kernel.watch
    requires Linked(s) && Plain(Name(a)) && Plain(Name(b))
  {
    GoneWellFormed(s, b);
    HandleAll(HandleAll(Changed(s, Rename(a, b), listing), [From(s, a, cookie)]),
              [To(s, b, cookie)] + Gone(s.kernel, b))
  }

  lemma FromAlone(s: State, a: Path, b: Path, listing: seq<Path>, cookie: int)
    requires Linked(s) && s.running && a != [] && Plain(Name(a)) && Parent(a) in s.kernel.watch
    requires ZapSubtree(Changed(s, Rename(a, b), listing), a).Some?
    ensures HandleAll(Changed(s, Rename(a, b), listing), [From(s, a, cookie)])
         == ZapSubtree(Changed(s, Rename(a, b), listing), a).value
  {
    var e := From(s, a, cookie);
    assert s.view[e.wd] + [e.name] == a;
    assert [e] == [e] + [];
    HandleOne(Changed(s, Rename(a, b), listing), e, []);
  }

  lemma ToAlone(s: State, z: State, b: Path, cookie: int)
    requires Linked(s) && z.running && b != [] && Plain(Name(b)) && Parent(b) in s.kernel.watch
    requires var wd := s.kernel.watch[Parent(b)].wd; wd in z.view && z.view[wd] == Parent(b)
    ensures AllWellFormed(Gone(s.kernel, b))
    ensures HandleAll(z, [To(s, b, cookie)] + Gone(s.kernel, b))
         == HandleAll(if b in z.view.Values then z else WatchSubtree(z, b), Gone(s.kernel, b))
  {
    var e := To(s, b, cookie);
    assert z.view[e.wd] + [e.name] == b;
    GoneWellFormed(s, b);
    HandleOne(z, e, Gone(s.kernel, b));
  }

  /** The state after the zap still knows the parent of the destination. */
  lemma Zapped(s: State, a: Path, b: Path, listing: seq<Path>)
    requires Renaming(s, a, b, listing) && b != []
    requires Monitored(s, a) && !IsRoot(s, a) && Monitored(s, Parent(b))
    ensures ZapSubtree(Changed(s, Rename(a, b), listing), a).Some?
    ensures var z := ZapSubtree(Changed(s, Rename(a, b), listing), a).value;
      && z.running && z.roots == s.roots && z.kernel.listing == listing
      && MovedOut(s, z, Changed(s, Rename(a, b), listing).kernel.watch, a, b)
      && (forall wd :: wd in z.view <==> wd in s.view && !(a <= s.view[wd]))
      && Parent(b) in s.kernel.watch
      && s.kernel.watch[Parent(b)].wd in z.view && z.view[s.kernel.watch[Parent(b)].wd] == Parent(b)
  {
    hide Closed, RootsApart, Linked, Covered, Legal, Monitored, Follows, ZapSubtree;
    WithinReady(s, a, b, listing);
    WatchesFollow(s, a, b, listing);
    ZapAfterMove(s, Changed(s, Rename(a, b), listing), a, b);
    LinkedAt(s, Parent(b));
    AboveChild(a, b);
  }

  /** The watches that are left are those of directories outside the renamed tree. */
  lemma LeftAlone(s: State, z: State, a: Path, b: Path, listing: seq<Path>)
    requires Renaming(s, a, b, listing)
    requires MovedOut(s, z, Changed(s, Rename(a, b), listing).kernel.watch, a, b)
    ensures forall q :: q in z.kernel.watch ==>
              q in listing && !(b <= q) && q in s.kernel.watch && z.kernel.watch[q] == s.kernel.watch[q]
    ensures forall q :: q in listing && !(b <= q) && q in s.kernel.watch ==> q in z.kernel.watch
  {
    hide Closed, Linked, Monitored, RootsApart;
    WatchesFollow(s, a, b, listing);
    forall q | q in listing && !(b <= q) && q in s.kernel.watch
      ensures q in z.kernel.watch
    {
      assert Moved(a, b, q) == q;
    }
  }

  lemma NoRootArrives(s: State, a: Path, b: Path, listing: seq<Path>, q: Path)
    requires Renaming(s, a, b, listing) && b != [] && Monitored(s, Parent(b)) && b <= q
    ensures !IsRoot(s, q)
  {
    hide Closed, Linked, Monitored, Covered, Legal, RootsApart;
    NoRootBelow(s, b);
    if IsRoot(s, q) {
      RootExists(s, q);
      NotBelowTarget(s, a, b, listing, q);
    }
  }

  lemma SeparateWatches(s: State, z: State, t: State, a: Path, b: Path, listing: seq<Path>)
    requires Renaming(s, a, b, listing) && b != [] && Monitored(s, Parent(b))
    requires MovedOut(s, z, Changed(s, Rename(a, b), listing).kernel.watch, a, b)
    requires z.kernel.listing == listing && z.roots == s.roots
    requires Watched(z, t, Chosen(b, listing))
    ensures RightWatches(s, t, a, b, listing)
  {
    hide Monitored, Renaming, MovedOut, Changed;
    LeftAlone(s, z, a, b, listing);
    forall q | b <= q
      ensures !IsRoot(z, q)
    {
      NoRootArrives(s, a, b, listing, q);
    }
  }

  lemma SeparateSynced(s: State, a: Path, b: Path, listing: seq<Path>, cookie: int)
    requires Renaming(s, a, b, listing) && b != []
    requires Monitored(s, a) && !IsRoot(s, a) && Monitored(s, Parent(b)) && !Exists(s, b)
    ensures a != [] && Plain(Name(a)) && Plain(Name(b))
    ensures Parent(a) in s.kernel.watch && Parent(b) in s.kernel.watch
    ensures Synced(Separately(s, a, b, listing, cookie))
  {
    hide Closed, RootsApart, Legal, Monitored, ZapSubtree, WatchSubtree, RightWatches;
    WithinReady(s, a, b, listing);
    Zapped(s, a, b, listing);
    FromAlone(s, a, b, listing, cookie);
    var z := ZapSubtree(Changed(s, Rename(a, b), listing), a).value;
    ToAlone(s, z, b, cookie);
    assert b !in s.kernel.watch;
    if b in z.view.Values { var wd := KeyOf(z.view, b); }
    var t := WatchSubtree(z, b);
    SeparateEnds(s, z, a, b, listing);
  }

  lemma SeparateEnds(s: State, z: State, a: Path, b: Path, listing: seq<Path>)
    requires Renaming(s, a, b, listing) && b != []
    requires Monitored(s, a) && !IsRoot(s, a) && Monitored(s, Parent(b)) && !Exists(s, b)
    requires z.running && z.roots == s.roots && z.kernel.listing == listing
    requires MovedOut(s, z, Changed(s, Rename(a, b), listing).kernel.watch, a, b)
    requires forall wd :: wd in z.view <==> wd in s.view && !(a <= s.view[wd])
    ensures Synced(WatchSubtree(z, b))
  {
    hide Closed, RootsApart, Linked, Legal, Monitored, WatchSubtree, RightWatches;
    WatchesFollow(s, a, b, listing);
    forall p | p in s.kernel.watch && b <= p ensures p == b { NotBelowTarget(s, a, b, listing, p); }
    NeverCached(s, b);
    OutRelinked(s, z, Changed(s, Rename(a, b), listing).kernel.watch, a, b);
    WatchSubtreeAdds(z, b);
    var t := WatchSubtree(z, b);
    SeparateWatches(s, z, t, a, b, listing);
    NoRootBelow(s, b);
    NothingRemoved(s, {a, b});
    RenameCovered(s, t, a, b, listing);
  }

  lemma NeverCached(s: State, b: Path)
    requires Linked(s) && b !in s.kernel.watch
    ensures forall wd :: wd in s.view ==> s.view[wd] != b
  {
  }

  lemma SeparateLoses(s: State, a: Path, b: Path, listing: seq<Path>, cookie: int)
    requires Renaming(s, a, b, listing) && b != []
    requires Monitored(s, a) && !IsRoot(s, a) && Monitored(s, Parent(b)) && Exists(s, b)
    ensures a != [] && Plain(Name(a)) && Plain(Name(b))
    ensures Parent(a) in s.kernel.watch && Parent(b) in s.kernel.watch
    ensures var t := Separately(s, a, b, listing, cookie);
      t.running && t.roots == s.roots && t.kernel.listing == listing && b !in t.view.Values
  {
    hide Closed, RootsApart, Legal, Monitored, ZapSubtree, AfterGone;
    WithinReady(s, a, b, listing);
    NoRootBelow(s, b);
    Zapped(s, a, b, listing);
    FromAlone(s, a, b, listing, cookie);
    var z := ZapSubtree(Changed(s, Rename(a, b), listing), a).value;
    ToAlone(s, z, b, cookie);
    LinkedAt(s, b);
    assert z.view[s.kernel.watch[b].wd] in z.view.Values;
    HandleGone(s.kernel, z, b);
    var r := RootOver(s, Parent(b));
    AboveChild(r, b);
    assert IsRoot(z, r);
    NowUncached(s, z, b, r);
    OrdinaryGone(s.kernel, z, b);
  }

  /** The loss of a directory that is no root changes the cache only. */
  lemma OrdinaryGone(k: Kernel, u: State, b: Path)
    requires u.running && !IsRoot(u, b)
    requires b in k.watch ==> k.watch[b].wd in u.view && u.view[k.watch[b].wd] == b
    ensures var t := AfterGone(k, u, b); t.running && t.roots == u.roots && t.kernel == u.kernel
  {
  }

  lemma PairedFinds(s: State, a: Path, b: Path, listing: seq<Path>, cookie: int)
    requires Renaming(s, a, b, listing) && b != []
    requires Monitored(s, a) && !IsRoot(s, a) && Monitored(s, Parent(b))
    ensures a != [] && AllWellFormed(EventsOf(s, Rename(a, b), cookie))
    ensures b in Result(s, a, b, listing, cookie).view.Values
  {
    hide Linked, Covered, Closed, RootsApart, Legal, Monitored, Result, MovedWithin;
    RenameWithin(s, a, b, listing, cookie);
    var t := Result(s, a, b, listing, cookie);
    ResultListing(s, t, a, b, listing);
    SyncedIsAccurate(t);
    TargetExists(s, a, b, listing);
    NoRootBelow(s, b);
    SameRoots(s, t, b);
  }

  /** Handled as two events instead of one pair, a rename within the trees leaves the same cached paths,
      only under other descriptors, exactly when it did not replace a directory. */
  lemma SamePathsIff(s: State, a: Path, b: Path, listing: seq<Path>, cookie: int)
    requires Renaming(s, a, b, listing) && b != []
    requires Monitored(s, a) && !IsRoot(s, a) && Monitored(s, Parent(b))
    ensures a != [] && Plain(Name(a)) && Plain(Name(b))
    ensures Parent(a) in s.kernel.watch && Parent(b) in s.kernel.watch
    ensures AllWellFormed(EventsOf(s, Rename(a, b), cookie))
    ensures Separately(s, a, b, listing, cookie).view.Values == Result(s, a, b, listing, cookie).view.Values
       <==> !Exists(s, b)
  {
    hide Linked, Covered, Closed, RootsApart, Legal, Monitored, Separately, Result, MovedWithin;
    WithinReady(s, a, b, listing);
    RenameWithin(s, a, b, listing, cookie);
    var t, u := Result(s, a, b, listing, cookie), Separately(s, a, b, listing, cookie);
    ResultListing(s, t, a, b, listing);
    SyncedIsAccurate(t);
    if Exists(s, b) {
      SeparateLoses(s, a, b, listing, cookie);
      PairedFinds(s, a, b, listing, cookie);
    } else {
      SeparateSynced(s, a, b, listing, cookie);
      SyncedIsAccurate(u);
      SeparateListing(s, a, b, listing, cookie);
      SameValues(t, u);
    }
  }

  lemma ResultListing(s: State, t: State, a: Path, b: Path, listing: seq<Path>)
    requires MovedWithin(s, t, a, b, listing)
    ensures t.kernel.listing == listing && t.roots == s.roots
  {
  }

  lemma SeparateListing(s: State, a: Path, b: Path, listing: seq<Path>, cookie: int)
    requires Renaming(s, a, b, listing) && b != []
    requires Monitored(s, a) && !IsRoot(s, a) && Monitored(s, Parent(b)) && !Exists(s, b)
    requires a != [] && Plain(Name(a)) && Plain(Name(b))
    requires Parent(a) in s.kernel.watch && Parent(b) in s.kernel.watch
    ensures var u := Separately(s, a, b, listing, cookie); u.kernel.listing == listing && u.roots == s.roots
  {
    hide Closed, RootsApart, Legal, Monitored, ZapSubtree;
    Zapped(s, a, b, listing);
    FromAlone(s, a, b, listing, cookie);
    var z := ZapSubtree(Changed(s, Rename(a, b), listing), a).value;
    ToAlone(s, z, b, cookie);
    WatchListKeeps(z, b, listing);
  }

  lemma SameValues(t: State, u: State)
    requires Accurate(t) && Accurate(u) && t.kernel.listing == u.kernel.listing && t.roots == u.roots
    ensures t.view.Values == u.view.Values
  {
    forall p ensures p in t.view.Values <==> p in u.view.Values { SameRoots(t, u, p); }
  }
}
