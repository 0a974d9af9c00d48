/** The three kinds of rename after which the cache no longer agrees with the tree. */
module DirTreeBreaks {
  import opened Options
  import opened DirTreePaths
  import opened DirTreeState
  import opened DirTreeSync
  import opened DirTreeRuns
  import opened DirTreeSteps
  import opened DirTreeRename
  import opened DirTreeMoves

  /** The cache names a directory that does not exist. */
  ghost predicate Stale(t: State, p: Path) {
    p in t.view.Values && !Exists(t, p)
  }

  /** The cache lacks a directory below a live root. */
  ghost predicate Missed(t: State, p: Path) {
    Exists(t, p) && Monitored(t, p) && p !in t.view.Values
  }

  lemma Inaccurate(t: State, p: Path)
    requires Stale(t, p) || Missed(t, p)
    ensures !Accurate(t) && !Synced(t)
  {
    if Synced(t) { SyncedIsAccurate(t); }
  }

  /** Watching never changes the roots, the tree, a cached path or the descriptor of a watch. */
  lemma {:induction false} WatchListKeeps(s: State, dir: Path, todo: seq<Path>)
    ensures var t := WatchList(s, dir, todo);
      && t.roots == s.roots && t.running == s.running && t.kernel.listing == s.kernel.listing
      && (forall wd :: wd in s.view ==> wd in t.view && t.view[wd] == s.view[wd])
      && (forall p :: p in s.kernel.watch ==> p in t.kernel.watch && t.kernel.watch[p].wd == s.kernel.watch[p].wd)
    decreases |todo|
  {
    if todo != [] {
      WatchListKeeps(if dir <= todo[0] then TraverseTree(s, todo[0]) else s, dir, todo[1..]);
    }
  }

  /** Watching directories whose watches are cached already adds nothing. */
  lemma {:induction false} WatchListAgain(s: State, dir: Path, todo: seq<Path>)
    requires forall p :: p in todo && dir <= p ==> p in s.kernel.watch && s.kernel.watch[p].wd in s.view
    ensures WatchList(s, dir, todo).view == s.view
    decreases |todo|
  {
    if todo != [] {
      assert todo == [todo[0]] + todo[1..];
      WatchListAgain(if dir <= todo[0] then TraverseTree(s, todo[0]) else s, dir, todo[1..]);
    }
  }

  /** The state after the "moved to" event, if there is one. */
  function Arrived(s: State, a: Path, b: Path, listing: seq<Path>): State
    requires b != []
  {
    var s1 := Changed(s, Rename(a, b), listing);
    if Parent(b) in s.kernel.watch && b !in s.view.Values then WatchSubtree(s1, b) else s1
  }

  lemma ArrivedKeeps(s: State, a: Path, b: Path, listing: seq<Path>)
    requires Linked(s) && b != []
    ensures var s1, u := Changed(s, Rename(a, b), listing), Arrived(s, a, b, listing);
      && u.roots == s.roots && u.running == s.running && u.kernel.listing == listing
      && (forall wd :: wd in s.view ==> wd in u.view && u.view[wd] == s.view[wd])
      && (forall p :: p in s1.kernel.watch ==>
            p in u.kernel.watch && u.kernel.watch[p].wd == s1.kernel.watch[p].wd)
  {
    WatchListKeeps(Changed(s, Rename(a, b), listing), b, listing);
  }

  lemma ArrivalHandled(s: State, a: Path, b: Path, listing: seq<Path>, cookie: int)
    requires Linked(s) && s.running && a != [] && b != [] && Plain(Name(a)) && Plain(Name(b))
    requires Parent(a) !in s.kernel.watch
    ensures AllWellFormed(EventsOf(s, Rename(a, b), cookie))
    ensures var self := if a in s.kernel.watch && s.kernel.watch[a].moveSelf
                        then Told(s.kernel, a, {MoveSelf}, 0, "") else [];
      && AllWellFormed(self + Gone(s.kernel, b))
      && Result(s, a, b, listing, cookie) == HandleAll(Arrived(s, a, b, listing), self + Gone(s.kernel, b))
  {
    EventsWellFormed(s, a, b, cookie);
    GoneWellFormed(s, b);
    ToldWellFormed(s, a, {MoveSelf}, 0, "");
    var self := if a in s.kernel.watch && s.kernel.watch[a].moveSelf
                then Told(s.kernel, a, {MoveSelf}, 0, "") else [];
    var rest := self + Gone(s.kernel, b);
    ArrivalEvents(s, a, b, cookie, self);
    hide Linked, HandleAll, EventsOf, Gone, Told, Next, To, WatchSubtree;
    if Parent(b) in s.kernel.watch {
      var s1 := Changed(s, Rename(a, b), listing);
      NextTo(s, s1, b, cookie, rest);
      HandleOne(s1, To(s, b, cookie), rest);
    } else {
      assert [] + rest == rest;
    }
  }

  lemma ArrivalEvents(s: State, a: Path, b: Path, cookie: int, self: seq<Event>)
    requires a != [] && b != [] && Parent(a) !in s.kernel.watch
    requires self == if a in s.kernel.watch && s.kernel.watch[a].moveSelf
                     then Told(s.kernel, a, {MoveSelf}, 0, "") else []
    ensures EventsOf(s, Rename(a, b), cookie)
         == (if Parent(b) in s.kernel.watch then [To(s, b, cookie)] else []) + (self + Gone(s.kernel, b))
  {
    hide Gone;
  }

  lemma KeepsRoot(k: Kernel, u: State, b: Path, r: Path)
    requires u.running && IsRoot(u, r) && r != b
    requires b in k.watch ==> k.watch[b].wd in u.view && u.view[k.watch[b].wd] == b
    ensures var t := AfterGone(k, u, b);
      && t.running && IsRoot(t, r) && t.kernel == u.kernel
      && (b in k.watch ==> t.view == u.view - {k.watch[b].wd})
      && (b !in k.watch ==> t.view == u.view)
  {
    if IsRoot(u, b) {
      var i :| 0 <= i < |u.roots| && u.roots[i] == Some(r);
      assert ZapRoot(u, b).roots[i] == Some(r);
    }
  }

  // ---- a directory above a root -------------------------------------------------------------

  lemma RootLost(s: State, a: Path, b: Path, listing: seq<Path>, r: Path)
    requires Synced(s) && Legal(s, Rename(a, b), listing) && IsRoot(s, r) && a <= r && a != r
    ensures r !in listing && r != b && !Monitored(s, a)
  {
    hide Closed, Linked, Covered, Monitored;
    Named(s, a, b, listing);
    if b <= r { Comparable(a, b, r); }
    if Monitored(s, a) {
      var r0 := RootOver(s, a);
      Transitive(r0, a, r);
    }
  }

  lemma AboveRootBreaks(s: State, a: Path, b: Path, listing: seq<Path>, cookie: int, r: Path)
    requires Synced(s) && Legal(s, Rename(a, b), listing) && IsRoot(s, r) && a <= r && a != r
    ensures a != [] && b != [] && AllWellFormed(EventsOf(s, Rename(a, b), cookie))
    ensures var t := Result(s, a, b, listing, cookie);
      t.running && Outcome(s, t, Rename(a, b), listing) && Stale(t, r)
  {
    hide Closed, RootsApart, Linked, Covered, Legal, Monitored, Result, AfterGone, Arrived;
    Named(s, a, b, listing);
    RootLost(s, a, b, listing, r);
    RootWatched(s, r);
    LinkedAt(s, r);
    if IsRoot(s, b) { RootWatched(s, b); }
    UnmonitoredParent(s, a);
    ArrivalHandled(s, a, b, listing, cookie);
    assert [] + Gone(s.kernel, b) == Gone(s.kernel, b);
    var u := Arrived(s, a, b, listing);
    ArrivedKeeps(s, a, b, listing);
    if b in s.kernel.watch { LinkedAt(s, b); LinkedBounds(s, b); }
    HandleGone(s.kernel, u, b);
    KeepsRoot(s.kernel, u, b, r);
    StillCachedRoot(s, u, b, r);
    BreakOutcome(s, u, AfterGone(s.kernel, u, b), a, b, listing);
  }

  lemma StillCachedRoot(s: State, u: State, b: Path, r: Path)
    requires Linked(s) && r in s.kernel.watch && r != b && u.running && IsRoot(u, r)
    requires forall wd :: wd in s.view ==> wd in u.view && u.view[wd] == s.view[wd]
    requires b in s.kernel.watch ==> s.kernel.watch[b].wd in u.view && u.view[s.kernel.watch[b].wd] == b
    ensures r in AfterGone(s.kernel, u, b).view.Values
  {
    KeepsRoot(s.kernel, u, b, r);
    assert AfterGone(s.kernel, u, b).view[s.kernel.watch[r].wd] == r;
  }

  lemma BreakOutcome(s: State, u: State, t: State, a: Path, b: Path, listing: seq<Path>)
    requires RootsApart(s) && u.running && u.roots == s.roots && !IsRoot(s, a) && u.kernel.listing == listing
    requires IsRoot(s, b) ==> b in s.kernel.watch
    requires b in s.kernel.watch ==> s.kernel.watch[b].wd in u.view && u.view[s.kernel.watch[b].wd] == b
    requires t == AfterGone(s.kernel, u, b)
    ensures Outcome(s, t, Rename(a, b), listing)
  {
    NothingRemoved(s, {a});
    GoneRoots(s, u, {a}, b);
    assert {a} + {b} == {a, b};
    OutcomeOfBoth(s, u, t, a, b, listing);
  }

  // ---- onto a monitored directory -----------------------------------------------------------

  lemma OntoBreaks(s: State, a: Path, b: Path, listing: seq<Path>, cookie: int)
    requires Renaming(s, a, b, listing) && b != []
    requires !Monitored(s, a) && Monitored(s, Parent(b)) && Exists(s, b)
    ensures a != [] && AllWellFormed(EventsOf(s, Rename(a, b), cookie))
    ensures var t := Result(s, a, b, listing, cookie);
      t.running && Outcome(s, t, Rename(a, b), listing) && Missed(t, b)
  {
    hide Closed, RootsApart, Linked, Legal, Monitored, Result, AfterGone;
    Named(s, a, b, listing);
    UnmonitoredParent(s, a);
    NoRootBelow(s, b);
    WatchedParent(s, b);
    ArrivalHandled(s, a, b, listing, cookie);
    assert [] + Gone(s.kernel, b) == Gone(s.kernel, b);
    LinkedAt(s, b);
    LinkedBounds(s, b);
    var u := Arrived(s, a, b, listing);
    StillCached(s, a, b, listing);
    HandleGone(s.kernel, u, b);
    var r := RootOver(s, Parent(b));
    AboveChild(r, b);
    KeepsRoot(s.kernel, u, b, r);
    NowUncached(s, u, b, r);
    TargetExists(s, a, b, listing);
    BreakOutcome(s, u, AfterGone(s.kernel, u, b), a, b, listing);
  }

  lemma TargetExists(s: State, a: Path, b: Path, listing: seq<Path>)
    requires Legal(s, Rename(a, b), listing)
    ensures b in listing
  {
    assert a + b[|b|..] == a;
  }

  lemma StillCached(s: State, a: Path, b: Path, listing: seq<Path>)
    requires Linked(s) && b != [] && b in s.kernel.watch && Parent(b) in s.kernel.watch
    ensures Arrived(s, a, b, listing) == Changed(s, Rename(a, b), listing)
  {
    assert s.view[s.kernel.watch[b].wd] in s.view.Values;
  }

  /** Once its entry is cleared, nothing in the cache stands for the replaced directory's path. */
  lemma NowUncached(s: State, u: State, b: Path, r: Path)
    requires Linked(s) && u.running && IsRoot(u, r) && r != b && r <= b
    requires b in s.kernel.watch ==> s.kernel.watch[b].wd in u.view && u.view[s.kernel.watch[b].wd] == b
    requires forall wd :: wd in u.view ==> wd in s.view && u.view[wd] == s.view[wd]
    ensures var t := AfterGone(s.kernel, u, b);
      Monitored(t, b) && b !in t.view.Values
  {
    KeepsRoot(s.kernel, u, b, r);
    var t := AfterGone(s.kernel, u, b);
    assert IsRoot(t, r) && r <= b;
    if b in t.view.Values { var wd := KeyOf(t.view, b); }
  }

  // ---- a root into another tree -------------------------------------------------------------

  /** The directories of the moved root are watched and cached already, so the "moved to" event adds nothing. */
  lemma RootArrives(s: State, a: Path, b: Path, listing: seq<Path>)
    requires Renaming(s, a, b, listing) && b != [] && IsRoot(s, a)
    ensures Arrived(s, a, b, listing).view == s.view
  {
    hide RootsApart, Monitored;
    var s1 := Changed(s, Rename(a, b), listing);
    WatchesFollow(s, a, b, listing);
    forall q | q in listing && b <= q
      ensures q in s1.kernel.watch && s1.kernel.watch[q].wd in s1.view
    {
      MovedOfBack(a, b, q);
      BelowRoot(s, a, Back(a, b, q));
      assert Exists(s, Back(a, b, q));
      assert Back(a, b, q) in s.kernel.watch;
    }
    WatchListAgain(s1, b, listing);
  }

  lemma BelowRoot(s: State, r: Path, p: Path)
    requires IsRoot(s, r) && r <= p
    ensures Monitored(s, p)
  {
  }

  lemma RootArrivalZaps(s: State, z: State, w: map<Path, Watch>, a: Path, b: Path)
    requires Linked(s) && Follows(s.kernel, w, a, b) && z.view == s.view && !(a <= b)
    requires forall p :: p in w ==> p in z.kernel.watch && z.kernel.watch[p].wd == w[p].wd
    ensures ZapSubtree(z, a).Some?
  {
    forall wd | wd in Below(z.view, a)
      ensures wd in KernelWds(z.kernel)
    {
      var q := Moved(a, b, s.view[wd]);
      assert q in w && z.kernel.watch[q].wd == wd;
    }
  }

  lemma KeepsOtherRoot(u: State, a: Path, r: Path)
    requires u.running && IsRoot(u, a) && IsRoot(u, r) && r != a
    ensures ZapRoot(u, a).running && IsRoot(ZapRoot(u, a), r)
    ensures ZapRoot(u, a).view == u.view && ZapRoot(u, a).kernel == u.kernel
  {
    var i :| 0 <= i < |u.roots| && u.roots[i] == Some(r);
    assert ZapRoot(u, a).roots[i] == Some(r);
  }

  lemma RootMoveHandled(s: State, u: State, a: Path, b: Path)
    requires Linked(s) && u.running && a in s.kernel.watch && u.view == s.view && IsRoot(u, a)
    requires ZapRoot(u, a).running && ZapSubtree(ZapRoot(u, a), a).Some? && !(a <= b)
    ensures var v := ZapSubtree(ZapRoot(u, a), a).value;
      var evs := Told(s.kernel, a, {MoveSelf}, 0, "") + Gone(s.kernel, b);
      && AllWellFormed(evs)
      && (b in s.kernel.watch ==> s.kernel.watch[b].wd in v.view && v.view[s.kernel.watch[b].wd] == b)
      && HandleAll(u, evs) == AfterGone(s.kernel, v, b)
  {
    ToldWellFormed(s, a, {MoveSelf}, 0, "");
    GoneWellFormed(s, b);
    var e := Event(s.kernel.watch[a].wd, {MoveSelf}, 0, "", 0);
    assert s.view[e.wd] == a;
    HandleOne(u, e, Gone(s.kernel, b));
    HandleGone(s.kernel, ZapSubtree(ZapRoot(u, a), a).value, b);
  }

  lemma RootIntoTreeBreaks(s: State, a: Path, b: Path, listing: seq<Path>, cookie: int)
    requires Renaming(s, a, b, listing) && b != []
    requires IsRoot(s, a) && Monitored(s, Parent(b))
    ensures a != [] && AllWellFormed(EventsOf(s, Rename(a, b), cookie))
    ensures var t := Result(s, a, b, listing, cookie);
      t.running && Outcome(s, t, Rename(a, b), listing) && Missed(t, b)
  {
    hide Closed, RootsApart, Linked, Legal, Monitored, Result, AfterGone, Arrived, ZapRoot, ZapSubtree, Gone;
    hide HandleAll, Follows;
    Named(s, a, b, listing);
    RootWatched(s, a);
    RootParent(s, a);
    var r := RootOver(s, Parent(b));
    AboveChild(r, b);
    ArrivalHandled(s, a, b, listing, cookie);
    ArrivedKeeps(s, a, b, listing);
    RootArrives(s, a, b, listing);
    WatchesFollow(s, a, b, listing);
    var u := Arrived(s, a, b, listing);
    KeepsOtherRoot(u, a, r);
    RootArrivalZaps(s, ZapRoot(u, a), Changed(s, Rename(a, b), listing).kernel.watch, a, b);
    RootMoveHandled(s, u, a, b);
    ZappedStays(s, u, a, r);
    NoRootBelow(s, b);
    var v := ZapSubtree(ZapRoot(u, a), a).value;
    KeepsRoot(s.kernel, v, b, r);
    NowUncached(s, v, b, r);
    TargetExists(s, a, b, listing);
    RootIntoOutcome(s, v, a, b, listing, r);
  }

  lemma RootIntoOutcome(s: State, v: State, a: Path, b: Path, listing: seq<Path>, r: Path)
    requires RootsApart(s) && v.running && IsRoot(v, r) && v.roots == Without(s.roots, {a}) && !IsRoot(s, b)
    requires v.kernel.listing == listing
    requires b in s.kernel.watch ==> s.kernel.watch[b].wd in v.view && v.view[s.kernel.watch[b].wd] == b
    ensures Outcome(s, AfterGone(s.kernel, v, b), Rename(a, b), listing)
  {
    RootsWithout(s, v, {a});
    GoneRoots(s, v, {a}, b);
    assert {a} + {b} == {a, b};
    OutcomeOfBoth(s, v, AfterGone(s.kernel, v, b), a, b, listing);
  }

  lemma ZappedStays(s: State, u: State, a: Path, r: Path)
    requires RootsApart(s) && u.roots == s.roots && IsRoot(u, a) && ZapRoot(u, a).running && IsRoot(ZapRoot(u, a), r)
    requires ZapSubtree(ZapRoot(u, a), a).Some?
    ensures var v := ZapSubtree(ZapRoot(u, a), a).value;
      && v.running && IsRoot(v, r) && v.kernel.listing == u.kernel.listing
      && v.roots == Without(s.roots, {a})
      && (forall wd :: wd in v.view ==> wd in u.view && v.view[wd] == u.view[wd])
  {
  }
}
