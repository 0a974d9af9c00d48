/** The five ways in which a rename meets the monitored trees, each handled before the next change. */
module DirTreeMoves {
  import opened Options
  import opened DirTreePaths
  import opened DirTreeState
  import opened DirTreeSync
  import opened DirTreeRuns
  import opened DirTreeSteps
  import opened DirTreeRename

  lemma ToldWellFormed(s: State, p: Path, mask: set<Bit>, cookie: int, name: string)
    requires Linked(s) && Plain(name) && (Ignored in mask ==> mask == {Ignored})
    ensures AllWellFormed(Told(s.kernel, p, mask, cookie, name))
  {
  }

  lemma GoneWellFormed(s: State, b: Path)
    requires Linked(s)
    ensures AllWellFormed(Gone(s.kernel, b))
  {
  }

  lemma EventsWellFormed(s: State, a: Path, b: Path, cookie: int)
    requires Linked(s) && a != [] && b != [] && Plain(Name(a)) && Plain(Name(b))
    ensures AllWellFormed(EventsOf(s, Rename(a, b), cookie))
  {
  }

  lemma Named(s: State, a: Path, b: Path, listing: seq<Path>)
    requires Closed(s) && Legal(s, Rename(a, b), listing)
    ensures a != [] && b != [] && Plain(Name(a)) && Plain(Name(b)) && !(a <= b) && !(b <= a)
    ensures Exists(s, a) && (|a| == 1 || Exists(s, Parent(a))) && (|b| == 1 || Exists(s, Parent(b)))
  {
  }

  ghost function Result(s: State, a: Path, b: Path, listing: seq<Path>, cookie: int): State
    requires a != [] && b != [] && AllWellFormed(EventsOf(s, Rename(a, b), cookie))
  {
    HandleAll(Changed(s, Rename(a, b), listing), EventsOf(s, Rename(a, b), cookie))
  }

  function From(s: State, a: Path, cookie: int): Event
    requires a != [] && Parent(a) in s.kernel.watch
  {
    Event(s.kernel.watch[Parent(a)].wd, {IsDir, MovedFrom}, cookie, Name(a), |Name(a)|)
  }

  function To(s: State, b: Path, cookie: int): Event
    requires b != [] && Parent(b) in s.kernel.watch
  {
    Event(s.kernel.watch[Parent(b)].wd, {IsDir, MovedTo}, cookie, Name(b), |Name(b)|)
  }

  /** Below a monitored directory no root remains to be found. */
  lemma NoRootBelow(s: State, b: Path)
    requires RootsApart(s) && b != [] && Monitored(s, Parent(b))
    ensures !IsRoot(s, b) && Monitored(s, b)
  {
  }

  // ---- within the monitored trees -----------------------------------------------------------

  lemma WithinLinked(s: State, t: State, a: Path, b: Path)
    requires Linked(s) && Follows(s.kernel, t.kernel.watch, a, b) && t.kernel.next == s.kernel.next
    requires forall wd :: wd in t.view <==> wd in s.view && s.view[wd] != b
    requires forall wd :: wd in t.view ==> t.view[wd] == Moved(a, b, s.view[wd])
    requires !(a <= b) && !(b <= a)
    ensures Linked(t)
  {
    forall q | q in t.kernel.watch
      ensures t.kernel.watch[q].wd in t.view && t.view[t.kernel.watch[q].wd] == q
    {
      var p := Back(a, b, q);
      assert s.view[s.kernel.watch[p].wd] == p;
      if b <= q {
        MovedOfBack(a, b, q);
        if p == b { assert false; }
      }
    }
  }

  lemma RewriteWatches(s: State, t: State, a: Path, b: Path, listing: seq<Path>)
    requires Renaming(s, a, b, listing) && b != []
    requires Monitored(s, a) && !IsRoot(s, a) && Monitored(s, Parent(b))
    requires t.kernel == Changed(s, Rename(a, b), listing).kernel
    ensures RightWatches(s, t, a, b, listing)
  {
    var r :| IsRoot(s, r) && r <= a;
    forall q | q in listing && b <= q
      ensures q in t.kernel.watch && !t.kernel.watch[q].moveSelf
    {
      var p := Back(a, b, q);
      MovedOfBack(a, b, q);
      Transitive(r, a, p);
      assert Exists(s, p) && Monitored(s, p);
      assert !IsRoot(s, p);
    }
  }

  lemma PairEvents(s: State, a: Path, b: Path, cookie: int)
    requires a != [] && b != [] && Parent(a) in s.kernel.watch && Parent(b) in s.kernel.watch
    requires a in s.kernel.watch ==> !s.kernel.watch[a].moveSelf
    ensures EventsOf(s, Rename(a, b), cookie) == [From(s, a, cookie), To(s, b, cookie)] + Gone(s.kernel, b)
  {
    hide Gone;
  }

  /** The two events, seen together, are recognised and rewrite the cache. */
  lemma NextPair(s: State, s1: State, a: Path, b: Path, cookie: int, rest: seq<Event>)
    requires Linked(s) && s1.view == s.view && a != [] && b != [] && Plain(Name(a)) && Plain(Name(b))
    requires Parent(a) in s.kernel.watch && Parent(b) in s.kernel.watch
    ensures var e, e' := From(s, a, cookie), To(s, b, cookie);
      WellFormed(e) && WellFormed(e') && Next(s1, [e, e'] + rest, false) == (Rewrite(s1, a, b), Events(2))
  {
    hide Rewrite;
    var e, e' := From(s, a, cookie), To(s, b, cookie);
    assert s.view[e.wd] + [e.name] == a && s.view[e'.wd] + [e'.name] == b;
  }

  lemma RewrittenAndGone(s: State, u: State, a: Path, b: Path, listing: seq<Path>)
    requires Linked(s) && s.running && !(a <= b) && !IsRoot(s, b)
    requires u == Rewrite(Changed(s, Rename(a, b), listing), a, b)
    ensures b in s.kernel.watch ==>
      1 <= s.kernel.watch[b].wd && s.kernel.watch[b].wd in u.view && u.view[s.kernel.watch[b].wd] == b
    ensures MovedWithin(s, AfterGone(s.kernel, u, b), a, b, listing)
  {
  }

  lemma WithinHandled(s: State, a: Path, b: Path, listing: seq<Path>, cookie: int)
    requires Linked(s) && s.running && a != [] && b != [] && Plain(Name(a)) && Plain(Name(b)) && !(a <= b)
    requires Parent(a) in s.kernel.watch && Parent(b) in s.kernel.watch
    requires (a in s.kernel.watch ==> !s.kernel.watch[a].moveSelf) && !IsRoot(s, b)
    ensures AllWellFormed(EventsOf(s, Rename(a, b), cookie))
    ensures MovedWithin(s, Result(s, a, b, listing, cookie), a, b, listing)
  {
    EventsWellFormed(s, a, b, cookie);
    GoneWellFormed(s, b);
    var s1 := Changed(s, Rename(a, b), listing);
    hide Linked, HandleAll, EventsOf, Gone, Next, Rewrite, From, To, MovedWithin, AfterGone;
    var rest := Gone(s.kernel, b);
    PairEvents(s, a, b, cookie);
    NextPair(s, s1, a, b, cookie, rest);
    HandlePair(s1, From(s, a, cookie), To(s, b, cookie), rest);
    RewrittenAndGone(s, Rewrite(s1, a, b), a, b, listing);
    HandleGone(s.kernel, Rewrite(s1, a, b), b);
  }

  lemma WithinReady(s: State, a: Path, b: Path, listing: seq<Path>)
    requires Renaming(s, a, b, listing) && b != []
    requires Monitored(s, a) && !IsRoot(s, a) && Monitored(s, Parent(b))
    ensures a != [] && Plain(Name(a)) && Plain(Name(b)) && !(a <= b) && !(b <= a) && !IsRoot(s, b)
    ensures Parent(a) in s.kernel.watch && Parent(b) in s.kernel.watch
    ensures a in s.kernel.watch && !s.kernel.watch[a].moveSelf
  {
    hide Closed, RootsApart, Linked, Legal, Monitored;
    Named(s, a, b, listing);
    WatchedParent(s, a);
    NoRootBelow(s, b);
    WatchedParent(s, b);
  }

  /** The outcome of a move within the trees: descriptors stay, paths and watches move. */
  ghost predicate MovedWithin(s: State, t: State, a: Path, b: Path, listing: seq<Path>) {
    && t.running && t.roots == s.roots && t.kernel == Changed(s, Rename(a, b), listing).kernel
    && (forall wd :: wd in t.view <==> wd in s.view && s.view[wd] != b)
    && (forall wd :: wd in t.view ==> t.view[wd] == Moved(a, b, s.view[wd]))
  }

  lemma WithinRelinked(s: State, t: State, a: Path, b: Path, listing: seq<Path>)
    requires Renaming(s, a, b, listing) && MovedWithin(s, t, a, b, listing)
    ensures Linked(t)
  {
    Named(s, a, b, listing);
    WatchesFollow(s, a, b, listing);
    WithinLinked(s, t, a, b);
  }

  lemma RenameWithin(s: State, a: Path, b: Path, listing: seq<Path>, cookie: int)
    requires Renaming(s, a, b, listing) && b != []
    requires Monitored(s, a) && !IsRoot(s, a) && Monitored(s, Parent(b))
    ensures a != [] && AllWellFormed(EventsOf(s, Rename(a, b), cookie))
    ensures var t := Result(s, a, b, listing, cookie);
      MovedWithin(s, t, a, b, listing) && Synced(t) && Outcome(s, t, Rename(a, b), listing)
  {
    hide Linked, Closed, RootsApart, Covered, Legal, Monitored, Result, EventsOf;
    WithinReady(s, a, b, listing);
    WithinHandled(s, a, b, listing, cookie);
    RootsUnchanged(s, Result(s, a, b, listing, cookie), Rename(a, b), listing);
    WithinSynced(s, Result(s, a, b, listing, cookie), a, b, listing);
  }

  lemma WithinSynced(s: State, t: State, a: Path, b: Path, listing: seq<Path>)
    requires Renaming(s, a, b, listing) && b != []
    requires Monitored(s, a) && !IsRoot(s, a) && Monitored(s, Parent(b))
    requires MovedWithin(s, t, a, b, listing)
    ensures Synced(t)
  {
    hide Closed, RootsApart, Linked, Covered, Legal, Monitored, RightWatches;
    WithinRelinked(s, t, a, b, listing);
    RewriteWatches(s, t, a, b, listing);
    NoRootBelow(s, b);
    NothingRemoved(s, {a, b});
    RenameCovered(s, t, a, b, listing);
  }

  // ---- out of the monitored trees -----------------------------------------------------------

  /** The outcome of a move out: the entries and the watches of the moved directories are gone. */
  ghost predicate MovedOut(s: State, t: State, w: map<Path, Watch>, a: Path, b: Path) {
    && t.kernel.next == s.kernel.next
    && (forall q :: q in t.kernel.watch <==> q in w && !(b <= q))
    && (forall q :: q in t.kernel.watch ==> t.kernel.watch[q] == w[q])
    && (forall wd :: wd in t.view ==> wd in s.view && t.view[wd] == s.view[wd])
  }

  lemma ZapFindsAll(s: State, z: State, a: Path, b: Path)
    requires Linked(s) && Follows(s.kernel, z.kernel.watch, a, b) && z.view == s.view && !(a <= b)
    ensures ZapSubtree(z, a).Some?
  {
    forall wd | wd in Below(z.view, a)
      ensures wd in KernelWds(z.kernel)
    {
      var q := Moved(a, b, z.view[wd]);
      assert q in z.kernel.watch && z.kernel.watch[q].wd == wd;
    }
  }

  lemma ZapAfterMove(s: State, z: State, a: Path, b: Path)
    requires Linked(s) && Follows(s.kernel, z.kernel.watch, a, b) && z.view == s.view && !(a <= b)
    requires z.kernel.next == s.kernel.next
    ensures ZapSubtree(z, a).Some?
    ensures var t := ZapSubtree(z, a).value;
      && t.running == z.running && t.roots == z.roots && t.kernel.listing == z.kernel.listing
      && MovedOut(s, t, z.kernel.watch, a, b)
      && (forall wd :: wd in t.view <==> wd in s.view && !(a <= s.view[wd]))
  {
    ZapFindsAll(s, z, a, b);
    forall q | q in z.kernel.watch
      ensures z.kernel.watch[q].wd in Below(z.view, a) <==> b <= q
    {
      var p := Back(a, b, q);
      assert s.view[s.kernel.watch[p].wd] == p;
      if b <= q { MovedOfBack(a, b, q); }
    }
  }

  lemma OutRelinked(s: State, t: State, w: map<Path, Watch>, a: Path, b: Path)
    requires Linked(s) && Follows(s.kernel, w, a, b) && MovedOut(s, t, w, a, b)
    requires forall p :: p in s.kernel.watch && b <= p ==> p == b
    requires forall wd :: wd in t.view <==> wd in s.view && !(a <= s.view[wd]) && s.view[wd] != b
    ensures Linked(t)
  {
    forall wd | wd in t.view
      ensures t.view[wd] in t.kernel.watch && t.kernel.watch[t.view[wd]].wd == wd
    {
      assert Moved(a, b, s.view[wd]) == s.view[wd];
    }
  }

  lemma OutWatches(s: State, t: State, a: Path, b: Path, listing: seq<Path>)
    requires Renaming(s, a, b, listing) && b != [] && !Monitored(s, Parent(b))
    requires MovedOut(s, t, Changed(s, Rename(a, b), listing).kernel.watch, a, b)
    ensures RightWatches(s, t, a, b, listing)
  {
    hide Closed, RootsApart, Linked, Covered, Monitored;
    WatchesFollow(s, a, b, listing);
    forall q | q in listing && !(b <= q) && q in s.kernel.watch
      ensures q in t.kernel.watch
    {
      assert Moved(a, b, q) == q;
    }
  }

  lemma OutSynced(s: State, t: State, a: Path, b: Path, listing: seq<Path>)
    requires Renaming(s, a, b, listing) && b != [] && !Monitored(s, Parent(b))
    requires t.running && t.roots == Without(s.roots, {a, b}) && t.kernel.listing == listing
    requires MovedOut(s, t, Changed(s, Rename(a, b), listing).kernel.watch, a, b)
    requires forall wd :: wd in t.view <==> wd in s.view && !(a <= s.view[wd]) && s.view[wd] != b
    ensures Synced(t)
  {
    hide Closed, RootsApart, Linked, Legal, Monitored, RightWatches;
    var w := Changed(s, Rename(a, b), listing).kernel.watch;
    WatchesFollow(s, a, b, listing);
    forall p | p in s.kernel.watch && b <= p ensures p == b { NotBelowTarget(s, a, b, listing, p); }
    OutRelinked(s, t, w, a, b);
    OutWatches(s, t, a, b, listing);
    RenameCovered(s, t, a, b, listing);
  }

  lemma RootsApartUntilGone(s: State, u: State, a: Path, b: Path, listing: seq<Path>)
    requires Renaming(s, a, b, listing) && u.roots == Without(s.roots, {a}) && u.kernel.listing == listing
    ensures RootsApart(u)
  {
    assert b in listing by { assert a + b[|b|..] == a; }
    forall r | IsRoot(s, r) && r !in {a}
      ensures Exists(u, r)
    {
      if b <= r { NotBelowTarget(s, a, b, listing, r); }
    }
    RootsStayApart(s, u, {a});
  }

  /** Handling the replaced directory's events removes its entry and its root path. */
  lemma GoneRemoves(s: State, u: State, a: Path, b: Path)
    requires Linked(s) && u.running && RootsApart(u) && u.roots == Without(s.roots, {a})
    requires IsRoot(s, b) ==> b in s.kernel.watch
    requires forall wd :: wd in s.view && s.view[wd] == b ==> wd in u.view && u.view[wd] == b
    ensures var t := AfterGone(s.kernel, u, b);
      && t.kernel == u.kernel && t.roots == Without(s.roots, {a, b})
      && (t.running ==>
            && (forall wd :: wd in t.view <==> wd in u.view && (wd in s.view ==> s.view[wd] != b))
            && (forall wd :: wd in t.view ==> t.view[wd] == u.view[wd]))
  {
  }

  lemma LinkedBounds(s: State, b: Path)
    requires Linked(s) && b in s.kernel.watch
    ensures 1 <= s.kernel.watch[b].wd
  {
  }

  lemma LinkedAt(s: State, b: Path)
    requires Linked(s) && b in s.kernel.watch
    ensures s.kernel.watch[b].wd in s.view && s.view[s.kernel.watch[b].wd] == b
  {
  }

  /** Common end of a move out: u is the state after the zap, its roots already without a. */
  lemma OutEnds(s: State, u: State, a: Path, b: Path, listing: seq<Path>)
    requires Renaming(s, a, b, listing) && b != [] && !Monitored(s, Parent(b))
    requires u.running && u.roots == Without(s.roots, {a}) && u.kernel.listing == listing
    requires MovedOut(s, u, Changed(s, Rename(a, b), listing).kernel.watch, a, b)
    requires forall wd :: wd in u.view <==> wd in s.view && !(a <= s.view[wd])
    ensures b in s.kernel.watch ==> s.kernel.watch[b].wd in u.view && u.view[s.kernel.watch[b].wd] == b
    ensures var t := AfterGone(s.kernel, u, b);
      && (t.running ==> Synced(t))
      && t.kernel == u.kernel && t.roots == Without(s.roots, {a, b}) && ExitsWithLast(u, t)
  {
    hide Closed, RootsApart, Linked, Covered, Legal, Monitored;
    Named(s, a, b, listing);
    RootsApartUntilGone(s, u, a, b, listing);
    if IsRoot(s, b) { RootWatched(s, b); }
    if b in s.kernel.watch { LinkedAt(s, b); }
    GoneRemoves(s, u, a, b);
    RootsWithout(s, u, {a});
    GoneRoots(s, u, {a}, b);
    var t := AfterGone(s.kernel, u, b);
    if t.running { OutSynced(s, t, a, b, listing); }
  }

  lemma ZapOutSynced(s: State, z: State, a: Path, b: Path, listing: seq<Path>)
    requires Renaming(s, a, b, listing) && b != [] && !Monitored(s, Parent(b))
    requires z.kernel == Changed(s, Rename(a, b), listing).kernel && z.view == s.view && z.running
    requires z.roots == Without(s.roots, {a})
    ensures ZapSubtree(z, a).Some?
    ensures var u := ZapSubtree(z, a).value;
      && u.running
      && (b in s.kernel.watch ==> s.kernel.watch[b].wd in u.view && u.view[s.kernel.watch[b].wd] == b)
      && var t := AfterGone(s.kernel, u, b);
      && (t.running ==> Synced(t)) && u.roots == z.roots
      && t.kernel.listing == listing && t.roots == Without(s.roots, {a, b}) && ExitsWithLast(u, t)
  {
    hide Closed, RootsApart, Linked, Covered, Legal, Monitored, Follows, ZapSubtree, MovedOut, AfterGone;
    WatchesFollow(s, a, b, listing);
    Named(s, a, b, listing);
    ZapAfterMove(s, z, a, b);
    OutEnds(s, ZapSubtree(z, a).value, a, b, listing);
  }

  /** A "moved from" event whose partner does not follow empties the subtree. */
  lemma NextFrom(s: State, s1: State, a: Path, b: Path, cookie: int)
    requires Linked(s) && s1.view == s.view && a != [] && Plain(Name(a)) && Parent(a) in s.kernel.watch
    requires ZapSubtree(s1, a).Some?
    ensures var e := From(s, a, cookie);
      WellFormed(e) && Next(s1, [e] + Gone(s.kernel, b), false) == (ZapSubtree(s1, a).value, Events(1))
  {
    hide ZapSubtree;
    var e := From(s, a, cookie);
    assert s.view[e.wd] + [e.name] == a;
  }

  lemma FromEvents(s: State, a: Path, b: Path, cookie: int)
    requires a != [] && b != [] && Parent(a) in s.kernel.watch && Parent(b) !in s.kernel.watch
    requires a in s.kernel.watch ==> !s.kernel.watch[a].moveSelf
    ensures EventsOf(s, Rename(a, b), cookie) == [From(s, a, cookie)] + Gone(s.kernel, b)
  {
    hide Gone;
  }

  lemma OutHandled(s: State, a: Path, b: Path, listing: seq<Path>, cookie: int)
    requires Linked(s) && s.running && a != [] && b != [] && Plain(Name(a)) && Plain(Name(b))
    requires Parent(a) in s.kernel.watch && Parent(b) !in s.kernel.watch
    requires a in s.kernel.watch ==> !s.kernel.watch[a].moveSelf
    requires var z := ZapSubtree(Changed(s, Rename(a, b), listing), a);
      && z.Some? && z.value.running
      && (b in s.kernel.watch ==> s.kernel.watch[b].wd in z.value.view && z.value.view[s.kernel.watch[b].wd] == b)
    ensures AllWellFormed(EventsOf(s, Rename(a, b), cookie))
    ensures Result(s, a, b, listing, cookie)
         == AfterGone(s.kernel, ZapSubtree(Changed(s, Rename(a, b), listing), a).value, b)
  {
    EventsWellFormed(s, a, b, cookie);
    GoneWellFormed(s, b);
    var s1 := Changed(s, Rename(a, b), listing);
    if b in s.kernel.watch { LinkedBounds(s, b); }
    hide Linked, HandleAll, EventsOf, Gone, Next, ZapSubtree, From, AfterGone;
    FromEvents(s, a, b, cookie);
    NextFrom(s, s1, a, b, cookie);
    HandleOne(s1, From(s, a, cookie), Gone(s.kernel, b));
    HandleGone(s.kernel, ZapSubtree(s1, a).value, b);
  }

  lemma RenameOut(s: State, a: Path, b: Path, listing: seq<Path>, cookie: int)
    requires Renaming(s, a, b, listing) && b != []
    requires Monitored(s, a) && !IsRoot(s, a) && !Monitored(s, Parent(b))
    ensures a != [] && AllWellFormed(EventsOf(s, Rename(a, b), cookie))
    ensures ZapSubtree(Changed(s, Rename(a, b), listing), a).Some?
    ensures var t := Result(s, a, b, listing, cookie);
      t.running && Synced(t) && Outcome(s, t, Rename(a, b), listing)
  {
    hide Closed, RootsApart, Linked, Legal, Monitored, ZapSubtree, AfterGone, Result;
    Named(s, a, b, listing);
    WatchedParent(s, a);
    NothingRemoved(s, {a});
    var s1 := Changed(s, Rename(a, b), listing);
    ZapOutSynced(s, s1, a, b, listing);
    OutHandled(s, a, b, listing, cookie);
    OutcomeOfBoth(s, ZapSubtree(s1, a).value, Result(s, a, b, listing, cookie), a, b, listing);
    var r := RootOver(s, a);
    StaysRoot(s, Result(s, a, b, listing, cookie), {a, b}, r);
  }

  lemma RootOver(s: State, p: Path) returns (r: Path)
    requires Monitored(s, p)
    ensures IsRoot(s, r) && r <= p
  {
    r :| IsRoot(s, r) && r <= p;
  }

  lemma StaysRoot(s: State, t: State, gone: set<Path>, r: Path)
    requires t.roots == Without(s.roots, gone) && IsRoot(s, r) && r !in gone
    ensures IsRoot(t, r) && !NoRoots(t.roots)
  {
    var i :| 0 <= i < |s.roots| && s.roots[i] == Some(r);
    assert t.roots[i] == Some(r);
  }

  /** The parent of a root is not watched. */
  lemma RootParent(s: State, a: Path)
    requires RootsApart(s) && Covered(s) && IsRoot(s, a) && a != []
    ensures Parent(a) !in s.kernel.watch
  {
  }

  function Self(s: State, a: Path): Event
    requires a in s.kernel.watch
  {
    Event(s.kernel.watch[a].wd, {MoveSelf}, 0, "", 0)
  }

  lemma SelfEvents(s: State, a: Path, b: Path, cookie: int)
    requires a != [] && b != [] && Parent(a) !in s.kernel.watch && Parent(b) !in s.kernel.watch
    requires a in s.kernel.watch && s.kernel.watch[a].moveSelf
    ensures EventsOf(s, Rename(a, b), cookie) == [Self(s, a)] + Gone(s.kernel, b)
  {
    hide Gone;
  }

  lemma NextSelf(s: State, s1: State, a: Path, rest: seq<Event>)
    requires Linked(s) && s1.view == s.view && a in s.kernel.watch && IsRoot(s1, a)
    requires ZapRoot(s1, a).running ==> ZapSubtree(ZapRoot(s1, a), a).Some?
    ensures var z := ZapRoot(s1, a);
      && WellFormed(Self(s, a))
      && Next(s1, [Self(s, a)] + rest, false)
      == (if z.running then ZapSubtree(z, a).value else z, Events(1))
  {
    hide ZapSubtree, ZapRoot;
    assert s.view[Self(s, a).wd] == a;
  }

  lemma RootOutHandled(s: State, a: Path, b: Path, listing: seq<Path>, cookie: int)
    requires Linked(s) && s.running && a != [] && b != [] && Plain(Name(a)) && Plain(Name(b))
    requires Parent(a) !in s.kernel.watch && Parent(b) !in s.kernel.watch
    requires a in s.kernel.watch && s.kernel.watch[a].moveSelf && IsRoot(s, a)
    requires var z := ZapRoot(Changed(s, Rename(a, b), listing), a);
      z.running ==>
        && ZapSubtree(z, a).Some? && ZapSubtree(z, a).value.running
        && var u := ZapSubtree(z, a).value;
           b in s.kernel.watch ==> s.kernel.watch[b].wd in u.view && u.view[s.kernel.watch[b].wd] == b
    ensures AllWellFormed(EventsOf(s, Rename(a, b), cookie))
    ensures var z := ZapRoot(Changed(s, Rename(a, b), listing), a);
      Result(s, a, b, listing, cookie) == if z.running then AfterGone(s.kernel, ZapSubtree(z, a).value, b) else z
  {
    EventsWellFormed(s, a, b, cookie);
    GoneWellFormed(s, b);
    var s1 := Changed(s, Rename(a, b), listing);
    if b in s.kernel.watch { LinkedBounds(s, b); }
    hide Linked, EventsOf, Gone, Next, ZapSubtree, ZapRoot, Self, AfterGone;
    SelfEvents(s, a, b, cookie);
    NextSelf(s, s1, a, Gone(s.kernel, b));
    HandleOne(s1, Self(s, a), Gone(s.kernel, b));
    var z := ZapRoot(s1, a);
    if z.running { HandleGone(s.kernel, ZapSubtree(z, a).value, b); }
  }

  lemma RenameRootOut(s: State, a: Path, b: Path, listing: seq<Path>, cookie: int)
    requires Renaming(s, a, b, listing) && b != []
    requires IsRoot(s, a) && !Monitored(s, Parent(b))
    ensures a != [] && AllWellFormed(EventsOf(s, Rename(a, b), cookie))
    ensures var t := Result(s, a, b, listing, cookie);
      (t.running ==> Synced(t)) && Outcome(s, t, Rename(a, b), listing)
  {
    hide Closed, RootsApart, Linked, Legal, Monitored, ZapSubtree, AfterGone, Result, ZapRoot;
    Named(s, a, b, listing);
    RootWatched(s, a);
    RootParent(s, a);
    var z := ZapRoot(Changed(s, Rename(a, b), listing), a);
    ZapRootFrame(s, a, b, listing);
    if z.running { ZapOutSynced(s, z, a, b, listing); }
    RootOutHandled(s, a, b, listing, cookie);
    var t := Result(s, a, b, listing, cookie);
    if z.running {
      var r :| IsRoot(z, r);
      assert IsRoot(ZapSubtree(z, a).value, r);
      OutcomeOfBoth(s, ZapSubtree(z, a).value, t, a, b, listing);
    } else {
      LastRootGone(s, z, a, b, listing);
    }
  }

  lemma ZapRootFrame(s: State, a: Path, b: Path, listing: seq<Path>)
    requires RootsApart(s) && IsRoot(s, a)
    ensures var s1 := Changed(s, Rename(a, b), listing); var z := ZapRoot(s1, a);
      && z.kernel == s1.kernel && z.view == s.view && z.roots == Without(s.roots, {a})
      && (s.running ==> (z.running <==> exists r :: IsRoot(z, r)))
  {
    var z := ZapRoot(Changed(s, Rename(a, b), listing), a);
    if r :| IsRoot(z, r) { var i :| 0 <= i < |z.roots| && z.roots[i] == Some(r); }
    if !NoRoots(z.roots) {
      var i :| 0 <= i < |z.roots| && z.roots[i].Some?;
      assert IsRoot(z, z.roots[i].value);
    }
  }

  lemma LastRootGone(s: State, z: State, a: Path, b: Path, listing: seq<Path>)
    requires IsRoot(s, a) && z.roots == Without(s.roots, {a}) && z.kernel.listing == listing
    requires !z.running && !exists r :: IsRoot(z, r)
    ensures Outcome(s, z, Rename(a, b), listing)
  {
    forall i | 0 <= i < |z.roots|
      ensures z.roots[i].None?
    {
      if z.roots[i].Some? { assert IsRoot(z, z.roots[i].value); }
    }
  }

  // ---- into the monitored trees, and outside them -------------------------------------------

  lemma UnwatchedBelow(s: State, a: Path, p: Path)
    requires Covered(s) && !Monitored(s, a) && p in s.kernel.watch
    requires forall r :: IsRoot(s, r) && a <= r ==> r == a
    ensures !(a <= p)
  {
  }

  lemma WatchesStay(k: Kernel, w: map<Path, Watch>, a: Path, b: Path)
    requires Follows(k, w, a, b) && forall p :: p in k.watch ==> !(a <= p)
    ensures w == k.watch - {b}
  {
    forall q | q in w
      ensures q in k.watch && q != b && w[q] == k.watch[q]
    {
      if b <= q { MovedOfBack(a, b, q); }
      assert Back(a, b, q) == q;
    }
    forall q | q in k.watch && q != b
      ensures q in w
    {
      assert Moved(a, b, q) == q;
    }
    assert w.Keys == (k.watch - {b}).Keys;
  }

  /** A directory that is not monitored and not above a root takes no watches along. */
  lemma NothingCarried(s: State, a: Path, b: Path, listing: seq<Path>)
    requires Renaming(s, a, b, listing) && !Monitored(s, a)
    ensures Changed(s, Rename(a, b), listing).kernel.watch == s.kernel.watch - {b}
  {
    hide Closed, RootsApart, Linked, Legal, Monitored, Follows, Covered;
    WatchesFollow(s, a, b, listing);
    forall p | p in s.kernel.watch ensures !(a <= p) { UnwatchedBelow(s, a, p); }
    WatchesStay(s.kernel, Changed(s, Rename(a, b), listing).kernel.watch, a, b);
  }

  lemma UnmonitoredParent(s: State, a: Path)
    requires Covered(s) && !Monitored(s, a) && a != []
    ensures Parent(a) !in s.kernel.watch && a !in s.kernel.watch && !IsRoot(s, a)
  {
  }

  /** A "moved to" event for a directory watches it, unless its path is cached. */
  lemma NextTo(s: State, s1: State, b: Path, cookie: int, rest: seq<Event>)
    requires Linked(s) && s1.view == s.view && b != [] && Plain(Name(b)) && Parent(b) in s.kernel.watch
    ensures WellFormed(To(s, b, cookie))
    ensures Next(s1, [To(s, b, cookie)] + rest, false)
         == (if b in s1.view.Values then s1 else WatchSubtree(s1, b), Events(1))
  {
    hide WatchSubtree;
    var e := To(s, b, cookie);
    assert s.view[e.wd] + [e.name] == b;
  }

  lemma ToEvents(s: State, a: Path, b: Path, cookie: int)
    requires a != [] && b != [] && Parent(a) !in s.kernel.watch && Parent(b) in s.kernel.watch
    requires a !in s.kernel.watch && b !in s.kernel.watch
    ensures EventsOf(s, Rename(a, b), cookie) == [To(s, b, cookie)] + []
  {
  }

  lemma InHandled(s: State, a: Path, b: Path, listing: seq<Path>, cookie: int)
    requires Linked(s) && s.running && a != [] && b != [] && Plain(Name(a)) && Plain(Name(b))
    requires Parent(a) !in s.kernel.watch && Parent(b) in s.kernel.watch
    requires a !in s.kernel.watch && b !in s.kernel.watch
    ensures AllWellFormed(EventsOf(s, Rename(a, b), cookie))
    ensures Result(s, a, b, listing, cookie) == WatchSubtree(Changed(s, Rename(a, b), listing), b)
  {
    EventsWellFormed(s, a, b, cookie);
    if b in s.view.Values { var wd := KeyOf(s.view, b); }
    hide Linked, EventsOf, Next, To, WatchSubtree;
    var s1 := Changed(s, Rename(a, b), listing);
    ToEvents(s, a, b, cookie);
    NextTo(s, s1, b, cookie, []);
    HandleOne(s1, To(s, b, cookie), []);
  }

  lemma InSynced(s: State, t: State, a: Path, b: Path, listing: seq<Path>)
    requires Renaming(s, a, b, listing) && b != [] && Monitored(s, Parent(b)) && !IsRoot(s, a)
    requires Linked(t) && t.running && t.roots == s.roots && t.kernel.listing == listing
    requires t.kernel.watch.Keys == s.kernel.watch.Keys + Chosen(b, listing)
    requires forall q :: q in Chosen(b, listing) ==> t.kernel.watch[q].moveSelf == IsRoot(s, q)
    requires forall q :: q in s.kernel.watch && q !in Chosen(b, listing) ==> t.kernel.watch[q] == s.kernel.watch[q]
    requires forall q :: q in s.kernel.watch ==> !(a <= q) && !(b <= q)
    ensures Synced(t)
  {
    hide Closed, RootsApart, Linked, Monitored;
    NoRootBelow(s, b);
    NothingRemoved(s, {a, b});
    forall q | q in listing && b <= q
      ensures !IsRoot(s, q)
    {
      if IsRoot(s, q) {
        RootExists(s, q);
        NotBelowTarget(s, a, b, listing, q);
      }
    }
    RenameCovered(s, t, a, b, listing);
  }

  lemma RenameIn(s: State, a: Path, b: Path, listing: seq<Path>, cookie: int)
    requires Renaming(s, a, b, listing) && b != []
    requires !Monitored(s, a) && Monitored(s, Parent(b)) && !Exists(s, b)
    ensures a != [] && AllWellFormed(EventsOf(s, Rename(a, b), cookie))
    ensures var t := Result(s, a, b, listing, cookie); Synced(t) && Outcome(s, t, Rename(a, b), listing)
  {
    hide Closed, RootsApart, Linked, Legal, Monitored, Result, WatchSubtree, Exists;
    Named(s, a, b, listing);
    UnmonitoredParent(s, a);
    NoRootBelow(s, b);
    WatchedParent(s, b);
    InHandled(s, a, b, listing, cookie);
    NothingCarried(s, a, b, listing);
    var s1 := Changed(s, Rename(a, b), listing);
    InLinked(s, s1);
    WatchSubtreeAdds(s1, b);
    forall q | q in s.kernel.watch
      ensures !(a <= q) && !(b <= q)
    {
      UnwatchedBelow(s, a, q);
      if b <= q { NotBelowTarget(s, a, b, listing, q); }
    }
    InSynced(s, WatchSubtree(s1, b), a, b, listing);
    RootsUnchanged(s, WatchSubtree(s1, b), Rename(a, b), listing);
  }

  lemma WatchSubtreeAdds(s: State, dir: Path)
    requires Linked(s)
    ensures Linked(WatchSubtree(s, dir)) && Watched(s, WatchSubtree(s, dir), Chosen(dir, s.kernel.listing))
  {
    WatchListAdds(s, dir, s.kernel.listing);
  }

  lemma InLinked(s: State, t: State)
    requires Linked(s) && t.view == s.view && t.kernel.watch == s.kernel.watch && t.kernel.next == s.kernel.next
    ensures Linked(t)
  {
  }

  lemma RenameOutside(s: State, a: Path, b: Path, listing: seq<Path>, cookie: int)
    requires Renaming(s, a, b, listing) && b != []
    requires !Monitored(s, a) && !Monitored(s, Parent(b))
    ensures a != [] && AllWellFormed(EventsOf(s, Rename(a, b), cookie))
    ensures var t := Result(s, a, b, listing, cookie);
      (t.running ==> Synced(t)) && Outcome(s, t, Rename(a, b), listing)
  {
    hide Closed, RootsApart, Linked, Legal, Monitored, AfterGone;
    Named(s, a, b, listing);
    UnmonitoredParent(s, a);
    NothingRemoved(s, {a});
    NothingCarried(s, a, b, listing);
    var s1 := Changed(s, Rename(a, b), listing);
    EventsWellFormed(s, a, b, cookie);
    assert EventsOf(s, Rename(a, b), cookie) == Gone(s.kernel, b);
    forall q | q in s.kernel.watch ensures !(a <= q) { UnwatchedBelow(s, a, q); }
    OutsideUnmoved(s, s1, a, b, listing);
    OutEnds(s, s1, a, b, listing);
    GoneHandledFrom(s, s1, b);
    OutcomeOfBoth(s, s1, Result(s, a, b, listing, cookie), a, b, listing);
  }

  lemma GoneHandledFrom(s: State, u: State, b: Path)
    requires Linked(s) && u.running && u.view == s.view
    ensures AllWellFormed(Gone(s.kernel, b))
    ensures b in s.kernel.watch ==> s.kernel.watch[b].wd in u.view && u.view[s.kernel.watch[b].wd] == b
    ensures HandleAll(u, Gone(s.kernel, b)) == AfterGone(s.kernel, u, b)
  {
    HandleGone(s.kernel, u, b);
  }

  lemma OutsideUnmoved(s: State, s1: State, a: Path, b: Path, listing: seq<Path>)
    requires Renaming(s, a, b, listing) && s1 == Changed(s, Rename(a, b), listing)
    requires s1.kernel.watch == s.kernel.watch - {b}
    requires forall q :: q in s.kernel.watch ==> !(a <= q)
    ensures MovedOut(s, s1, s1.kernel.watch, a, b)
    ensures forall wd :: wd in s1.view <==> wd in s.view && !(a <= s.view[wd])
  {
    hide Closed, RootsApart, Legal, Monitored;
    forall q | q in s1.kernel.watch
      ensures !(b <= q)
    {
      if b <= q { NotBelowTarget(s, a, b, listing, q); }
    }
  }
}
