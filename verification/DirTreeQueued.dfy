/** Changes that are all made before the first of their events is read. */
module DirTreeQueued {
  import opened Options
  import opened DirTreePaths
  import opened DirTreeState
  import opened DirTreeSync
  import opened DirTreeRuns
  import opened DirTreeSteps
  import opened DirTreeRename
  import opened DirTreeMoves
  import opened DirTreeTheorems
  import opened DirTreeLate

  ghost predicate Shaped(x: Step) {
    (x.change.Mkdir? ==> x.change.dir != []) && (x.change.Rename? ==> x.change.src != [] && x.change.dst != [])
  }

  function WithKernel(k: Kernel): State {
    State(map[], [], k, true)
  }

  /** The kernel after the changes, with nothing handled in between. */
  ghost function KernelAfter(k: Kernel, steps: seq<Step>): Kernel
    decreases |steps|
  {
    if steps == [] then k
    else KernelAfter(Changed(WithKernel(k), steps[0].change, steps[0].listing).kernel, steps[1..])
  }

  /** All the events that are queued by then, in order. */
  ghost function QueuedEvents(k: Kernel, steps: seq<Step>): seq<Event>
    requires forall i :: 0 <= i < |steps| ==> Shaped(steps[i])
    decreases |steps|
  {
    if steps == [] then []
    else
      assert Shaped(steps[0]);
      EventsOf(WithKernel(k), steps[0].change, steps[0].cookie) +
      QueuedEvents(Changed(WithKernel(k), steps[0].change, steps[0].listing).kernel, steps[1..])
  }

  /** All the changes are made, then all their events handled: the outcome is t. */
  ghost predicate Together(s: State, steps: seq<Step>, t: State) {
    && (forall i :: 0 <= i < |steps| ==> Shaped(steps[i]))
    && AllWellFormed(QueuedEvents(s.kernel, steps))
    && HandleAll(s.(kernel := KernelAfter(s.kernel, steps)), QueuedEvents(s.kernel, steps)) == t
  }

  lemma Detached(s: State, x: Step)
    requires Shaped(x)
    ensures EventsOf(WithKernel(s.kernel), x.change, x.cookie) == EventsOf(s, x.change, x.cookie)
    ensures Changed(WithKernel(s.kernel), x.change, x.listing).kernel == Changed(s, x.change, x.listing).kernel
  {
    OnlyKernelMatters(WithKernel(s.kernel), s, x);
  }

  // ---- changes whose handling needs no look at the tree -------------------------------------

  /** The handler only changes the cache and the roots: for an rmdir, for other files, for a rename within the trees. */
  ghost predicate Quiet(s: State, c: Change) {
    c.Rmdir? || c.File? || Within(s, c)
  }

  lemma GoneThen(k: Kernel, u: State, b: Path, more: seq<Event>)
    requires u.running && AllWellFormed(more)
    requires b in k.watch ==> 1 <= k.watch[b].wd && k.watch[b].wd in u.view && u.view[k.watch[b].wd] == b
    ensures AllWellFormed(Gone(k, b) + more)
    ensures HandleAll(u, Gone(k, b) + more) == HandleAll(AfterGone(k, u, b), more)
  {
    if b in k.watch {
      var wd := k.watch[b].wd;
      var e, e' := Event(wd, {DeleteSelf}, 0, "", 0), Event(wd, {Ignored}, 0, "", 0);
      assert Gone(k, b) + more == [e] + ([e'] + more);
      HandleOne(u, e, [e'] + more);
      var v := AfterGone(k, u, b);
      if v.running { HandleOne(v, e', more); }
    } else {
      assert Gone(k, b) + more == more;
    }
  }

  lemma AfterGoneAt(k: Kernel, u: State, b: Path, k': Kernel)
    requires b in k.watch ==> k.watch[b].wd in u.view && u.view[k.watch[b].wd] == b
    ensures AfterGone(k, u.(kernel := k'), b) == AfterGone(k, u, b).(kernel := k')
    ensures AfterGone(k, u, b).kernel == u.kernel
  {
  }

  lemma RmdirThen(s: State, d: Path, listing: seq<Path>, k: Kernel, more: seq<Event>)
    requires Synced(s) && Legal(s, Rmdir(d), listing) && AllWellFormed(more)
    ensures AllWellFormed(EventsOf(s, Rmdir(d), 0)) && AllWellFormed(EventsOf(s, Rmdir(d), 0) + more)
    ensures var t := HandleAll(Changed(s, Rmdir(d), listing), EventsOf(s, Rmdir(d), 0));
      && t.kernel == Changed(s, Rmdir(d), listing).kernel
      && HandleAll(s.(kernel := k), EventsOf(s, Rmdir(d), 0) + more) == HandleAll(t.(kernel := k), more)
  {
    hide Closed, RootsApart, Covered, Legal;
    var s1 := Changed(s, Rmdir(d), listing);
    if d in s.kernel.watch { LinkedAt(s, d); LinkedBounds(s, d); }
    hide Linked, AfterGone, Gone, HandleAll;
    HandleGone(s.kernel, s1, d);
    GoneThen(s.kernel, s.(kernel := k), d, more);
    AfterGoneAt(s.kernel, s1, d, k);
    assert s1.(kernel := k) == s.(kernel := k);
  }

  lemma FileThen(s: State, x: Change, listing: seq<Path>, cookie: int, k: Kernel, more: seq<Event>)
    requires x.File? && Synced(s) && Legal(s, x, listing) && AllWellFormed(more)
    ensures AllWellFormed(EventsOf(s, x, cookie)) && AllWellFormed(EventsOf(s, x, cookie) + more)
    ensures HandleAll(s.(kernel := k), EventsOf(s, x, cookie) + more) == HandleAll(s.(kernel := k), more)
  {
    hide Closed, RootsApart, Covered, Monitored, Exists, ExistsAfter;
    var evs := EventsOf(s, x, cookie);
    if x.dir in s.kernel.watch {
      assert evs == [evs[0]];
      HandleOne(s.(kernel := k), evs[0], more);
    } else {
      assert evs + more == more;
    }
  }

  lemma RewriteAt(s1: State, a: Path, b: Path, k: Kernel)
    ensures Rewrite(s1.(kernel := k), a, b) == Rewrite(s1, a, b).(kernel := k)
  {
  }

  /** The pair is seen, the cache rewritten, and the replaced directory's entry cleared, whatever the kernel is. */
  lemma PairThen(s: State, a: Path, b: Path, cookie: int, k: Kernel, more: seq<Event>)
    requires Linked(s) && s.running && a != [] && b != [] && Plain(Name(a)) && Plain(Name(b)) && !(a <= b)
    requires Parent(a) in s.kernel.watch && Parent(b) in s.kernel.watch && AllWellFormed(more)
    ensures var evs := [From(s, a, cookie), To(s, b, cookie)] + Gone(s.kernel, b) + more;
      var u := Rewrite(s.(kernel := k), a, b);
      && AllWellFormed(evs)
      && (b in s.kernel.watch ==> s.kernel.watch[b].wd in u.view && u.view[s.kernel.watch[b].wd] == b)
      && HandleAll(s.(kernel := k), evs) == HandleAll(AfterGone(s.kernel, u, b), more)
  {
    GoneWellFormed(s, b);
    if b in s.kernel.watch { LinkedAt(s, b); LinkedBounds(s, b); }
    var e, e', rest := From(s, a, cookie), To(s, b, cookie), Gone(s.kernel, b);
    var u := Rewrite(s.(kernel := k), a, b);
    NextPair(s, s.(kernel := k), a, b, cookie, rest + more);
    hide Linked, HandleAll, Gone, Next, Rewrite, From, To, AfterGone;
    assert [e, e'] + rest + more == [e, e'] + (rest + more);
    GoneThen(s.kernel, u, b, more);
    HandlePair(s.(kernel := k), e, e', rest + more);
  }

  lemma WithinThen(s: State, a: Path, b: Path, listing: seq<Path>, cookie: int, k: Kernel, more: seq<Event>)
    requires Renaming(s, a, b, listing) && Within(s, Rename(a, b)) && AllWellFormed(more)
    ensures a != [] && AllWellFormed(EventsOf(s, Rename(a, b), cookie))
    ensures AllWellFormed(EventsOf(s, Rename(a, b), cookie) + more)
    ensures var t := Result(s, a, b, listing, cookie);
      && t.kernel == Changed(s, Rename(a, b), listing).kernel
      && HandleAll(s.(kernel := k), EventsOf(s, Rename(a, b), cookie) + more) == HandleAll(t.(kernel := k), more)
  {
    WithinReady(s, a, b, listing);
    EventsWellFormed(s, a, b, cookie);
    PairEvents(s, a, b, cookie);
    hide Closed, RootsApart, Covered, Legal, Monitored, HandleAll, EventsOf, Gone, Next, Rewrite, From, To, AfterGone;
    var s1 := Changed(s, Rename(a, b), listing);
    var evs := EventsOf(s, Rename(a, b), cookie);
    PairThen(s, a, b, cookie, s1.kernel, []);
    PairThen(s, a, b, cookie, k, more);
    hide Linked;
    assert evs + [] == evs && s.(kernel := s1.kernel) == s1 && s1.(kernel := k) == s.(kernel := k);
    RewriteAt(s1, a, b, k);
    AfterGoneAt(s.kernel, Rewrite(s1, a, b), b, k);
    NothingMore(AfterGone(s.kernel, Rewrite(s1, a, b), b));
    RewriteAt(s1, a, b, s1.kernel);
  }

  lemma NothingMore(s: State)
    ensures HandleAll(s, []) == s
  {
  }

  /** Handling a quiet change is the same before and after other changes, whatever has happened to the kernel. */
  lemma QuietThen(s: State, x: Step, k: Kernel, more: seq<Event>)
    requires Synced(s) && Possible(s, x) && Quiet(s, x.change) && AllWellFormed(more)
    ensures AllWellFormed(EventsOf(s, x.change, x.cookie) + more)
    ensures Handled(s, x).kernel == Changed(s, x.change, x.listing).kernel
    ensures HandleAll(s.(kernel := k), EventsOf(s, x.change, x.cookie) + more)
         == HandleAll(Handled(s, x).(kernel := k), more)
  {
    match x.change {
      case Rmdir(d) =>
        hide Synced, Legal, HandleAll, Changed;
        RmdirThen(s, d, x.listing, k, more);
      case File(_, _, _) =>
        hide Synced, Legal, HandleAll;
        FileThen(s, x.change, x.listing, x.cookie, k, more);
        FileSyncs(s, x.change, x.listing, x.cookie);
      case Rename(a, b) =>
        MonitoredRenaming(s, a, b, x.listing);
        hide Synced, Legal, HandleAll, Changed, Renaming, EventsOf, Within;
        WithinThen(s, a, b, x.listing, x.cookie, k, more);
    }
  }

  lemma QuietSyncs(s: State, x: Step)
    requires Synced(s) && Possible(s, x) && Quiet(s, x.change)
    ensures Handled(s, x).running ==> Synced(Handled(s, x))
  {
    if x.change.Rename? { WithinHarmless(s, x.change.src, x.change.dst, x.listing); }
    hide Synced, Legal, HandleAll, Handled, Outcome, Within;
    ChangeKeepsSync(s, x);
  }

  /** A batch: quiet changes, and then one of any kind, all made before the first event is read. Handling their events
      comes to the same as handling each change before the next. */
  lemma {:induction false} BatchIsRun(states: seq<State>, steps: seq<Step>)
    requires Run(states, steps) && Synced(states[0]) && steps != []
    requires forall i :: 0 <= i < |steps| - 1 ==> Quiet(states[i], steps[i].change)
    ensures Together(states[0], steps, states[|steps|])
    decreases |steps|
  {
    var s, x := states[0], steps[0];
    assert Shaped(x);
    Detached(s, x);
    hide Synced, Legal, HandleAll, Changed, EventsOf, Quiet, Shaped;
    if |steps| == 1 {
      BatchOfOne(s, x, steps);
    } else {
      assert Quiet(states[0], steps[0].change) && states[1] == Handled(states[0], steps[0]) && states[1].running;
      QuietSyncs(s, x);
      BatchIsRun(states[1..], steps[1..]);
      var t, rest := states[1], steps[1..];
      forall i | 0 <= i < |steps| ensures Shaped(steps[i]) { if i > 0 { assert steps[i] == rest[i - 1]; } }
      QuietThen(s, x, KernelAfter(t.kernel, rest), QueuedEvents(t.kernel, rest));
    }
  }

  lemma BatchOfOne(s: State, x: Step, steps: seq<Step>)
    requires Possible(s, x) && Shaped(x) && steps == [x]
    ensures Together(s, steps, Handled(s, x))
  {
    Detached(s, x);
    OnlyKernelMatters(s, WithKernel(s.kernel), x);
    hide Legal, HandleAll, EventsOf, Changed;
    var k := Changed(s, x.change, x.listing).kernel;
    assert steps[1..] == [];
    assert KernelAfter(s.kernel, steps) == KernelAfter(k, []) == k;
    assert QueuedEvents(s.kernel, steps) == EventsOf(s, x.change, x.cookie) + [] == EventsOf(s, x.change, x.cookie);
  }

  // ---- after a rename out of the trees ------------------------------------------------------

  /** The change is not about the directories below b; b itself may be renamed further. */
  ghost predicate Clear(c: Change, b: Path) {
    match c
    case Mkdir(d) => d != [] && !(b <= Parent(d))
    case Rmdir(d) => !(b <= d)
    case File(d, _, _) => !(b <= d)
    case Rename(src, dst) => src != [] && dst != [] && !(b <= Parent(src)) && !(b <= dst)
  }

  /** Removing watches and changing the tree can change places. */
  lemma DropThenChange(k: Kernel, c: Change, listing: seq<Path>, wds: set<int>)
    ensures DropWds(Changed(WithKernel(k), c, listing).kernel, wds)
         == Changed(WithKernel(DropWds(k, wds)), c, listing).kernel
  {
    if c.Rename? {
      var w := DropWds(Changed(WithKernel(k), c, listing).kernel, wds).watch;
      var w' := Changed(WithKernel(DropWds(k, wds)), c, listing).kernel.watch;
      assert w.Keys == w'.Keys;
    } else if c.Rmdir? {
      assert DropWds(k.(watch := k.watch - {c.dir}), wds).watch == DropWds(k, wds).watch - {c.dir};
    }
  }

  /** The watch stays, perhaps at another path. */
  lemma StillWatched(s: State, x: Step, b: Path, q: Path) returns (q': Path)
    requires Closed(s) && Legal(s, x.change, x.listing) && Clear(x.change, b) && b <= q
    requires q in s.kernel.watch && Exists(s, q)
    ensures var w := Changed(s, x.change, x.listing).kernel.watch; q' in w && w[q'] == s.kernel.watch[q]
  {
    q' := q;
    if x.change.Rename? {
      MovedAlong(s, x.change.src, x.change.dst, x.listing, q);
      q' := Moved(x.change.src, x.change.dst, q);
    }
  }

  lemma ZapStillWorks(s: State, a: Path, b: Path, listing: seq<Path>, x: Step)
    requires Renaming(s, a, b, listing) && Clear(x.change, b)
    requires var s1 := Changed(s, Rename(a, b), listing); Closed(s1) && Legal(s1, x.change, x.listing)
    ensures var s1 := Changed(s, Rename(a, b), listing);
      Below(s.view, a) <= KernelWds(Changed(s1, x.change, x.listing).kernel)
  {
    var s1 := Changed(s, Rename(a, b), listing);
    var k := Changed(s1, x.change, x.listing).kernel;
    WatchesFollow(s, a, b, listing);
    Named(s, a, b, listing);
    hide Closed, RootsApart, Covered, Legal, Monitored, Clear;
    forall wd | wd in Below(s.view, a)
      ensures wd in KernelWds(k)
    {
      var p := s.view[wd];
      var q := Moved(a, b, p);
      BackOfMoved(a, b, p);
      assert q in s1.kernel.watch && s1.kernel.watch[q].wd == wd;
      var q' := StillWatched(s1, x, b, q);
      assert k.watch[q'].wd == wd;
    }
  }

  lemma ZapQueued(s: State, s1: State, a: Path, x: Step)
    requires s1 == s.(kernel := s1.kernel) && Shaped(x)
    requires ZapSubtree(s1, a).Some? && Below(s.view, a) <= KernelWds(Changed(s1, x.change, x.listing).kernel)
    ensures var k, z := Changed(s1, x.change, x.listing).kernel, ZapSubtree(s1, a).value;
      ZapSubtree(s.(kernel := k), a) == Some(z.(kernel := Changed(z, x.change, x.listing).kernel))
  {
    var wds := Below(s.view, a);
    var z := ZapSubtree(s1, a).value;
    DropThenChange(s1.kernel, x.change, x.listing, wds);
    Detached(s1, x);
    Detached(z, x);
  }

  lemma SameEvents(s: State, t: State, x: Step, b: Path)
    requires Shaped(x) && Clear(x.change, b)
    requires forall q :: q in t.kernel.watch <==> q in s.kernel.watch && !(b <= q)
    requires forall q :: q in t.kernel.watch ==> t.kernel.watch[q] == s.kernel.watch[q]
    requires b in s.kernel.watch ==> !s.kernel.watch[b].moveSelf
    ensures EventsOf(s, x.change, x.cookie) == EventsOf(t, x.change, x.cookie)
  {
    if x.change.Rename? {
      var src := x.change.src;
      AboveChild(b, src);
      AboveChild(b, x.change.dst);
    }
  }

  /** A "moved from" that is followed by a "moved to" of another rename, or by anything else. */
  lemma NextFromUnpaired(s: State, s1: State, a: Path, cookie: int, rest: seq<Event>)
    requires Linked(s) && s1.view == s.view && a != [] && Plain(Name(a)) && Parent(a) in s.kernel.watch
    requires ZapSubtree(s1, a).Some?
    requires rest != [] && MovedTo in rest[0].mask ==> rest[0].cookie != cookie
    ensures var e := From(s, a, cookie);
      WellFormed(e) && Next(s1, [e] + rest, false) == (ZapSubtree(s1, a).value, Events(1))
  {
    hide ZapSubtree;
    var e := From(s, a, cookie);
    assert s.view[e.wd] + [e.name] == a;
  }

  ghost predicate OtherCookie(evs: seq<Event>, cookie: int) {
    evs != [] && MovedTo in evs[0].mask ==> evs[0].cookie != cookie
  }

  lemma CookiesDiffer(s: State, x: Step, b: Path, cookie: int)
    requires Shaped(x) && (x.cookie != cookie || x.change.Mkdir? || x.change.Rmdir?)
    ensures OtherCookie(Gone(s.kernel, b) + EventsOf(s, x.change, x.cookie), cookie)
    ensures forall k :: OtherCookie(Gone(k, b) + EventsOf(s, x.change, x.cookie), cookie)
  {
  }

  lemma FromThen(s: State, u: State, a: Path, b: Path, cookie: int, more: seq<Event>)
    requires Linked(s) && u.running && u.view == s.view && a != [] && b != [] && Plain(Name(a))
    requires Parent(a) in s.kernel.watch && AllWellFormed(more) && OtherCookie(Gone(s.kernel, b) + more, cookie)
    requires ZapSubtree(u, a).Some? && !(a <= b)
    ensures var evs, z := [From(s, a, cookie)] + Gone(s.kernel, b) + more, ZapSubtree(u, a).value;
      && AllWellFormed(evs)
      && (b in s.kernel.watch ==> s.kernel.watch[b].wd in z.view && z.view[s.kernel.watch[b].wd] == b)
      && HandleAll(u, evs) == HandleAll(AfterGone(s.kernel, z, b), more)
  {
    GoneWellFormed(s, b);
    if b in s.kernel.watch { LinkedAt(s, b); LinkedBounds(s, b); }
    var e, rest, z := From(s, a, cookie), Gone(s.kernel, b), ZapSubtree(u, a).value;
    NextFromUnpaired(s, u, a, cookie, rest + more);
    assert [e] + rest + more == [e] + (rest + more);
    assert b in s.kernel.watch ==> s.kernel.watch[b].wd in z.view && z.view[s.kernel.watch[b].wd] == b;
    hide Linked, HandleAll, Gone, Next, From, AfterGone, ZapSubtree;
    GoneThen(s.kernel, z, b, more);
    HandleOne(u, e, rest + more);
  }

  lemma SameTree(s: State, t: State, x: Step)
    requires s.kernel.listing == t.kernel.listing
    ensures Closed(s) <==> Closed(t)
    ensures Legal(s, x.change, x.listing) <==> Legal(t, x.change, x.listing)
  {
    assert forall p :: Exists(s, p) <==> Exists(t, p);
    assert forall p :: Leaf(s, p) <==> Leaf(t, p);
    assert forall p :: HasPlace(s, p) <==> HasPlace(t, p);
    assert forall q :: ExistsAfter(s, x.change, q) <==> ExistsAfter(t, x.change, q);
  }

  lemma BatchOfTwo(s: State, x: Step, y: Step)
    requires Shaped(x) && Shaped(y)
    ensures var s1 := Changed(s, x.change, x.listing);
      && KernelAfter(s.kernel, [x, y]) == Changed(s1, y.change, y.listing).kernel
      && QueuedEvents(s.kernel, [x, y]) == EventsOf(s, x.change, x.cookie) + EventsOf(s1, y.change, y.cookie)
  {
    var s1 := Changed(s, x.change, x.listing);
    Detached(s, x);
    Detached(s1, y);
    hide Changed, EventsOf;
    assert [x, y][1..] == [y] && [y][1..] == [];
    var k1 := s1.kernel;
    var k2 := Changed(WithKernel(k1), y.change, y.listing).kernel;
    assert KernelAfter(s.kernel, [x, y]) == KernelAfter(k1, [y]) == KernelAfter(k2, []) == k2;
    assert QueuedEvents(k1, [y]) == EventsOf(s1, y.change, y.cookie) + QueuedEvents(k2, []);
    assert EventsOf(s1, y.change, y.cookie) + [] == EventsOf(s1, y.change, y.cookie);
  }

  /** The state after the rename out alone. */
  lemma OutAlone(s: State, a: Path, b: Path, listing: seq<Path>, cookie: int)
    requires Renaming(s, a, b, listing) && b != []
    requires Monitored(s, a) && !IsRoot(s, a) && !Monitored(s, Parent(b))
    ensures a != [] && AllWellFormed(EventsOf(s, Rename(a, b), cookie)) && Plain(Name(a)) && !(a <= b)
    ensures Parent(a) in s.kernel.watch && EventsOf(s, Rename(a, b), cookie) == [From(s, a, cookie)] + Gone(s.kernel, b)
    ensures var s1, t := Changed(s, Rename(a, b), listing), Result(s, a, b, listing, cookie);
      && t.running && Synced(t) && t.kernel.listing == listing && ZapSubtree(s1, a).Some?
      && var z := ZapSubtree(s1, a).value;
      && (b in s.kernel.watch ==> s.kernel.watch[b].wd in z.view && z.view[s.kernel.watch[b].wd] == b)
      && t == AfterGone(s.kernel, z, b) && t.kernel == z.kernel
  {
    hide Closed, RootsApart, Covered, Legal, Monitored, ZapSubtree, AfterGone, Result, EventsOf, HandleAll, Gone, From;
    Named(s, a, b, listing);
    OutReady(s, a, b, listing, cookie);
    RenameOut(s, a, b, listing, cookie);
    FromEvents(s, a, b, cookie);
    var s1 := Changed(s, Rename(a, b), listing);
    NoPartner(s, b, cookie);
    FromThen(s, s1, a, b, cookie, []);
    hide Linked;
    var z := ZapSubtree(s1, a).value;
    NothingMore(AfterGone(s.kernel, z, b));
    AfterGoneAt(s.kernel, z, b, z.kernel);
    assert [From(s, a, cookie)] + Gone(s.kernel, b) + [] == EventsOf(s, Rename(a, b), cookie);
    ResultIs(s, a, b, listing, cookie);
  }

  lemma ResultIs(s: State, a: Path, b: Path, listing: seq<Path>, cookie: int)
    requires a != [] && b != [] && AllWellFormed(EventsOf(s, Rename(a, b), cookie))
    ensures Result(s, a, b, listing, cookie)
         == HandleAll(Changed(s, Rename(a, b), listing), EventsOf(s, Rename(a, b), cookie))
  {
  }

  lemma NoPartner(s: State, b: Path, cookie: int)
    ensures OtherCookie(Gone(s.kernel, b) + [], cookie)
  {
  }

  /** The rename has taken the watches along; the handler has removed them. */
  lemma OutEvents(s: State, a: Path, b: Path, listing: seq<Path>, cookie: int, x: Step)
    requires Renaming(s, a, b, listing) && b != []
    requires Monitored(s, a) && !IsRoot(s, a) && !Monitored(s, Parent(b))
    requires Shaped(x) && Clear(x.change, b)
    ensures a != [] && AllWellFormed(EventsOf(s, Rename(a, b), cookie))
    ensures EventsOf(Changed(s, Rename(a, b), listing), x.change, x.cookie)
         == EventsOf(Result(s, a, b, listing, cookie), x.change, x.cookie)
  {
    hide Closed, RootsApart, Legal, Monitored, ZapSubtree, AfterGone, Result, EventsOf, Clear, Gone;
    OutAlone(s, a, b, listing, cookie);
    OutReady(s, a, b, listing, cookie);
    WatchesFollow(s, a, b, listing);
    var s1, t := Changed(s, Rename(a, b), listing), Result(s, a, b, listing, cookie);
    ZapAfterMove(s, s1, a, b);
    if b in s1.kernel.watch { assert Back(a, b, b) == a; }
    SameEvents(s1, t, x, b);
  }

  /** A directory is renamed out of the trees, from agreement; t is the state when that is handled by itself. */
  ghost predicate Leaves(s: State, a: Path, b: Path, listing: seq<Path>, cookie: int, t: State) {
    && Renaming(s, a, b, listing) && b != []
    && Monitored(s, a) && !IsRoot(s, a) && !Monitored(s, Parent(b))
    && a != [] && AllWellFormed(EventsOf(s, Rename(a, b), cookie)) && t == Result(s, a, b, listing, cookie)
  }

  lemma OutStream(s: State, a: Path, b: Path, listing: seq<Path>, cookie: int, x: Step, t: State)
    requires Leaves(s, a, b, listing, cookie, t) && Possible(t, x) && Clear(x.change, b) && x.cookie != cookie
    ensures var evs := EventsOf(s, Rename(a, b), cookie) + EventsOf(t, x.change, x.cookie);
      var k := Changed(Changed(s, Rename(a, b), listing), x.change, x.listing).kernel;
      AllWellFormed(evs) && HandleAll(s.(kernel := k), evs) == Handled(t, x)
  {
    var s1 := Changed(s, Rename(a, b), listing);
    OutAlone(s, a, b, listing, cookie);
    SameTree(s1, t, x);
    ZapStillWorks(s, a, b, listing, x);
    hide Closed, RootsApart, Covered, Legal, Monitored, ZapSubtree, AfterGone, Result, EventsOf, HandleAll, Gone, From;
    hide Clear, Changed;
    var z, k, more := ZapSubtree(s1, a).value, Changed(s1, x.change, x.listing).kernel, EventsOf(t, x.change, x.cookie);
    SameButKernel(s, Rename(a, b), listing);
    ZapQueued(s, s1, a, x);
    OnlyKernelMatters(t, z, x);
    CookiesDiffer(t, x, b, cookie);
    FromThen(s, s.(kernel := k), a, b, cookie, more);
    hide Linked;
    AfterGoneAt(s.kernel, z, b, Changed(z, x.change, x.listing).kernel);
  }

  lemma SameButKernel(s: State, c: Change, listing: seq<Path>)
    ensures Changed(s, c, listing) == s.(kernel := Changed(s, c, listing).kernel)
  {
  }

  /** A directory is renamed out of the trees, and another change is made before its event is read: a directory renamed
      into the trees, for one, whose event comes next in the stream but has another cookie. The outcome is that of
      handling each before the next. */
  lemma OutThen(s: State, a: Path, b: Path, listing: seq<Path>, cookie: int, x: Step, t: State)
    requires Leaves(s, a, b, listing, cookie, t) && Possible(t, x) && Clear(x.change, b) && x.cookie != cookie
    ensures Together(s, [Step(Rename(a, b), listing, cookie), x], Handled(t, x))
  {
    hide Closed, RootsApart, Covered, Linked, Legal, Monitored, Result, EventsOf, HandleAll, Clear, Changed;
    OutEvents(s, a, b, listing, cookie, x);
    OutStream(s, a, b, listing, cookie, x, t);
    BatchOfTwo(s, Step(Rename(a, b), listing, cookie), x);
  }

  /** A directory leaves the trees and another enters, both before an event is read: the agreement is kept. */
  lemma OutThenIn(s: State, a: Path, b: Path, listing: seq<Path>, cookie: int, x: Step, t: State) returns (u: State)
    requires Leaves(s, a, b, listing, cookie, t) && Possible(t, x) && x.change.Rename?
    requires Clear(x.change, b) && x.cookie != cookie
    requires !Monitored(t, x.change.src) && Monitored(t, Parent(x.change.dst)) && !Exists(t, x.change.dst)
    requires forall r :: IsRoot(t, r) ==> !(x.change.src <= r)
    ensures Together(s, [Step(Rename(a, b), listing, cookie), x], u) && Synced(u)
  {
    hide Synced, Legal, Monitored, Result, EventsOf, HandleAll, Together, Clear;
    OutThen(s, a, b, listing, cookie, x, t);
    OutAlone(s, a, b, listing, cookie);
    RenameIn(t, x.change.src, x.change.dst, x.listing, x.cookie);
    u := Handled(t, x);
    ResultIs(t, x.change.src, x.change.dst, x.listing, x.cookie);
  }
}
