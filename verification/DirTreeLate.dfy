/** What comes of a change when the read that should have paired its two rename events came too late. */
module DirTreeLate {
  import opened Options
  import opened DirTreePaths
  import opened DirTreeState
  import opened DirTreeSync
  import opened DirTreeRuns
  import opened DirTreeSteps
  import opened DirTreeRename
  import opened DirTreeMoves
  import opened DirTreeBreaks
  import opened DirTreeUnpaired
  import opened DirTreeTheorems

  /** A rename from one place below the roots to another: the only change with two events that may be parted. */
  ghost predicate Within(s: State, c: Change) {
    && c.Rename? && c.dst != []
    && Monitored(s, c.src) && !IsRoot(s, c.src) && Monitored(s, Parent(c.dst))
  }

  /** A rename within the trees onto a directory that exists. */
  ghost predicate Replaces(s: State, c: Change) {
    Within(s, c) && Exists(s, c.dst)
  }

  /** The change happens, and its events can lead to t. */
  ghost predicate LeadsTo(s: State, x: Step, t: State)
    requires Possible(s, x)
  {
    HandlesTo(Changed(s, x.change, x.listing), EventsOf(s, x.change, x.cookie), t)
  }

  // ---- streams ------------------------------------------------------------------------------

  ghost predicate NoneAwait(evs: seq<Event>) {
    forall i :: 0 <= i < |evs| ==> !Awaits(evs[i])
  }

  lemma NextAlone(s: State, evs: seq<Event>)
    requires evs != [] && WellFormed(evs[0]) && !Awaits(evs[0])
    ensures Next(s, evs[..1], false) == Next(s, evs, false)
  {
  }

  /** Where no event waits for another there is one outcome. */
  lemma {:induction false} OneOutcome(s: State, evs: seq<Event>, t: State)
    requires AllWellFormed(evs) && NoneAwait(evs)
    ensures HandlesTo(s, evs, t) <==> t == HandleAll(s, evs)
    decreases |evs|
  {
    if evs != [] && s.running {
      NextAlone(s, evs);
      hide Next;
      var r := Next(s, evs, false);
      if r.1.Events? { OneOutcome(r.0, evs[r.1.n..], t); }
    }
  }

  /** The outcome of the stream seen at once is always possible. */
  lemma {:induction false} AtOnce(s: State, evs: seq<Event>)
    requires AllWellFormed(evs)
    ensures HandlesTo(s, evs, HandleAll(s, evs))
    decreases |evs|
  {
    if evs != [] && s.running {
      hide Next;
      var r := Next(s, evs, false);
      if r.1.Events? { AtOnce(r.0, evs[r.1.n..]); }
    }
  }

  lemma {:induction false} FirstAwaits(s: State, e: Event, rest: seq<Event>, t: State)
    requires s.running && WellFormed(e) && AllWellFormed(rest) && Next(s, [e], false).1 == Events(1)
    ensures AllWellFormed([e] + rest)
    ensures HandlesTo(s, [e] + rest, t) <==>
            GoesOn(Next(s, [e] + rest, false), [e] + rest, t) || HandlesTo(Next(s, [e], false).0, rest, t)
  {
    hide Next;
    var evs := [e] + rest;
    assert evs[..1] == [e] && evs[1..] == rest && evs[0] == e;
  }

  // ---- a rename within the trees ------------------------------------------------------------

  lemma GoneAwaitsNothing(k: Kernel, b: Path)
    ensures NoneAwait(Gone(k, b))
  {
  }

  lemma ToAwaitsNothing(s: State, b: Path, cookie: int)
    requires b != [] && Parent(b) in s.kernel.watch
    ensures NoneAwait([To(s, b, cookie)] + Gone(s.kernel, b))
  {
  }

  /** Its two events are seen as a pair, or each by itself. */
  lemma WithinLeadsTo(s: State, a: Path, b: Path, listing: seq<Path>, cookie: int, t: State)
    requires Renaming(s, a, b, listing) && Within(s, Rename(a, b))
    ensures a != [] && Plain(Name(a)) && Plain(Name(b))
    ensures Parent(a) in s.kernel.watch && Parent(b) in s.kernel.watch
    ensures AllWellFormed(EventsOf(s, Rename(a, b), cookie))
    ensures HandlesTo(Changed(s, Rename(a, b), listing), EventsOf(s, Rename(a, b), cookie), t) <==>
            t == Result(s, a, b, listing, cookie) || t == Separately(s, a, b, listing, cookie)
  {
    WithinReady(s, a, b, listing);
    Zapped(s, a, b, listing);
    hide Closed, RootsApart, Covered, Legal, Monitored, ZapSubtree, Follows;
    WithinPaired(s, a, b, listing, cookie, t);
    WithinParted(s, a, b, listing, cookie, t);
    hide HandlesTo, GoesOn, HandleAll, Next, From, To, Gone, EventsOf, Rewrite, Separately, Result, Linked, Changed;
    var s1 := Changed(s, Rename(a, b), listing);
    var e, rest := From(s, a, cookie), [To(s, b, cookie)] + Gone(s.kernel, b);
    FirstAwaits(s1, e, rest, t);
  }

  lemma WithinPaired(s: State, a: Path, b: Path, listing: seq<Path>, cookie: int, t: State)
    requires Linked(s) && s.running && a != [] && b != [] && Plain(Name(a)) && Plain(Name(b)) && !(a <= b)
    requires Parent(a) in s.kernel.watch && Parent(b) in s.kernel.watch
    requires a in s.kernel.watch ==> !s.kernel.watch[a].moveSelf
    ensures AllWellFormed(EventsOf(s, Rename(a, b), cookie))
    ensures var s1 := Changed(s, Rename(a, b), listing);
      var evs := [From(s, a, cookie)] + ([To(s, b, cookie)] + Gone(s.kernel, b));
      && EventsOf(s, Rename(a, b), cookie) == evs && WellFormed(evs[0])
      && (GoesOn(Next(s1, evs, false), evs, t) <==> t == Result(s, a, b, listing, cookie))
  {
    EventsWellFormed(s, a, b, cookie);
    GoneWellFormed(s, b);
    PairEvents(s, a, b, cookie);
    GoneAwaitsNothing(s.kernel, b);
    hide Linked, HandleAll, HandlesTo, GoesOn, EventsOf, Gone, Next, Rewrite, From, To, NoneAwait;
    hide AllWellFormed, Changed;
    var s1, rest := Changed(s, Rename(a, b), listing), Gone(s.kernel, b);
    var e, e' := From(s, a, cookie), To(s, b, cookie);
    ViewKept(s, a, b, listing);
    NextPair(s, s1, a, b, cookie, rest);
    assert [e, e'] + rest == [e] + ([e'] + rest);
    PairGoesOn(s1, e, e', rest, Rewrite(s1, a, b), t);
  }

  lemma ViewKept(s: State, a: Path, b: Path, listing: seq<Path>)
    ensures var s1 := Changed(s, Rename(a, b), listing); s1.view == s.view && s1.running == s.running
  {
  }

  lemma PairGoesOn(s: State, e: Event, e': Event, rest: seq<Event>, u: State, t: State)
    requires s.running && WellFormed(e) && WellFormed(e') && AllWellFormed(rest) && NoneAwait(rest)
    requires Next(s, [e, e'] + rest, false) == (u, Events(2))
    ensures AllWellFormed([e, e'] + rest)
    ensures GoesOn(Next(s, [e, e'] + rest, false), [e, e'] + rest, t) <==> t == HandleAll(s, [e, e'] + rest)
  {
    hide Next, HandlesTo, HandleAll;
    HandlePair(s, e, e', rest);
    assert ([e, e'] + rest)[2..] == rest;
    OneOutcome(u, rest, t);
  }

  lemma NextFromAlone(s: State, s1: State, a: Path, cookie: int)
    requires Linked(s) && s1.view == s.view && a != [] && Plain(Name(a)) && Parent(a) in s.kernel.watch
    requires ZapSubtree(s1, a).Some?
    ensures WellFormed(From(s, a, cookie))
    ensures Next(s1, [From(s, a, cookie)], false) == (ZapSubtree(s1, a).value, Events(1))
  {
    hide ZapSubtree;
    var e := From(s, a, cookie);
    assert s.view[e.wd] + [e.name] == a;
  }

  lemma WithinParted(s: State, a: Path, b: Path, listing: seq<Path>, cookie: int, t: State)
    requires Linked(s) && s.running && a != [] && b != [] && Plain(Name(a)) && Plain(Name(b))
    requires Parent(a) in s.kernel.watch && Parent(b) in s.kernel.watch
    requires ZapSubtree(Changed(s, Rename(a, b), listing), a).Some?
    ensures var s1 := Changed(s, Rename(a, b), listing);
      var e, rest := From(s, a, cookie), [To(s, b, cookie)] + Gone(s.kernel, b);
      && WellFormed(e) && AllWellFormed(rest) && Next(s1, [e], false).1 == Events(1)
      && (HandlesTo(Next(s1, [e], false).0, rest, t) <==> t == Separately(s, a, b, listing, cookie))
  {
    GoneWellFormed(s, b);
    ToAwaitsNothing(s, b, cookie);
    FromAlone(s, a, b, listing, cookie);
    var s1, rest := Changed(s, Rename(a, b), listing), [To(s, b, cookie)] + Gone(s.kernel, b);
    NextFromAlone(s, s1, a, cookie);
    assert WellFormed(To(s, b, cookie));
    hide HandleAll, HandlesTo, Gone, To, ZapSubtree, Next;
    OneOutcome(ZapSubtree(s1, a).value, rest, t);
  }

  // ---- the other changes --------------------------------------------------------------------

  /** No root lies below a monitored directory. */
  lemma MonitoredRenaming(s: State, a: Path, b: Path, listing: seq<Path>)
    requires Synced(s) && Legal(s, Rename(a, b), listing) && Monitored(s, a)
    ensures Renaming(s, a, b, listing)
  {
    var r0 := RootOver(s, a);
    forall r | IsRoot(s, r) && a <= r
      ensures r == a
    {
      Transitive(r0, a, r);
    }
  }

  /** A rename out of the trees: the event that follows is no partner, so seeing it makes no difference. */
  lemma OutLeadsTo(s: State, a: Path, b: Path, listing: seq<Path>, cookie: int, t: State)
    requires Renaming(s, a, b, listing) && b != []
    requires Monitored(s, a) && !IsRoot(s, a) && !Monitored(s, Parent(b))
    ensures a != [] && AllWellFormed(EventsOf(s, Rename(a, b), cookie))
    ensures HandlesTo(Changed(s, Rename(a, b), listing), EventsOf(s, Rename(a, b), cookie), t) <==>
            t == Result(s, a, b, listing, cookie)
  {
    OutReady(s, a, b, listing, cookie);
    hide Closed, RootsApart, Covered, Legal, Monitored, ZapSubtree;
    var s1, e, rest := Changed(s, Rename(a, b), listing), From(s, a, cookie), Gone(s.kernel, b);
    GoneWellFormed(s, b);
    GoneAwaitsNothing(s.kernel, b);
    FromEvents(s, a, b, cookie);
    NextFrom(s, s1, a, b, cookie);
    NextFromAlone(s, s1, a, cookie);
    hide Linked, HandleAll, HandlesTo, EventsOf, Gone, Next, From, Changed;
    FirstAwaits(s1, e, rest, t);
    HandleOne(s1, e, rest);
    assert ([e] + rest)[1..] == rest;
    OneOutcome(ZapSubtree(s1, a).value, rest, t);
  }

  lemma OutReady(s: State, a: Path, b: Path, listing: seq<Path>, cookie: int)
    requires Renaming(s, a, b, listing) && b != []
    requires Monitored(s, a) && !IsRoot(s, a) && !Monitored(s, Parent(b))
    ensures a != [] && Plain(Name(a)) && AllWellFormed(EventsOf(s, Rename(a, b), cookie))
    ensures Parent(a) in s.kernel.watch && Parent(b) !in s.kernel.watch && !s.kernel.watch[a].moveSelf
    ensures ZapSubtree(Changed(s, Rename(a, b), listing), a).Some?
  {
    hide Closed, RootsApart, Linked, Legal, Monitored, ZapSubtree, Result, EventsOf, Outcome;
    Named(s, a, b, listing);
    WatchedParent(s, a);
    RenameOut(s, a, b, listing, cookie);
  }

  /** A rename that does not start in a watched directory: nothing waits. */
  lemma UntoldAwaitsNothing(s: State, a: Path, b: Path, cookie: int)
    requires a != [] && b != [] && Parent(a) !in s.kernel.watch
    ensures NoneAwait(EventsOf(s, Rename(a, b), cookie))
  {
  }

  lemma OthersAwaitNothing(s: State, x: Step)
    requires Possible(s, x) && !x.change.Rename?
    ensures NoneAwait(EventsOf(s, x.change, x.cookie))
  {
    hide Exists, ExistsAfter, HasPlace, Leaf;
  }

  /** For every other change there is one outcome. */
  lemma OneWay(s: State, x: Step, t: State)
    requires Synced(s) && Possible(s, x) && !Within(s, x.change)
    ensures LeadsTo(s, x, t) <==> t == Handled(s, x)
  {
    if x.change.Rename? {
      var a, b := x.change.src, x.change.dst;
      Named(s, a, b, x.listing);
      if Parent(a) in s.kernel.watch {
        WatchedFrom(s, a);
        hide Synced, Legal, Monitored, HandlesTo, HandleAll, EventsOf, Changed, Renaming;
        MonitoredRenaming(s, a, b, x.listing);
        OutLeadsTo(s, a, b, x.listing, x.cookie, t);
      } else {
        hide HandlesTo, HandleAll, EventsOf, NoneAwait;
        UntoldAwaitsNothing(s, a, b, x.cookie);
        OneOutcome(Changed(s, x.change, x.listing), EventsOf(s, x.change, x.cookie), t);
      }
    } else {
      hide HandlesTo, HandleAll, EventsOf, NoneAwait, Legal;
      OthersAwaitNothing(s, x);
      OneOutcome(Changed(s, x.change, x.listing), EventsOf(s, x.change, x.cookie), t);
    }
  }

  /** Below a watched directory there is no root. */
  lemma WatchedFrom(s: State, a: Path)
    requires RootsApart(s) && Covered(s) && a != [] && Parent(a) in s.kernel.watch
    ensures Monitored(s, a) && !IsRoot(s, a)
  {
    NoRootBelow(s, a);
  }

  // ---- every change -------------------------------------------------------------------------

  /** The pair handled as two events: nothing happens to the roots, and a replaced directory goes missing. */
  lemma SeparateOutcome(s: State, a: Path, b: Path, listing: seq<Path>, cookie: int)
    requires Renaming(s, a, b, listing) && Within(s, Rename(a, b))
    ensures a != [] && Plain(Name(a)) && Plain(Name(b))
    ensures Parent(a) in s.kernel.watch && Parent(b) in s.kernel.watch
    ensures var t := Separately(s, a, b, listing, cookie);
      && t.running && Outcome(s, t, Rename(a, b), listing)
      && (if Exists(s, b) then Missed(t, b) else Synced(t))
  {
    hide Closed, RootsApart, Linked, Covered, Legal, Monitored, Separately, Outcome, Missed;
    WithinReady(s, a, b, listing);
    if Exists(s, b) {
      SeparateLoses(s, a, b, listing, cookie);
      SeparateMisses(s, Separately(s, a, b, listing, cookie), a, b, listing);
    } else {
      SeparateSynced(s, a, b, listing, cookie);
      SeparateListing(s, a, b, listing, cookie);
    }
    RootsUnchanged(s, Separately(s, a, b, listing, cookie), Rename(a, b), listing);
  }

  lemma SeparateMisses(s: State, t: State, a: Path, b: Path, listing: seq<Path>)
    requires Renaming(s, a, b, listing) && b != [] && Monitored(s, Parent(b))
    requires t.roots == s.roots && t.kernel.listing == listing && b !in t.view.Values
    ensures Missed(t, b)
  {
    hide Closed, RootsApart, Linked, Covered, Legal, Monitored;
    NoRootBelow(s, b);
    SameRoots(s, t, b);
    TargetExists(s, a, b, listing);
  }

  /** However late the reads: the roots and the exit are those that the change calls for, and the agreement is kept
      exactly if the change is not disruptive; unless it is a rename onto a directory of the trees, which may also
      leave that directory out of the cache. */
  lemma LateKeepsSync(s: State, x: Step, t: State)
    requires Synced(s) && Possible(s, x) && LeadsTo(s, x, t)
    ensures Outcome(s, t, x.change, x.listing)
    ensures t.running && !Replaces(s, x.change) ==> AgreesIff(t, !Disruptive(s, x.change))
    ensures Replaces(s, x.change) ==> t.running && (AgreesIff(t, true) || Missed(t, x.change.dst))
  {
    if Within(s, x.change) {
      var a, b := x.change.src, x.change.dst;
      WithinHarmless(s, a, b, x.listing);
      hide Synced, Renaming, Legal, Within, Disruptive, Separately, Result, HandlesTo, EventsOf, Changed, Outcome;
      hide AgreesIff, Missed, MovedWithin;
      WithinLeadsTo(s, a, b, x.listing, x.cookie, t);
      RenameWithin(s, a, b, x.listing, x.cookie);
      SeparateOutcome(s, a, b, x.listing, x.cookie);
      if Synced(t) { Agreeing(t); }
    } else {
      hide Synced, Within, Disruptive, LeadsTo, Handled, Outcome, AgreesIff, Legal;
      OneWay(s, x, t);
      ChangeKeepsSync(s, x);
    }
  }

  lemma WithinHarmless(s: State, a: Path, b: Path, listing: seq<Path>)
    requires Synced(s) && Legal(s, Rename(a, b), listing) && Within(s, Rename(a, b))
    ensures Renaming(s, a, b, listing) && !Disruptive(s, Rename(a, b))
  {
    MonitoredRenaming(s, a, b, listing);
  }

  /** Every outcome of the change keeps the agreement if and only if the change is neither disruptive nor a rename
      onto a directory of the trees. */
  lemma LateSyncIff(s: State, x: Step)
    requires Synced(s) && Possible(s, x)
    ensures (forall t :: LeadsTo(s, x, t) && t.running ==> Synced(t))
       <==> !Disruptive(s, x.change) && !Replaces(s, x.change)
  {
    hide Synced, Disruptive, LeadsTo, Outcome, AgreesIff, Legal, Within, Handled, Missed;
    if Replaces(s, x.change) {
      var t := SomeOutcomeMisses(s, x);
    } else if Disruptive(s, x.change) {
      DisruptionShows(s, x);
      AlwaysPossible(s, x);
    } else {
      forall t | LeadsTo(s, x, t) && t.running ensures Synced(t) { LateAgrees(s, x, t); }
    }
  }

  lemma LateAgrees(s: State, x: Step, t: State)
    requires Synced(s) && Possible(s, x) && LeadsTo(s, x, t) && t.running
    requires !Disruptive(s, x.change) && !Replaces(s, x.change)
    ensures Synced(t) && Accurate(t)
  {
    hide Synced, Accurate, Disruptive, LeadsTo, Outcome, Legal, Replaces, Missed;
    LateKeepsSync(s, x, t);
  }

  lemma AlwaysPossible(s: State, x: Step)
    requires Possible(s, x)
    ensures LeadsTo(s, x, Handled(s, x))
  {
    AtOnce(Changed(s, x.change, x.listing), EventsOf(s, x.change, x.cookie));
  }

  lemma SomeOutcomeMisses(s: State, x: Step) returns (t: State)
    requires Synced(s) && Possible(s, x) && Replaces(s, x.change)
    ensures LeadsTo(s, x, t) && t.running && !Synced(t) && !Accurate(t)
  {
    var a, b := x.change.src, x.change.dst;
    WithinHarmless(s, a, b, x.listing);
    hide Synced, Accurate, Renaming, Legal, Within, Separately, Result, HandlesTo, EventsOf, Changed, Outcome, Missed;
    SeparateOutcome(s, a, b, x.listing, x.cookie);
    t := Separately(s, a, b, x.listing, x.cookie);
    WithinLeadsTo(s, a, b, x.listing, x.cookie, t);
    Inaccurate(t, b);
  }

  /** A run in which reads may come late. */
  ghost predicate LateRun(states: seq<State>, steps: seq<Step>) {
    && |states| == |steps| + 1
    && (forall i {:trigger steps[i]} :: 0 <= i < |steps| ==>
          states[i].running && Possible(states[i], steps[i]) && LeadsTo(states[i], steps[i], states[i + 1]))
  }

  /** Without disruptions and without renames onto directories of the trees, late reads do no harm in any run. */
  lemma LateRunKeepsSync(states: seq<State>, steps: seq<Step>)
    requires LateRun(states, steps) && Synced(states[0])
    requires forall i {:trigger steps[i]} :: 0 <= i < |steps| ==>
               !Disruptive(states[i], steps[i].change) && !Replaces(states[i], steps[i].change)
    ensures forall i :: 0 <= i < |states| ==> Kept(states[0], states[i], DroppedBy(steps, i))
    ensures forall i :: 0 < i < |states| ==> states[i].kernel.listing == steps[i - 1].listing
  {
    assert |states| == |steps| + 1;
    hide LateRun, Synced, Disruptive, Replaces, Kept, DroppedBy;
    forall i | 0 <= i < |states|
      ensures Kept(states[0], states[i], DroppedBy(steps, i))
      ensures i > 0 ==> states[i].kernel.listing == steps[i - 1].listing
    {
      LateKeptUpTo(states, steps, i);
    }
  }

  lemma {:induction false} LateKeptUpTo(states: seq<State>, steps: seq<Step>, n: nat)
    requires LateRun(states, steps) && Synced(states[0]) && n <= |steps|
    requires forall i {:trigger steps[i]} :: 0 <= i < |steps| ==>
               !Disruptive(states[i], steps[i].change) && !Replaces(states[i], steps[i].change)
    ensures Kept(states[0], states[n], DroppedBy(steps, n))
    ensures n > 0 ==> states[n].kernel.listing == steps[n - 1].listing
  {
    hide Synced, Disruptive, Replaces, LeadsTo, Possible, Kept, Dropped;
    if n == 0 {
      KeptFromStart(states[0]);
    } else {
      LateKeptUpTo(states, steps, n - 1);
      LateStepKeeps(states[0], states[n - 1], steps[n - 1], states[n], DroppedBy(steps, n - 1));
    }
  }

  lemma LateStepKeeps(s0: State, s: State, x: Step, t: State, gone: set<Path>)
    requires s.running && Kept(s0, s, gone) && Possible(s, x) && LeadsTo(s, x, t)
    requires !Disruptive(s, x.change) && !Replaces(s, x.change)
    ensures Kept(s0, t, gone + Dropped(x.change)) && t.kernel.listing == x.listing
  {
    hide Synced, Accurate, Disruptive, Replaces, LeadsTo, Legal, Without, ExitsWithLast, Possible;
    LateKeepsSync(s, x, t);
    StepRoots(s0, s, t, gone, x);
  }
}
