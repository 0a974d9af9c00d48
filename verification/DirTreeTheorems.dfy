/** The agreement of the directory cache over whole runs. */
module DirTreeTheorems {
  import opened Options
  import opened DirTreePaths
  import opened DirTreeState
  import opened DirTreeSync
  import opened DirTreeRuns
  import opened DirTreeSteps
  import opened DirTreeRename
  import opened DirTreeMoves
  import opened DirTreeBreaks

  /** A change, the order in which a walk meets the directories afterwards, and the cookie of a rename. */
  datatype Step = Step(change: Change, listing: seq<Path>, cookie: int)

  ghost predicate Possible(s: State, x: Step) {
    && Legal(s, x.change, x.listing)
    && (x.change.Mkdir? ==> x.change.dir != [])
    && (x.change.Rename? ==> x.change.src != [] && x.change.dst != [])
    && AllWellFormed(EventsOf(s, x.change, x.cookie))
  }

  /** The change happens and all its events are handled. */
  ghost function Handled(s: State, x: Step): State
    requires Possible(s, x)
  {
    HandleAll(Changed(s, x.change, x.listing), EventsOf(s, x.change, x.cookie))
  }

  /** Which events a change queues, and what it does to the kernel, depends on the kernel only. */
  lemma OnlyKernelMatters(s: State, t: State, x: Step)
    requires s.kernel == t.kernel
    requires (x.change.Mkdir? ==> x.change.dir != []) && (x.change.Rename? ==> x.change.src != [] && x.change.dst != [])
    ensures EventsOf(s, x.change, x.cookie) == EventsOf(t, x.change, x.cookie)
    ensures Changed(s, x.change, x.listing) == s.(kernel := Changed(t, x.change, x.listing).kernel)
  {
  }

  /** The agreement is back, in both of its forms, or lost, in both. */
  ghost predicate AgreesIff(t: State, agrees: bool) {
    (Synced(t) <==> agrees) && (Accurate(t) <==> agrees)
  }

  lemma Agreeing(t: State)
    requires Synced(t)
    ensures AgreesIff(t, true)
  {
    SyncedIsAccurate(t);
  }

  lemma Disagreeing(t: State, p: Path)
    requires Stale(t, p) || Missed(t, p)
    ensures AgreesIff(t, false)
  {
    Inaccurate(t, p);
  }

  lemma RenameBreaks(s: State, a: Path, b: Path, listing: seq<Path>, cookie: int)
    requires Synced(s) && Legal(s, Rename(a, b), listing) && Disruptive(s, Rename(a, b))
    ensures a != [] && b != [] && AllWellFormed(EventsOf(s, Rename(a, b), cookie))
    ensures var t := Result(s, a, b, listing, cookie);
      t.running && Outcome(s, t, Rename(a, b), listing) && AgreesIff(t, false)
  {
    Named(s, a, b, listing);
    hide Synced, Legal, Result, Monitored, EventsOf, Outcome, AgreesIff, Stale, Missed;
    if r :| IsRoot(s, r) && a <= r && a != r {
      AboveRootBreaks(s, a, b, listing, cookie, r);
      Disagreeing(Result(s, a, b, listing, cookie), r);
    } else {
      if IsRoot(s, a) {
        RootIntoTreeBreaks(s, a, b, listing, cookie);
      } else {
        OntoBreaks(s, a, b, listing, cookie);
      }
      Disagreeing(Result(s, a, b, listing, cookie), b);
    }
  }

  lemma RenameSyncs(s: State, a: Path, b: Path, listing: seq<Path>, cookie: int)
    requires Renaming(s, a, b, listing) && b != [] && !Disruptive(s, Rename(a, b))
    ensures a != [] && AllWellFormed(EventsOf(s, Rename(a, b), cookie))
    ensures var t := Result(s, a, b, listing, cookie);
      Outcome(s, t, Rename(a, b), listing) && (t.running ==> Synced(t))
  {
    hide Renaming, Synced, Result, Monitored, EventsOf, Outcome, ZapSubtree, MovedWithin;
    if Monitored(s, Parent(b)) {
      if Monitored(s, a) {
        RenameWithin(s, a, b, listing, cookie);
      } else {
        RenameIn(s, a, b, listing, cookie);
      }
    } else if IsRoot(s, a) {
      RenameRootOut(s, a, b, listing, cookie);
    } else if Monitored(s, a) {
      RenameOut(s, a, b, listing, cookie);
    } else {
      RenameOutside(s, a, b, listing, cookie);
    }
  }

  lemma RenameKeepsSync(s: State, a: Path, b: Path, listing: seq<Path>, cookie: int)
    requires Synced(s) && Legal(s, Rename(a, b), listing)
    ensures a != [] && b != [] && AllWellFormed(EventsOf(s, Rename(a, b), cookie))
    ensures var t, d := Result(s, a, b, listing, cookie), Disruptive(s, Rename(a, b));
      && Outcome(s, t, Rename(a, b), listing)
      && (t.running ==> AgreesIff(t, !d)) && (d ==> t.running)
  {
    Named(s, a, b, listing);
    if Disruptive(s, Rename(a, b)) {
      hide Synced, Legal, Disruptive, Result, EventsOf, Outcome, AgreesIff;
      RenameBreaks(s, a, b, listing, cookie);
    } else {
      hide Synced, Legal, Result, EventsOf, Outcome, AgreesIff;
      RenameSyncs(s, a, b, listing, cookie);
      var t := Result(s, a, b, listing, cookie);
      if t.running { Agreeing(t); }
    }
  }

  /** Every possible change, handled before the next one, keeps the agreement exactly when it is not disruptive;
      a disruptive change never ends the program, which would hide the damage. In both cases the live roots are
      those that the change did not take, and only the loss of the last one ends the program. */
  lemma ChangeKeepsSync(s: State, x: Step)
    requires Synced(s) && Legal(s, x.change, x.listing)
    ensures Possible(s, x)
    ensures Outcome(s, Handled(s, x), x.change, x.listing)
    ensures Handled(s, x).running ==> AgreesIff(Handled(s, x), !Disruptive(s, x.change))
    ensures Disruptive(s, x.change) ==> Handled(s, x).running
  {
    hide Synced, HandleAll, Changed, Outcome, AgreesIff;
    match x.change {
      case Mkdir(d) => MkdirSyncs(s, d, x.listing);
      case Rmdir(d) => RmdirSyncs(s, d, x.listing);
      case Rename(a, b) => RenameKeepsSync(s, a, b, x.listing, x.cookie);
      case File(_, _, _) => FileSyncs(s, x.change, x.listing, x.cookie);
    }
    if Synced(Handled(s, x)) { Agreeing(Handled(s, x)); }
  }

  /** A run: each change is legal where it happens and is handled before the next; only the last state may
      be one in which the program has exited. */
  ghost predicate Run(states: seq<State>, steps: seq<Step>) {
    && |states| == |steps| + 1
    && (forall i :: 0 <= i < |steps| ==>
          states[i].running && Possible(states[i], steps[i]) && states[i + 1] == Handled(states[i], steps[i]))
  }

  /** The paths taken away by the first n changes. */
  ghost function DroppedBy(steps: seq<Step>, n: nat): set<Path>
    requires n <= |steps|
  {
    if n == 0 then {} else DroppedBy(steps, n - 1) + Dropped(steps[n - 1].change)
  }

  /** Later in a run that began in s0, after the paths in gone were taken away: if the program still runs it agrees
      with the tree, about the roots of the start that are not gone; it has exited exactly if none of them is left. */
  ghost predicate Kept(s0: State, s: State, gone: set<Path>) {
    && (s.running ==> Synced(s) && Accurate(s))
    && s.roots == Without(s0.roots, gone)
    && ExitsWithLast(s0, s)
  }

  /** Agreement at every moment of a run without disruptive changes, about the roots that were given at its start
      and were not removed or renamed since. */
  lemma {:induction false} RunKeepsSync(states: seq<State>, steps: seq<Step>)
    requires Run(states, steps) && Synced(states[0])
    requires forall i :: 0 <= i < |steps| ==> !Disruptive(states[i], steps[i].change)
    ensures forall i :: 0 <= i < |states| ==> Kept(states[0], states[i], DroppedBy(steps, i))
    ensures forall i :: 0 < i < |states| ==> states[i].kernel.listing == steps[i - 1].listing
  {
    hide Synced, Disruptive, Handled, Possible, Kept;
    KeptFromStart(states[0]);
    var n := 0;
    while n < |steps|
      invariant 0 <= n <= |steps|
      invariant forall i :: 0 <= i <= n ==> Kept(states[0], states[i], DroppedBy(steps, i))
      invariant forall i :: 0 < i <= n ==> states[i].kernel.listing == steps[i - 1].listing
    {
      StepKeeps(states[0], states[n], steps[n], DroppedBy(steps, n));
      n := n + 1;
    }
  }

  lemma KeptFromStart(s: State)
    requires Synced(s)
    ensures Kept(s, s, {})
  {
    SyncedIsAccurate(s);
    if r :| IsRoot(s, r) { var i :| 0 <= i < |s.roots| && s.roots[i] == Some(r); }
  }

  lemma StepKeeps(s0: State, s: State, x: Step, gone: set<Path>)
    requires s.running && Kept(s0, s, gone) && Possible(s, x) && !Disruptive(s, x.change)
    ensures Kept(s0, Handled(s, x), gone + Dropped(x.change)) && Handled(s, x).kernel.listing == x.listing
  {
    hide Synced, Accurate, Disruptive, HandleAll, Handled, Legal, Without, ExitsWithLast;
    ChangeKeepsSync(s, x);
    StepRoots(s0, s, Handled(s, x), gone, x);
  }

  lemma StepRoots(s0: State, s: State, t: State, gone: set<Path>, x: Step)
    requires s.roots == Without(s0.roots, gone) && s.running && ExitsWithLast(s0, s)
    requires Outcome(s, t, x.change, x.listing)
    ensures t.roots == Without(s0.roots, gone + Dropped(x.change)) && ExitsWithLast(s0, t)
  {
    RootsWithout(s0, s, gone);
    if r0 :| IsRoot(s0, r0) {
      var i :| 0 <= i < |s.roots| && s.roots[i].Some?;
      assert IsRoot(s, s.roots[i].value);
    }
  }

  lemma StepSyncs(s: State, x: Step)
    requires Synced(s) && Possible(s, x)
    ensures Handled(s, x).running ==> (Synced(Handled(s, x)) <==> !Disruptive(s, x.change))
    ensures Outcome(s, Handled(s, x), x.change, x.listing)
  {
    hide Synced, HandleAll, Handled, Disruptive, Legal, Outcome;
    ChangeKeepsSync(s, x);
  }

  /** The agreement holds throughout a run exactly when no change of the run is disruptive; and so does the
      correctness of the cache, which the first disruption already destroys. Up to and including that disruption,
      every change has its proper outcome for the roots and the program. */
  lemma RunInSyncIff(states: seq<State>, steps: seq<Step>)
    requires Run(states, steps) && Synced(states[0])
    ensures (forall i :: 0 <= i < |states| && states[i].running ==> Synced(states[i]))
       <==> (forall i :: 0 <= i < |steps| ==> !Disruptive(states[i], steps[i].change))
    ensures (forall i :: 0 <= i < |states| && states[i].running ==> Accurate(states[i]))
       <==> (forall i :: 0 <= i < |steps| ==> !Disruptive(states[i], steps[i].change))
    ensures forall n :: 0 <= n < |steps| && Undisturbed(states, steps, n) ==>
              Outcome(states[n], states[n + 1], steps[n].change, steps[n].listing)
  {
    hide Synced, Accurate, Disruptive, Handled, Possible, ExitsWithLast, Without, Outcome, DroppedBy;
    forall n | 0 <= n < |steps| && Undisturbed(states, steps, n)
      ensures Outcome(states[n], states[n + 1], steps[n].change, steps[n].listing)
    {
      RunKeepsSync(states[..n + 1], steps[..n]);
      assert states[..n + 1][n] == states[n];
      StepSyncs(states[n], steps[n]);
    }
    if forall i :: 0 <= i < |steps| ==> !Disruptive(states[i], steps[i].change) {
      RunKeepsSync(states, steps);
    } else {
      var n := FirstDisruption(states, steps);
      var states', steps' := states[..n + 1], steps[..n];
      RunKeepsSync(states', steps');
      assert states'[n] == states[n] && states[n].running;
      DisruptionShows(states[n], steps[n]);
      assert states[n + 1].running && !Synced(states[n + 1]) && !Accurate(states[n + 1]);
    }
  }

  ghost predicate Undisturbed(states: seq<State>, steps: seq<Step>, n: nat)
    requires n <= |steps| <= |states|
  {
    forall i :: 0 <= i < n ==> !Disruptive(states[i], steps[i].change)
  }

  lemma FirstDisruption(states: seq<State>, steps: seq<Step>) returns (n: nat)
    requires |states| == |steps| + 1 && exists i :: 0 <= i < |steps| && Disruptive(states[i], steps[i].change)
    ensures n < |steps| && Disruptive(states[n], steps[n].change)
    ensures forall i :: 0 <= i < n ==> !Disruptive(states[i], steps[i].change)
  {
    hide Disruptive;
    n := 0;
    while n < |steps| && !Disruptive(states[n], steps[n].change)
      invariant 0 <= n <= |steps|
      invariant forall i :: 0 <= i < n ==> !Disruptive(states[i], steps[i].change)
    {
      n := n + 1;
    }
  }

  lemma DisruptionShows(s: State, x: Step)
    requires Synced(s) && Possible(s, x) && Disruptive(s, x.change)
    ensures Handled(s, x).running && !Synced(Handled(s, x)) && !Accurate(Handled(s, x))
  {
    hide Synced, Accurate, Disruptive, HandleAll, Handled, Legal, Outcome;
    ChangeKeepsSync(s, x);
  }

  /** The first build from the command line, and every later rebuild, brings the agreement about. */
  lemma RebuildSyncs(s: State)
    requires s.running && Closed(s) && RootsApart(s)
    ensures Synced(Reinitialize(s))
  {
    hide Linked, Covered, Accurate, Reinitialize;
    ReinitializeSyncs(s);
    var t := Reinitialize(s);
    NothingRemoved(s, {});
    RootsStayApart(s, t, {});
    assert forall p :: Exists(t, p) <==> Exists(s, p);
  }

  /** The events that removed watches leave at the end of the stream have no effect. */
  lemma {:induction false} IgnoredTail(s: State, evs: seq<Event>, tail: seq<Event>)
    requires AllWellFormed(evs) && AllWellFormed(tail)
    requires forall i :: 0 <= i < |tail| ==> tail[i].mask == {Ignored}
    ensures AllWellFormed(evs + tail)
    ensures HandleAll(s, evs + tail) == HandleAll(s, evs)
    decreases |evs|, |tail|
  {
    if s.running && evs == [] && tail != [] {
      assert evs + tail == [tail[0]] + tail[1..];
      HandleOne(s, tail[0], tail[1..]);
      IgnoredTail(s, [], tail[1..]);
      assert [] + tail[1..] == tail[1..];
    } else if s.running && evs != [] {
      hide WatchSubtree, Reinitialize, ZapSubtree, ZapRoot;
      assert Next(s, evs + tail, false) == Next(s, evs, false);
      var r := Next(s, evs, false);
      if r.1.Events? {
        assert (evs + tail)[r.1.n..] == evs[r.1.n..] + tail;
        IgnoredTail(r.0, evs[r.1.n..], tail);
      }
    } else {
      assert evs == [] && tail == [] ==> evs + tail == evs;
    }
  }
}
