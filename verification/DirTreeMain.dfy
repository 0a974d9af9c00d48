/** The program as a whole: a change of the tree, its events read in any pieces, the cache afterwards. */
module DirTreeMain {
  import opened DirTreePaths
  import opened DirTreeState
  import opened DirTreeSync
  import opened DirTreeRuns
  import opened DirTreeRename
  import opened DirTreeBreaks
  import opened DirTreeTheorems
  import opened DirTreeLate
  import opened DirTreeSlots
  import opened DirTreeLoop
  import opened DirTreeMonitor

  lemma PlaceIsPath(s: State, p: Path)
    requires Closed(s) && HasPlace(s, p)
    ensures Components(p)
  {
  }

  lemma ListingIsPaths(s: State, x: Step)
    requires Closed(s) && Possible(s, x)
    ensures forall i :: 0 <= i < |x.listing| ==> Components(x.listing[i])
  {
    forall i | 0 <= i < |x.listing|
      ensures Components(x.listing[i])
    {
      var q := x.listing[i];
      assert q in x.listing;
      match x.change {
        case Mkdir(d) => if q == d { PlaceIsPath(s, d); }
        case Rmdir(_) =>
        case File(_, _, _) =>
        case Rename(a, b) => if b <= q { PlaceIsPath(s, b); ComponentsOfMoved(a, b, q); }
      }
    }
  }

  lemma ChangedIsValid(s: State, x: Step)
    requires Synced(s) && Possible(s, x)
    ensures ValidKernel(Changed(s, x.change, x.listing).kernel)
  {
    hide RootsApart, Covered, Legal, ExistsAfter, Components;
    ListingIsPaths(s, x);
  }

  /** The kernel makes the change and queues its events; the program reads and handles them all. When prompt does not
      hold, a second read may come too late to fetch the second event of a rename. */
  method ChangeAndHandle(m: Monitor, x: Step, cnt: int, prompt: bool)
    requires m.Valid() && m.running && m.pending == [] && Synced(m.Abs())
    requires Possible(m.Abs(), x) && Fits(EventsOf(m.Abs(), x.change, x.cookie))
    requires EVENT_HEADER + NAME_MAX + 1 <= cnt <= READ_BUF_LEN
    modifies m
    ensures m.Valid() && LeadsTo(old(m.Abs()), x, m.Abs()) && (prompt ==> m.Abs() == Handled(old(m.Abs()), x))
    ensures Outcome(old(m.Abs()), m.Abs(), x.change, x.listing)
    ensures m.running && (prompt || !Replaces(old(m.Abs()), x.change)) ==>
              AgreesIff(m.Abs(), !Disruptive(old(m.Abs()), x.change))
    ensures Replaces(old(m.Abs()), x.change) ==> AgreesIff(m.Abs(), true) || Missed(m.Abs(), x.change.dst)
  {
    hide Synced, Disruptive, HandleAll, HandlesTo, Fits, ValidKernel, Legal, AllWellFormed, EventsOf, Changed, Outcome;
    hide AgreesIff, Replaces, Missed, View, RootPaths, Zapped, ValidSlots;
    ghost var s := m.Abs();
    ChangeKeepsSync(s, x);
    ChangedIsValid(s, x);
    var plain := State(map[], [], m.kernel, true);
    OnlyKernelMatters(s, plain, x);
    m.pending := EventsOf(plain, x.change, x.cookie);
    m.kernel := Changed(plain, x.change, x.listing).kernel;
    m.DrainQueue(cnt, prompt);
    LateKeepsSync(s, x, m.Abs());
  }
}
