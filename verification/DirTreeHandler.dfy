/** What the handler does with one event, said in terms of the event's mask and cookie and of the cache. */
module DirTreeHandler {
  import opened Options
  import opened DirTreePaths
  import opened DirTreeState
  import opened DirTreeSync

  /** The cache was built anew for these roots: it is accurate, whatever it was before. */
  ghost predicate Rebuilt(s: State, t: State, roots: seq<Option<Path>>) {
    && t.roots == roots && t.running == s.running && t.kernel.listing == s.kernel.listing
    && Linked(t) && Covered(t) && Accurate(t)
  }

  /** Only the cached paths have changed. */
  ghost predicate SameButView(s: State, t: State) {
    t == s.(view := t.view)
  }

  ghost predicate LessOne(s: State, t: State, wd: int) {
    && SameButView(s, t)
    && (forall w :: w in t.view <==> w in s.view && w != wd)
    && (forall w :: w in t.view ==> t.view[w] == s.view[w])
  }

  /** The entries at or below the directory are gone, and their watches; every other entry and watch is as it was. */
  ghost predicate LessBelow(s: State, t: State, dir: Path) {
    && t.roots == s.roots && t.running == s.running
    && t.kernel == s.kernel.(watch := t.kernel.watch)
    && (forall w :: w in t.view <==> w in s.view && !(dir <= s.view[w]))
    && (forall w :: w in t.view ==> t.view[w] == s.view[w])
    && (forall p :: p in t.kernel.watch <==>
          p in s.kernel.watch && !(s.kernel.watch[p].wd in s.view && dir <= s.view[s.kernel.watch[p].wd]))
    && (forall p :: p in t.kernel.watch ==> t.kernel.watch[p] == s.kernel.watch[p])
  }

  /** The kernel knows the descriptor of every entry at or below the directory. */
  ghost predicate AllKnown(s: State, dir: Path) {
    forall w :: w in s.view && dir <= s.view[w] ==> exists p :: p in s.kernel.watch && s.kernel.watch[p].wd == w
  }

  /** inotify_rm_watch succeeds for all of the subtree, or the cache is rebuilt and the rest of the events dropped. */
  ghost predicate Cleared(s: State, t: State, dir: Path, taken: Taken) {
    if AllKnown(s, dir) then taken == Events(1) && LessBelow(s, t, dir)
    else taken == Everything && Rebuilt(s, t, s.roots)
  }

  /** The source path of every entry at or below it is replaced; no other path and no descriptor changes. */
  ghost predicate Renamed(s: State, t: State, src: Path, dst: Path) {
    && SameButView(s, t)
    && (forall w :: w in t.view <==> w in s.view)
    && (forall w :: w in t.view ==>
          t.view[w] == if src <= s.view[w] then dst + s.view[w][|src|..] else s.view[w])
  }

  ghost predicate OnMovedFromMeans(s: State, evs: seq<Event>, firstTry: bool, t: State, taken: Taken)
    requires evs != [] && evs[0].wd in s.view
  {
    var src := s.view[evs[0].wd] + [evs[0].name];
    if |evs| == 1 && firstTry then t == s && taken == Hanging
    else if |evs| > 1 && MovedTo in evs[1].mask && evs[1].cookie == evs[0].cookie then
      if evs[1].wd in s.view
      then taken == Events(2) && Renamed(s, t, src, s.view[evs[1].wd] + [evs[1].name])
      else taken == Everything && Rebuilt(s, t, s.roots)
    else Cleared(s, t, src, taken)
  }

  ghost predicate OnNewDirectoryMeans(s: State, e: Event, t: State)
    requires e.wd in s.view
  {
    var full := s.view[e.wd] + [e.name];
    if exists w :: w in s.view && s.view[w] == full then t == s
    else
      && t.roots == s.roots && t.running == s.running && t.kernel.listing == s.kernel.listing
      && (forall w :: w in s.view ==> w in t.view && t.view[w] == s.view[w])
      && (forall p :: p in s.kernel.listing && full <= p ==> p in t.kernel.watch && t.kernel.watch[p].wd in t.view)
      && (Linked(s) ==> Linked(t) && Watched(s, t, Chosen(full, s.kernel.listing)))
  }

  /** One occurrence of the root path is struck out. */
  ghost predicate StruckOut(roots: seq<Option<Path>>, roots': seq<Option<Path>>, p: Path) {
    exists i :: 0 <= i < |roots| && roots[i] == Some(p) && roots' == roots[i := None]
  }

  ghost predicate OnDeleteSelfMeans(s: State, e: Event, t: State)
    requires e.wd in s.view
  {
    var p := s.view[e.wd];
    if Some(p) !in s.roots then LessOne(s, t, e.wd)
    else
      && StruckOut(s.roots, t.roots, p)
      && if forall i :: 0 <= i < |t.roots| ==> t.roots[i].None?
         then !t.running else LessOne(s.(roots := t.roots), t, e.wd)
  }

  ghost predicate OnRootMovedMeans(s: State, p: Path, t: State, taken: Taken) {
    && StruckOut(s.roots, t.roots, p)
    && if forall i :: 0 <= i < |t.roots| ==> t.roots[i].None?
       then !t.running && taken == Events(1)
       else Cleared(s.(roots := t.roots), t, p, taken)
  }

  /** The handler, by the mask of the first event. */
  ghost predicate NextMeans(s: State, evs: seq<Event>, firstTry: bool, t: State, taken: Taken)
    requires evs != [] && WellFormed(evs[0])
  {
    var e := evs[0];
    if e.wd !in s.view && e.wd != -1 && Ignored !in e.mask then taken == Everything && Rebuilt(s, t, s.roots)
    else if {IsDir, Create} <= e.mask || {IsDir, MovedTo} <= e.mask then
      taken == Events(1) && OnNewDirectoryMeans(s, e, t)
    else if DeleteSelf in e.mask then taken == Events(1) && OnDeleteSelfMeans(s, e, t)
    else if {IsDir, MovedFrom} <= e.mask then OnMovedFromMeans(s, evs, firstTry, t, taken)
    else if QOverflow in e.mask then taken == Everything && Rebuilt(s, t, s.roots)
    else if Unmount in e.mask then taken == Events(1) && LessOne(s, t, e.wd)
    else if MoveSelf in e.mask && Some(s.view[e.wd]) in s.roots then OnRootMovedMeans(s, s.view[e.wd], t, taken)
    else taken == Events(1) && t == s
  }

  // ---- the handler does that ----------------------------------------------------------------

  lemma Rebuilds(s: State, roots: seq<Option<Path>>)
    ensures Rebuilt(s, Reinitialize(s.(roots := roots)), roots)
  {
    hide Reinitialize, Linked, Covered, Accurate;
    ReinitializeSyncs(s.(roots := roots));
  }

  lemma Clears(s: State, dir: Path)
    requires s.running
    ensures var r := OrRebuild(s, ZapSubtree(s, dir)); Cleared(s, r.0, dir, r.1)
  {
    hide Reinitialize, Rebuilt;
    Rebuilds(s, s.roots);
    assert s.(roots := s.roots) == s;
    KnownMeans(s, dir);
  }

  lemma KnownMeans(s: State, dir: Path)
    ensures AllKnown(s, dir) <==> Below(s.view, dir) <= KernelWds(s.kernel)
  {
    if AllKnown(s, dir) {
      forall w | w in Below(s.view, dir)
        ensures w in KernelWds(s.kernel)
      {
        var p :| p in s.kernel.watch && s.kernel.watch[p].wd == w;
      }
    }
    if Below(s.view, dir) <= KernelWds(s.kernel) {
      forall w | w in s.view && dir <= s.view[w]
        ensures exists p :: p in s.kernel.watch && s.kernel.watch[p].wd == w
      {
        assert w in KernelWds(s.kernel);
      }
    }
  }

  lemma MovedFromMeans(s: State, evs: seq<Event>, firstTry: bool)
    requires s.running && evs != [] && evs[0].wd in s.view
    ensures var r := OnMovedFrom(s, evs, firstTry); OnMovedFromMeans(s, evs, firstTry, r.0, r.1)
  {
    hide Reinitialize, Rebuilt, Cleared, OrRebuild, ZapSubtree;
    Rebuilds(s, s.roots);
    assert s.(roots := s.roots) == s;
    Clears(s, s.view[evs[0].wd] + [evs[0].name]);
  }

  lemma {:induction false} WatchListFinds(s: State, dir: Path, todo: seq<Path>)
    ensures var t := WatchList(s, dir, todo);
      && t.roots == s.roots && t.running == s.running && t.kernel.listing == s.kernel.listing
      && (forall w :: w in s.view ==> w in t.view && t.view[w] == s.view[w])
      && (forall p :: p in s.kernel.watch ==> p in t.kernel.watch && t.kernel.watch[p].wd == s.kernel.watch[p].wd)
      && (forall p :: p in todo && dir <= p ==> p in t.kernel.watch && t.kernel.watch[p].wd in t.view)
    decreases |todo|
  {
    if todo != [] {
      assert todo == [todo[0]] + todo[1..];
      WatchListFinds(if dir <= todo[0] then TraverseTree(s, todo[0]) else s, dir, todo[1..]);
    }
  }

  lemma NewDirectoryMeans(s: State, e: Event)
    requires e.wd in s.view
    ensures OnNewDirectoryMeans(s, e, OnNewDirectory(s, e))
  {
    hide Linked, Watched, WatchList;
    var full := s.view[e.wd] + [e.name];
    if full in s.view.Values { var w := KeyOf(s.view, full); }
    WatchListFinds(s, full, s.kernel.listing);
    if Linked(s) { WatchListAdds(s, full, s.kernel.listing); }
  }

  lemma DeleteSelfMeans(s: State, e: Event)
    requires s.running && e.wd in s.view
    ensures OnDeleteSelfMeans(s, e, OnDeleteSelf(s, e))
  {
    var p := s.view[e.wd];
    if IsRoot(s, p) {
      var t := OnDeleteSelf(s, e);
      assert t.roots == s.roots[IndexOf(s.roots, p) := None];
    }
  }

  lemma RootMovedMeans(s: State, p: Path)
    requires s.running && IsRoot(s, p)
    ensures var r := OnRootMoved(s, p); OnRootMovedMeans(s, p, r.0, r.1)
  {
    hide Rebuilt, Cleared, OrRebuild, ZapSubtree;
    var z := ZapRoot(s, p);
    assert z.roots == s.roots[IndexOf(s.roots, p) := None];
    if z.running {
      assert z == s.(roots := z.roots);
      Clears(z, p);
      ClearedRoots(z, p);
    }
  }

  lemma ClearedRoots(s: State, dir: Path)
    ensures OrRebuild(s, ZapSubtree(s, dir)).0.roots == s.roots
  {
    hide Linked, Covered, Accurate, Reinitialize;
    ReinitializeSyncs(s);
  }

  /** Every call of the handler, for any cache, any events and either try. */
  lemma HandlerMeans(s: State, evs: seq<Event>, firstTry: bool)
    requires s.running && evs != [] && WellFormed(evs[0])
    ensures var r := Next(s, evs, firstTry); NextMeans(s, evs, firstTry, r.0, r.1)
  {
    hide Reinitialize, Rebuilt, OnMovedFrom, OnMovedFromMeans, OnNewDirectory, OnNewDirectoryMeans;
    hide OnDeleteSelf, OnDeleteSelfMeans, OnRootMoved, OnRootMovedMeans;
    var e := evs[0];
    Rebuilds(s, s.roots);
    assert s.(roots := s.roots) == s;
    if e.wd in s.view {
      MovedFromMeans(s, evs, firstTry);
      NewDirectoryMeans(s, e);
      DeleteSelfMeans(s, e);
      if IsRoot(s, s.view[e.wd]) { RootMovedMeans(s, s.view[e.wd]); }
    }
  }
}
