/** Agreement between the cache, the kernel's watches and the directory tree, and what keeps it. */
module DirTreeSync {
  import opened Options
  import opened DirTreePaths
  import opened DirTreeState

  ghost predicate Exists(s: State, p: Path) {
    p in s.kernel.listing
  }

  /** The cache and the kernel's watches are inverse to each other. */
  ghost predicate Linked(s: State) {
    && 1 <= s.kernel.next
    && (forall p :: p in s.kernel.watch ==>
          s.kernel.watch[p].wd in s.view && s.view[s.kernel.watch[p].wd] == p)
    && (forall wd :: wd in s.view ==>
          1 <= wd < s.kernel.next && s.view[wd] in s.kernel.watch && s.kernel.watch[s.view[wd]].wd == wd)
  }

  ghost predicate Above(q: Path, p: Path) {
    q != [] && q <= p
  }

  /** The directories form trees: what lies above an existing directory exists. */
  ghost predicate Closed(s: State) {
    && (forall p :: Exists(s, p) ==> Components(p))
    && (forall p, q :: Above(q, p) && Exists(s, p) ==> Exists(s, q))
  }

  /** The live roots exist, are listed once, and none lies in the tree of another. */
  ghost predicate RootsApart(s: State) {
    && (forall r :: IsRoot(s, r) ==> Exists(s, r))
    && (forall r, r' :: IsRoot(s, r) && IsRoot(s, r') && r <= r' ==> r == r')
    && (forall i, j :: 0 <= i < j < |s.roots| && s.roots[i].Some? ==> s.roots[i] != s.roots[j])
  }

  lemma RootExists(s: State, r: Path)
    requires RootsApart(s) && IsRoot(s, r)
    ensures Exists(s, r)
  {
  }

  /** Exactly the monitored directories are watched, the roots also for their own move. */
  ghost predicate Covered(s: State) {
    && (forall p :: p in s.kernel.watch <==> Exists(s, p) && Monitored(s, p))
    && (forall p :: p in s.kernel.watch ==> (s.kernel.watch[p].moveSelf <==> IsRoot(s, p)))
  }

  ghost predicate Synced(s: State) {
    s.running && Closed(s) && RootsApart(s) && Linked(s) && Covered(s)
  }

  /** The statement for a reader: one descriptor for each directory under a live root, no other entry,
      and the descriptor is the one under which the kernel watches that very directory. */
  ghost predicate Accurate(s: State) {
    && (forall wd, wd' :: wd in s.view && wd' in s.view && s.view[wd] == s.view[wd'] ==> wd == wd')
    && (forall p :: p in s.view.Values <==> Exists(s, p) && Monitored(s, p))
    && (forall wd :: wd in s.view ==> s.view[wd] in s.kernel.watch && s.kernel.watch[s.view[wd]].wd == wd)
  }

  lemma SyncedIsAccurate(s: State)
    requires Linked(s) && Covered(s)
    ensures Accurate(s)
  {
  }

  // ---- watching a subtree -------------------------------------------------------------------

  /** What watching the given directories changes. */
  ghost predicate Watched(s: State, t: State, added: set<Path>) {
    && t.roots == s.roots && t.running == s.running && t.kernel.listing == s.kernel.listing
    && t.kernel.watch.Keys == s.kernel.watch.Keys + added
    && (forall p :: p in added ==> t.kernel.watch[p].moveSelf == IsRoot(s, p))
    && (forall p :: p in s.kernel.watch && p !in added ==> t.kernel.watch[p] == s.kernel.watch[p])
  }

  ghost function Chosen(dir: Path, todo: seq<Path>): set<Path> {
    set p | p in todo && dir <= p
  }

  lemma TraverseAdds(s: State, p: Path)
    requires Linked(s)
    ensures Linked(TraverseTree(s, p)) && Watched(s, TraverseTree(s, p), {p})
  {
  }

  lemma WatchedTwice(s: State, u: State, t: State, added: set<Path>, more: set<Path>)
    requires Watched(s, u, added) && Watched(u, t, more)
    ensures Watched(s, t, added + more)
  {
  }

  lemma ChosenStep(dir: Path, todo: seq<Path>)
    requires todo != []
    ensures Chosen(dir, todo) == (if dir <= todo[0] then {todo[0]} else {}) + Chosen(dir, todo[1..])
  {
  }

  lemma {:induction false} WatchListAdds(s: State, dir: Path, todo: seq<Path>)
    requires Linked(s)
    ensures Linked(WatchList(s, dir, todo))
    ensures Watched(s, WatchList(s, dir, todo), Chosen(dir, todo))
    decreases |todo|
  {
    if todo != [] {
      hide Linked, TraverseTree, Watched;
      ChosenStep(dir, todo);
      if dir <= todo[0] {
        var u := TraverseTree(s, todo[0]);
        TraverseAdds(s, todo[0]);
        WatchListAdds(u, dir, todo[1..]);
        WatchedTwice(s, u, WatchList(s, dir, todo), {todo[0]}, Chosen(dir, todo[1..]));
      } else {
        WatchListAdds(s, dir, todo[1..]);
        assert {} + Chosen(dir, todo[1..]) == Chosen(dir, todo[1..]);
      }
    }
  }

  ghost predicate UnderSome(todo: seq<Option<Path>>, p: Path) {
    exists r :: Some(r) in todo && r <= p
  }

  lemma {:induction false} WatchRootsAdds(s: State, todo: seq<Option<Path>>)
    requires Linked(s)
    requires forall p :: p in s.kernel.watch ==> s.kernel.watch[p].moveSelf == IsRoot(s, p)
    ensures var t := WatchRoots(s, todo);
      && Linked(t) && t.roots == s.roots && t.running == s.running && t.kernel.listing == s.kernel.listing
      && (forall p :: p in t.kernel.watch <==> p in s.kernel.watch || (Exists(s, p) && UnderSome(todo, p)))
      && (forall p :: p in t.kernel.watch ==> t.kernel.watch[p].moveSelf == IsRoot(s, p))
    decreases |todo|
  {
    if todo != [] {
      var s' := s;
      if todo[0].Some? {
        s' := WatchSubtree(s, todo[0].value);
        WatchListAdds(s, todo[0].value, s.kernel.listing);
      }
      WatchRootsAdds(s', todo[1..]);
      forall p
        ensures UnderSome(todo, p) <==> UnderSome(todo[1..], p) || (todo[0].Some? && todo[0].value <= p)
      {
        assert todo == [todo[0]] + todo[1..];
        if UnderSome(todo[1..], p) {
          var r :| Some(r) in todo[1..] && r <= p;
          assert Some(r) in todo;
        }
        if todo[0].Some? && todo[0].value <= p {
          assert Some(todo[0].value) in todo;
        }
      }
    }
  }

  /** A rebuild is correct whatever the cache and the watches were before. */
  lemma ReinitializeSyncs(s: State)
    ensures var t := Reinitialize(s);
      && t.roots == s.roots && t.running == s.running && t.kernel.listing == s.kernel.listing
      && Linked(t) && Covered(t) && Accurate(t)
  {
    WatchRootsAdds(Blank(s), s.roots);
    var t := Reinitialize(s);
    forall p
      ensures UnderSome(s.roots, p) <==> Monitored(t, p)
    {
      if UnderSome(s.roots, p) {
        var r :| Some(r) in s.roots && r <= p;
        assert IsRoot(t, r) && r <= p;
      }
    }
    SyncedIsAccurate(t);
  }
}
