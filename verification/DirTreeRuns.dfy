/** Changes of the directory tree, the events they queue, and what a run of handled changes keeps. */
module DirTreeRuns {
  import opened Options
  import opened DirTreePaths
  import opened DirTreeState
  import opened DirTreeSync

  /** File stands for the creation or rename of a file that is no directory, in or out of a directory. */
  datatype Change =
    | Mkdir(dir: Path) | Rmdir(dir: Path) | Rename(src: Path, dst: Path)
    | File(dir: Path, name: string, bits: set<Bit>)

  function Parent(p: Path): Path
    requires p != []
  {
    p[..|p| - 1]
  }

  function Name(p: Path): string
    requires p != []
  {
    p[|p| - 1]
  }

  function Back(src: Path, dst: Path, q: Path): Path {
    if dst <= q then src + q[|dst|..] else q
  }

  ghost predicate Leaf(s: State, p: Path) {
    forall q :: Exists(s, q) && p <= q ==> q == p
  }

  ghost predicate HasPlace(s: State, p: Path) {
    p != [] && Plain(Name(p)) && (|p| == 1 || Exists(s, Parent(p)))
  }

  ghost predicate ExistsAfter(s: State, c: Change, q: Path) {
    match c
    case Mkdir(d) => q == d || Exists(s, q)
    case Rmdir(d) => q != d && Exists(s, q)
    case Rename(a, b) => if b <= q then Exists(s, a + q[|b|..]) else Exists(s, q) && !(a <= q)
    case File(_, _, _) => Exists(s, q)
  }

  /** The change is one that mkdir(2), rmdir(2) or rename(2) makes; a rename may replace an empty directory.
      The new listing may come in any order. */
  ghost predicate Legal(s: State, c: Change, listing: seq<Path>) {
    && (forall q :: q in listing <==> ExistsAfter(s, c, q))
    && match c
       case Mkdir(d) => HasPlace(s, d) && !Exists(s, d)
       case Rmdir(d) => Exists(s, d) && Leaf(s, d)
       case Rename(a, b) => Exists(s, a) && HasPlace(s, b) && !(a <= b) && (Exists(s, b) ==> Leaf(s, b))
       case File(d, name, bits) => Exists(s, d) && Plain(name) && bits <= {Create, MovedFrom, MovedTo}
  }

  /** The tree and the watches after the change, before any event is handled. */
  function Changed(s: State, c: Change, listing: seq<Path>): State {
    var k := s.kernel;
    match c
    case Mkdir(_) => s.(kernel := k.(listing := listing))
    case File(_, _, _) => s.(kernel := k.(listing := listing))
    case Rmdir(d) => s.(kernel := k.(listing := listing, watch := k.watch - {d}))
    case Rename(a, b) =>
      s.(kernel := k.(listing := listing,
                      watch := map q | q in listing && Back(a, b, q) in k.watch :: k.watch[Back(a, b, q)]))
  }

  function Told(k: Kernel, p: Path, mask: set<Bit>, cookie: int, name: string): seq<Event> {
    if p in k.watch then [Event(k.watch[p].wd, mask, cookie, name, |name|)] else []
  }

  function Gone(k: Kernel, p: Path): seq<Event> {
    Told(k, p, {DeleteSelf}, 0, "") + Told(k, p, {Ignored}, 0, "")
  }

  /** The events in the order in which the kernel queues them. */
  function EventsOf(s: State, c: Change, cookie: int): seq<Event>
    requires c.Mkdir? ==> c.dir != []
    requires c.Rename? ==> c.src != [] && c.dst != []
  {
    var k := s.kernel;
    match c
    case Mkdir(d) => Told(k, Parent(d), {IsDir, Create}, 0, Name(d))
    case Rmdir(d) => Gone(k, d)
    case File(d, name, bits) => Told(k, d, bits, cookie, name)
    case Rename(a, b) =>
      Told(k, Parent(a), {IsDir, MovedFrom}, cookie, Name(a)) +
      Told(k, Parent(b), {IsDir, MovedTo}, cookie, Name(b)) +
      (if a in k.watch && k.watch[a].moveSelf then Told(k, a, {MoveSelf}, 0, "") else []) +
      Gone(k, b)
  }

  /** The renames after which the cache no longer agrees: of a directory above a root, of a root into a
      monitored tree, and of an unmonitored directory onto an existing monitored one. */
  ghost predicate Disruptive(s: State, c: Change) {
    && c.Rename?
    && c.dst != []
    && ((exists r :: IsRoot(s, r) && c.src <= r && c.src != r)
        || (IsRoot(s, c.src) && Monitored(s, Parent(c.dst)))
        || (!Monitored(s, c.src) && Monitored(s, Parent(c.dst)) && Exists(s, c.dst)))
  }

  // ---- prefixes -----------------------------------------------------------------------------

  lemma Comparable(a: Path, b: Path, q: Path)
    requires a <= q && b <= q
    ensures a <= b || b <= a
  {
  }

  lemma Transitive(a: Path, b: Path, q: Path)
    requires a <= b <= q
    ensures a <= q
  {
  }

  lemma AboveChild(a: Path, p: Path)
    requires p != []
    ensures a <= p <==> a == p || a <= Parent(p)
  {
  }

  lemma BackOfMoved(a: Path, b: Path, p: Path)
    requires a <= p
    ensures b <= Moved(a, b, p) && Back(a, b, Moved(a, b, p)) == p
  {
  }

  lemma MovedOfBack(a: Path, b: Path, q: Path)
    requires b <= q
    ensures a <= Back(a, b, q) && Moved(a, b, Back(a, b, q)) == q
  {
  }

  // ---- handling the events of one change ----------------------------------------------------

  lemma HandleOne(s: State, e: Event, rest: seq<Event>)
    requires s.running && WellFormed(e) && AllWellFormed(rest)
    requires Next(s, [e] + rest, false).1 == Events(1)
    ensures AllWellFormed([e] + rest)
    ensures HandleAll(s, [e] + rest) == HandleAll(Next(s, [e] + rest, false).0, rest)
  {
  }

  lemma HandlePair(s: State, e: Event, e': Event, rest: seq<Event>)
    requires s.running && WellFormed(e) && WellFormed(e') && AllWellFormed(rest)
    requires Next(s, [e, e'] + rest, false).1 == Events(2)
    ensures AllWellFormed([e, e'] + rest)
    ensures HandleAll(s, [e, e'] + rest) == HandleAll(Next(s, [e, e'] + rest, false).0, rest)
  {
  }

  /** The events of a deleted directory clear its entry and, for a root, the root path. */
  lemma HandleGone(k: Kernel, u: State, b: Path)
    requires u.running
    requires b in k.watch ==> 1 <= k.watch[b].wd && k.watch[b].wd in u.view && u.view[k.watch[b].wd] == b
    ensures AllWellFormed(Gone(k, b))
    ensures HandleAll(u, Gone(k, b)) == AfterGone(k, u, b)
  {
    if b in k.watch {
      var wd := k.watch[b].wd;
      var e, e' := Event(wd, {DeleteSelf}, 0, "", 0), Event(wd, {Ignored}, 0, "", 0);
      assert Gone(k, b) == [e] + [e'];
      HandleOne(u, e, [e']);
      var v := AfterGone(k, u, b);
      if v.running {
        assert [e'] == [e'] + [];
        HandleOne(v, e', []);
      }
    }
  }

  function AfterGone(k: Kernel, u: State, b: Path): State
    requires b in k.watch ==> k.watch[b].wd in u.view && u.view[k.watch[b].wd] == b
  {
    if b !in k.watch then u
    else
      var z := if IsRoot(u, b) then ZapRoot(u, b) else u;
      if z.running then z.(view := z.view - {k.watch[b].wd}) else z
  }

  function Without(roots: seq<Option<Path>>, gone: set<Path>): seq<Option<Path>> {
    seq(|roots|, i requires 0 <= i < |roots| =>
      if roots[i].Some? && roots[i].value in gone then None else roots[i])
  }

  /** The root paths that a change takes away, if they are roots. */
  function Dropped(c: Change): set<Path> {
    match c
    case Rmdir(d) => {d}
    case Rename(a, b) => {a, b}
    case _ => {}
  }

  /** The program has exited exactly when it had a live root and lost the last. */
  ghost predicate ExitsWithLast(s: State, t: State) {
    !t.running <==> (exists r :: IsRoot(s, r)) && NoRoots(t.roots)
  }

  /** What a handled change does to the program, whether or not the cache still agrees: the live roots are those
      that were not removed or renamed, and the program exits exactly when the change took the last of them. */
  ghost predicate Outcome(s: State, t: State, c: Change, listing: seq<Path>) {
    && t.kernel.listing == listing
    && t.roots == Without(s.roots, Dropped(c))
    && ExitsWithLast(s, t)
  }

  lemma RootsUnchanged(s: State, t: State, c: Change, listing: seq<Path>)
    requires t.kernel.listing == listing && t.roots == s.roots && t.running
    requires forall p :: p in Dropped(c) ==> !IsRoot(s, p)
    ensures Outcome(s, t, c, listing)
  {
    NothingRemoved(s, Dropped(c));
    if r :| IsRoot(s, r) { var i :| 0 <= i < |t.roots| && t.roots[i] == Some(r); }
  }

  /** The events of the deleted directory drop it from the roots; with the last root the program exits. */
  lemma GoneRoots(s: State, u: State, gone: set<Path>, b: Path)
    requires RootsApart(s) && u.running && u.roots == Without(s.roots, gone)
    requires IsRoot(u, b) ==> b in s.kernel.watch
    requires b in s.kernel.watch ==> s.kernel.watch[b].wd in u.view && u.view[s.kernel.watch[b].wd] == b
    ensures var t := AfterGone(s.kernel, u, b);
      && t.kernel == u.kernel && t.roots == Without(s.roots, gone + {b})
      && ExitsWithLast(u, t)
  {
    var t := AfterGone(s.kernel, u, b);
    if IsRoot(u, b) {
      assert t.roots == Without(s.roots, gone + {b});
    } else {
      assert t == u || t == u.(view := t.view);
      assert t.roots == Without(s.roots, gone + {b}) by {
        forall i | 0 <= i < |s.roots| ensures t.roots[i] == Without(s.roots, gone + {b})[i] {
          if s.roots[i] == Some(b) && b !in gone { assert u.roots[i] == Some(b); }
        }
      }
      if r :| IsRoot(u, r) { var i :| 0 <= i < |u.roots| && u.roots[i] == Some(r); }
    }
  }

  lemma RootsWithout(s: State, t: State, gone: set<Path>)
    requires t.roots == Without(s.roots, gone)
    ensures forall r :: IsRoot(t, r) <==> IsRoot(s, r) && r !in gone
  {
    forall r
      ensures IsRoot(t, r) <==> IsRoot(s, r) && r !in gone
    {
      if IsRoot(s, r) && r !in gone {
        var i :| 0 <= i < |s.roots| && s.roots[i] == Some(r);
        assert t.roots[i] == Some(r);
      }
    }
  }

  lemma NothingRemoved(s: State, gone: set<Path>)
    requires forall p :: p in gone ==> !IsRoot(s, p)
    ensures Without(s.roots, gone) == s.roots
  {
  }

  /** The outcome of a rename, put together from the loss of its source and of its replaced target. */
  lemma OutcomeOfBoth(s: State, u: State, t: State, a: Path, b: Path, listing: seq<Path>)
    requires u.roots == Without(s.roots, {a}) && t.roots == Without(s.roots, {a, b}) && t.kernel.listing == listing
    requires ExitsWithLast(u, t)
    requires IsRoot(s, a) ==> exists r :: IsRoot(u, r)
    ensures Outcome(s, t, Rename(a, b), listing)
  {
    RootsWithout(s, u, {a});
    if r :| IsRoot(s, r) { assert r != a ==> IsRoot(u, r); }
  }

  lemma RootsStayApart(s: State, t: State, gone: set<Path>)
    requires RootsApart(s) && t.roots == Without(s.roots, gone)
    requires forall r :: IsRoot(s, r) && r !in gone ==> Exists(t, r)
    ensures RootsApart(t)
  {
    RootsWithout(s, t, gone);
  }

  lemma MonitoredWithout(s: State, t: State, gone: set<Path>, p: Path)
    requires t.roots == Without(s.roots, gone)
    ensures Monitored(t, p) <==> exists r :: IsRoot(s, r) && r !in gone && r <= p
  {
    RootsWithout(s, t, gone);
    if Monitored(t, p) {
      var r :| IsRoot(t, r) && r <= p;
      assert IsRoot(s, r) && r !in gone && r <= p;
    }
    if r :| IsRoot(s, r) && r !in gone && r <= p {
      assert IsRoot(t, r) && r <= p;
    }
  }
}
