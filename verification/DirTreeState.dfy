/** The directory cache as a value: which descriptor stands for which path, the root paths still
    monitored, and the part of the kernel that the program talks to. One function per operation. */
module DirTreeState {
  import opened Options
  import opened DirTreePaths

  datatype Bit = IsDir | Create | MovedFrom | MovedTo | DeleteSelf | MoveSelf | Ignored | QOverflow | Unmount

  datatype Event = Event(wd: int, mask: set<Bit>, cookie: int, name: string, len: nat)

  /** A watch on a directory; moveSelf is set for the directories that were roots when it was made. */
  datatype Watch = Watch(wd: int, moveSelf: bool)

  /** The directories, in the order in which a tree walk meets them, and the watches. A watch belongs
      to a directory and not to a name, so it is kept under the path the directory has now. */
  datatype Kernel = Kernel(listing: seq<Path>, watch: map<Path, Watch>, next: int)

  datatype State = State(view: map<int, Path>, roots: seq<Option<Path>>, kernel: Kernel, running: bool)

  /** What one call of the event handler took from its buffer. */
  datatype Taken = Hanging | Events(n: nat) | Everything

  predicate IsRoot(s: State, p: Path) {
    Some(p) in s.roots
  }

  ghost predicate Monitored(s: State, p: Path) {
    exists r :: IsRoot(s, r) && r <= p
  }

  /** What the kernel guarantees of an event: only an overflow has no descriptor. */
  predicate WellFormed(e: Event) {
    && -1 <= e.wd
    && Plain(e.name)
    && (e.wd == -1 || Ignored in e.mask ==> e.mask <= {QOverflow, Ignored})
  }

  ghost predicate AllWellFormed(evs: seq<Event>) {
    forall i :: 0 <= i < |evs| ==> WellFormed(evs[i])
  }

  // ---- watching -----------------------------------------------------------------------------

  function TraverseTree(s: State, p: Path): State {
    var k := s.kernel;
    var wd := if p in k.watch then k.watch[p].wd else k.next;
    var next := if p in k.watch then k.next else k.next + 1;
    s.(kernel := k.(watch := k.watch[p := Watch(wd, IsRoot(s, p))], next := next),
       view := if wd in s.view then s.view else s.view[wd := p])
  }

  function WatchList(s: State, dir: Path, todo: seq<Path>): State
    decreases |todo|
  {
    if todo == [] then s
    else WatchList(if dir <= todo[0] then TraverseTree(s, todo[0]) else s, dir, todo[1..])
  }

  function WatchSubtree(s: State, dir: Path): State {
    WatchList(s, dir, s.kernel.listing)
  }

  function WatchRoots(s: State, todo: seq<Option<Path>>): State
    decreases |todo|
  {
    if todo == [] then s
    else WatchRoots(if todo[0].Some? then WatchSubtree(s, todo[0].value) else s, todo[1..])
  }

  /** A new inotify instance has no watches and numbers its descriptors from 1. */
  function Blank(s: State): State {
    s.(view := map[], kernel := s.kernel.(watch := map[], next := 1))
  }

  function Reinitialize(s: State): State {
    WatchRoots(Blank(s), s.roots)
  }

  // ---- changing cached paths ----------------------------------------------------------------

  function Moved(src: Path, dst: Path, p: Path): Path {
    if src <= p then dst + p[|src|..] else p
  }

  function Rewrite(s: State, src: Path, dst: Path): State {
    s.(view := map wd | wd in s.view :: Moved(src, dst, s.view[wd]))
  }

  function Below(view: map<int, Path>, dir: Path): set<int> {
    set wd | wd in view && dir <= view[wd]
  }

  function KernelWds(k: Kernel): set<int> {
    set p | p in k.watch :: k.watch[p].wd
  }

  function DropWds(k: Kernel, wds: set<int>): Kernel {
    k.(watch := map p | p in k.watch && k.watch[p].wd !in wds :: k.watch[p])
  }

  /** None when some inotify_rm_watch would fail. */
  function ZapSubtree(s: State, dir: Path): Option<State> {
    var wds := Below(s.view, dir);
    if wds <= KernelWds(s.kernel)
    then Some(s.(view := s.view - wds, kernel := DropWds(s.kernel, wds)))
    else None
  }

  function IndexOf(roots: seq<Option<Path>>, p: Path): (i: nat)
    requires Some(p) in roots
    ensures i < |roots| && roots[i] == Some(p) && Some(p) !in roots[..i]
  {
    if roots[0] == Some(p) then 0 else 1 + IndexOf(roots[1..], p)
  }

  predicate NoRoots(roots: seq<Option<Path>>) {
    forall i :: 0 <= i < |roots| ==> roots[i].None?
  }

  /** The program exits when its last root is zapped. */
  function ZapRoot(s: State, p: Path): State
    requires IsRoot(s, p)
  {
    var roots := s.roots[IndexOf(s.roots, p) := None];
    s.(roots := roots, running := s.running && !NoRoots(roots))
  }

  // ---- one event ----------------------------------------------------------------------------

  predicate IsMovedFromDir(e: Event) {
    MovedFrom in e.mask && IsDir in e.mask
  }

  predicate IsPair(e: Event, next: Event) {
    MovedTo in next.mask && next.cookie == e.cookie
  }

  /** The events whose handling depends on the event that follows. */
  predicate Awaits(e: Event) {
    && IsMovedFromDir(e)
    && Create !in e.mask && MovedTo !in e.mask && DeleteSelf !in e.mask
  }

  function OrRebuild(s: State, r: Option<State>): (State, Taken) {
    if r.Some? then (r.value, Events(1)) else (Reinitialize(s), Everything)
  }

  function OnNewDirectory(s: State, e: Event): State
    requires e.wd in s.view
  {
    var full := s.view[e.wd] + [e.name];
    if full in s.view.Values then s else WatchSubtree(s, full)
  }

  function OnDeleteSelf(s: State, e: Event): State
    requires e.wd in s.view
  {
    var p := s.view[e.wd];
    var z := if IsRoot(s, p) then ZapRoot(s, p) else s;
    if z.running then z.(view := z.view - {e.wd}) else z
  }

  function OnMovedFrom(s: State, evs: seq<Event>, firstTry: bool): (State, Taken)
    requires evs != [] && evs[0].wd in s.view
  {
    var src := s.view[evs[0].wd] + [evs[0].name];
    if |evs| > 1 && IsPair(evs[0], evs[1]) then
      if evs[1].wd in s.view
      then (Rewrite(s, src, s.view[evs[1].wd] + [evs[1].name]), Events(2))
      else (Reinitialize(s), Everything)
    else if |evs| > 1 || !firstTry then OrRebuild(s, ZapSubtree(s, src))
    else (s, Hanging)
  }

  function OnRootMoved(s: State, p: Path): (State, Taken)
    requires IsRoot(s, p)
  {
    var z := ZapRoot(s, p);
    if z.running then OrRebuild(z, ZapSubtree(z, p)) else (z, Events(1))
  }

  /** The handler for the first event of a buffer. */
  function Next(s: State, evs: seq<Event>, firstTry: bool): (r: (State, Taken))
    requires evs != [] && WellFormed(evs[0])
    ensures r.1.Events? ==> 1 <= r.1.n <= |evs|
    ensures r.1.Hanging? <==> firstTry && |evs| == 1 && evs[0].wd in s.view && Awaits(evs[0])
    ensures r.1.Hanging? ==> r.0 == s
  {
    var e := evs[0];
    if e.wd != -1 && Ignored !in e.mask && e.wd !in s.view then (Reinitialize(s), Everything)
    else if IsDir in e.mask && (Create in e.mask || MovedTo in e.mask) then (OnNewDirectory(s, e), Events(1))
    else if DeleteSelf in e.mask then (OnDeleteSelf(s, e), Events(1))
    else if IsMovedFromDir(e) then OnMovedFrom(s, evs, firstTry)
    else if QOverflow in e.mask then (Reinitialize(s), Everything)
    else if Unmount in e.mask then (s.(view := s.view - {e.wd}), Events(1))
    else if MoveSelf in e.mask && IsRoot(s, s.view[e.wd]) then OnRootMoved(s, s.view[e.wd])
    else (s, Events(1))
  }

  /** The whole event stream, seen at once: a rebuild discards the rest of the buffer and, with the
      old inotify descriptor, everything that was still queued. */
  function HandleAll(s: State, evs: seq<Event>): State
    requires AllWellFormed(evs)
    decreases |evs|
  {
    if evs == [] || !s.running then s
    else
      var (t, taken) := Next(s, evs, false);
      match taken
      case Events(n) => HandleAll(t, evs[n..])
      case _ => t
  }

  /** t is a possible outcome of the stream when an event may also be handled without sight of the one that follows,
      because the read that should have fetched it came too late. */
  ghost predicate HandlesTo(s: State, evs: seq<Event>, t: State)
    requires AllWellFormed(evs)
    decreases |evs|, 1
  {
    if evs == [] || !s.running then t == s
    else
      || GoesOn(Next(s, evs, false), evs, t)
      || GoesOn(Next(s, evs[..1], false), evs, t)
  }

  /** After one call of the handler, the rest of the stream can lead to t. */
  ghost predicate GoesOn(r: (State, Taken), evs: seq<Event>, t: State)
    requires AllWellFormed(evs) && evs != [] && (r.1.Events? ==> 1 <= r.1.n <= |evs|)
    decreases |evs|, 0
  {
    if r.1.Events? then HandlesTo(r.0, evs[r.1.n..], t) else t == r.0
  }
}
