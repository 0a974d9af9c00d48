/** Events as the bytes of a buffer, and the event loop over them: what each step of the loop keeps, whatever the
    program's cache is made of. */
module DirTreeLoop {
  import opened Options
  import opened DirTreePaths
  import opened DirTreeState
  import opened DirTreeSlots
  import DirTreeSync
  import S = DirTreeState

  const EVENT_HEADER := 16
  const NAME_MAX := 255
  const READ_BUF_LEN := 100 * (EVENT_HEADER + NAME_MAX + 1)

  /** sizeof(struct inotify_event) and the name that follows it. */
  function Size(e: Event): nat {
    EVENT_HEADER + e.len
  }

  function Bytes(evs: seq<Event>): nat {
    if evs == [] then 0 else Size(evs[0]) + Bytes(evs[1..])
  }

  ghost predicate Fits(evs: seq<Event>) {
    forall i :: 0 <= i < |evs| ==> WellFormed(evs[i]) && evs[i].len <= NAME_MAX + 1
  }

  ghost predicate ValidKernel(k: Kernel) {
    && 1 <= k.next
    && (forall p :: p in k.watch ==> 0 <= k.watch[p].wd)
    && (forall i :: 0 <= i < |k.listing| ==> Components(k.listing[i]))
  }

  /** How many of the events wait for the one that follows, and so may be handed to the handler twice. */
  function Awaiting(evs: seq<Event>): nat {
    if evs == [] then 0
    else Awaiting(evs[..|evs| - 1]) + (if Awaits(evs[|evs| - 1]) then 1 else 0)
  }

  lemma {:induction false} AwaitingMore(taken: seq<Event>, more: seq<Event>)
    ensures Awaiting(taken + more) >= Awaiting(taken)
    ensures more != [] && Awaits(more[0]) ==> Awaiting(taken + more) > Awaiting(taken)
  {
    if more == [] {
      assert taken + more == taken;
    } else {
      assert (taken + more)[..|taken + more| - 1] == taken + more[..|more| - 1];
      AwaitingMore(taken, more[..|more| - 1]);
      if |more| == 1 { assert taken + more[..0] == taken; }
    }
  }

  /** The handler has consumed n events more, in one call. */
  lemma CallCounted(taken: seq<Event>, rest: seq<Event>, n: nat, calls: nat, firstTry: bool)
    requires 1 <= n <= |rest| && (!firstTry ==> Awaits(rest[0]))
    requires calls <= |taken| + Awaiting(taken) + (if firstTry then 0 else 1)
    ensures calls + 1 <= |taken + rest[..n]| + Awaiting(taken + rest[..n])
  {
    hide Awaiting, Awaits;
    AwaitingMore(taken, rest[..n]);
  }

  /** Whatever can come of the events left, in state t, can come of all the events, in state s. */
  ghost predicate Leads(t: State, left: seq<Event>, s: State, all: seq<Event>)
    requires AllWellFormed(left) && AllWellFormed(all)
  {
    forall u :: HandlesTo(t, left, u) ==> HandlesTo(s, all, u)
  }

  lemma LeadsSelf(s: State, evs: seq<Event>)
    requires AllWellFormed(evs)
    ensures Leads(s, evs, s, evs)
  {
    hide HandlesTo;
  }

  lemma LeadsOn(u: State, left: seq<Event>, t: State, some: seq<Event>, s: State, all: seq<Event>)
    requires AllWellFormed(left) && AllWellFormed(some) && AllWellFormed(all)
    requires Leads(u, left, t, some) && Leads(t, some, s, all)
    ensures Leads(u, left, s, all)
  {
    hide HandlesTo;
  }

  /** A stream that is used up, or that the program has left, ends where it is. */
  lemma LeadsHere(t: State, left: seq<Event>, s: State, all: seq<Event>)
    requires AllWellFormed(left) && AllWellFormed(all) && Leads(t, left, s, all) && (!t.running || left == [])
    ensures HandlesTo(s, all, t)
    ensures forall more :: !t.running && AllWellFormed(more) ==> Leads(t, more, s, all)
  {
    assert HandlesTo(t, left, t);
    hide AllWellFormed;
    forall more | !t.running && AllWellFormed(more)
      ensures Leads(t, more, s, all)
    {
      forall u | HandlesTo(t, more, u) ensures HandlesTo(s, all, u) { assert u == t; }
    }
  }

  /** One call of the handler, which saw the next event or did not. */
  lemma LeadsStep(t: State, rest: seq<Event>, tail: seq<Event>, firstTry: bool)
    requires t.running && rest != [] && AllWellFormed(rest + tail) && WellFormed(rest[0])
    requires !Next(t, rest, firstTry).1.Hanging?
    ensures var r := Next(t, rest, firstTry);
      && (r.1.Events? ==> AllWellFormed(rest[r.1.n..] + tail) && Leads(r.0, rest[r.1.n..] + tail, t, rest + tail))
      && (r.1.Everything? ==> AllWellFormed([]) && Leads(r.0, [], t, rest + tail))
  {
    hide Next;
    var r, evs := Next(t, rest, firstTry), rest + tail;
    if |rest| == 1 && !firstTry {
      assert evs[..1] == rest;
    } else {
      NextSeesEnough(t, rest, tail, firstTry);
    }
    if r.1.Events? { assert evs[r.1.n..] == rest[r.1.n..] + tail; }
    forall u | GoesOn(r, evs, u) ensures HandlesTo(t, evs, u) { }
  }

  /** Whatever rebuilds the cache leaves it accurate. */
  lemma RebuiltIsAccurate(s: State, evs: seq<Event>, firstTry: bool)
    requires evs != [] && WellFormed(evs[0]) && Next(s, evs, firstTry).1.Everything?
    ensures DirTreeSync.Accurate(Next(s, evs, firstTry).0)
  {
    hide S.Reinitialize, DirTreeSync.Accurate, DirTreeSync.Linked, DirTreeSync.Covered;
    DirTreeSync.ReinitializeSyncs(s);
    if evs[0].wd in s.view && IsRoot(s, s.view[evs[0].wd]) {
      DirTreeSync.ReinitializeSyncs(ZapRoot(s, s.view[evs[0].wd]));
    }
  }

  /** The events taken, those in the buffer and those still queued are all there were, and their handling in the
      state t comes to the same as handling all of them from s. */
  ghost predicate InOrder(t: State, rest: seq<Event>, tail: seq<Event>, taken: seq<Event>, rebuilt: bool,
                          s: State, all: seq<Event>, prompt: bool)
  {
    && AllWellFormed(rest + tail) && AllWellFormed(all)
    && taken <= all
    && (if rebuilt then rest == [] && tail == [] && DirTreeSync.Accurate(t) else taken + rest + tail == all)
    && (prompt ==> HandleAll(t, rest + tail) == HandleAll(s, all))
    && Leads(t, rest + tail, s, all)
  }

  /** What holds each time round: t is the state now, s the state at the start and all the events queued then;
      left is how many bytes the loop believes are in the buffer. */
  ghost predicate InLoop(t: State, rest: seq<Event>, tail: seq<Event>, left: int, firstTry: bool, taken: seq<Event>,
                         calls: nat, rebuilt: bool, s: State, all: seq<Event>, prompt: bool)
  {
    && Fits(rest) && Fits(tail) && InOrder(t, rest, tail, taken, rebuilt, s, all, prompt)
    && Bytes(rest) <= READ_BUF_LEN
    && Aligned(rest, left, firstTry)
    && (!firstTry ==> t.running && left > 0 && (prompt && |rest| == 1 ==> tail == []))
    && (!firstTry ==> rest != [] && Awaits(rest[0]))
    && calls <= |taken| + Awaiting(taken) + (if firstTry then 0 else 1)
  }

  lemma LoopStarts(s: State, rest: seq<Event>, tail: seq<Event>, all: seq<Event>, prompt: bool)
    requires Fits(rest) && Fits(tail) && rest + tail == all && Bytes(rest) <= READ_BUF_LEN
    ensures InLoop(s, rest, tail, Bytes(rest), true, [], 0, false, s, all, prompt)
  {
    hide HandleAll, Bytes, Fits, AllWellFormed, Leads;
    BothWellFormed(rest, tail);
    LeadsSelf(s, all);
    assert [] + rest + tail == all;
  }

  lemma BothWellFormed(a: seq<Event>, b: seq<Event>)
    requires Fits(a) && Fits(b)
    ensures AllWellFormed(a + b)
  {
  }

  lemma LoopReady(t: State, rest: seq<Event>, tail: seq<Event>, left: int, firstTry: bool, taken: seq<Event>,
                  calls: nat, rebuilt: bool, s: State, all: seq<Event>, prompt: bool)
    requires InLoop(t, rest, tail, left, firstTry, taken, calls, rebuilt, s, all, prompt) && left > 0
    ensures rest != [] && Fits(rest) && WellFormed(rest[0])
    ensures left == Bytes(rest) || (|rest| == 1 && left == Bytes(rest) - 1)
    ensures LengthFits(t, rest, firstTry)
  {
  }

  ghost predicate LengthFits(t: State, rest: seq<Event>, firstTry: bool)
    requires rest != [] && WellFormed(rest[0])
  {
    var taken := Next(t, rest, firstTry).1;
    Length(rest, taken) > 0 <==> !taken.Hanging?
  }

  lemma OrderAdvances(t: State, rest: seq<Event>, tail: seq<Event>, firstTry: bool, taken: seq<Event>,
                      rebuilt: bool, s: State, all: seq<Event>, prompt: bool)
    requires InOrder(t, rest, tail, taken, rebuilt, s, all, prompt)
    requires t.running && rest != [] && WellFormed(rest[0]) && !Next(t, rest, firstTry).1.Hanging?
    requires !firstTry && prompt && |rest| == 1 ==> tail == []
    ensures var r := Next(t, rest, firstTry); var n := if r.1.Events? then r.1.n else |rest|;
      InOrder(r.0, rest[n..], if r.1.Everything? then [] else tail, taken + rest[..n], r.1.Everything?, s, all, prompt)
  {
    hide HandleAll, Next, Leads, DirTreeSync.Accurate;
    var r := Next(t, rest, firstTry);
    var n := if r.1.Events? then r.1.n else |rest|;
    Handover(taken, rest, n, tail);
    if prompt { StreamStep(t, rest, tail, firstTry); }
    LeadsStep(t, rest, tail, firstTry);
    if r.1.Everything? {
      Settled(r.0, []);
      assert rest[n..] + [] == [];
      RebuiltIsAccurate(t, rest, firstTry);
      LeadsOn(r.0, [], t, rest + tail, s, all);
    } else {
      LeadsOn(r.0, rest[n..] + tail, t, rest + tail, s, all);
    }
  }

  lemma LoopAdvances(t: State, rest: seq<Event>, tail: seq<Event>, left: int, firstTry: bool, taken: seq<Event>,
                     calls: nat, rebuilt: bool, s: State, all: seq<Event>, prompt: bool)
    requires InLoop(t, rest, tail, left, firstTry, taken, calls, rebuilt, s, all, prompt)
    requires t.running && left > 0 && rest != [] && WellFormed(rest[0]) && !Next(t, rest, firstTry).1.Hanging?
    ensures var r := Next(t, rest, firstTry); var next := DropBytes(rest, Length(rest, r.1));
      && |next| < |rest|
      && InLoop(r.0, next, if r.1.Everything? then [] else tail, left - Length(rest, r.1), true,
                taken + rest[..|rest| - |next|], calls + 1, r.1.Everything?, s, all, prompt)
  {
    hide InOrder, Next, Bytes, DropBytes, Length, Aligned, Awaiting, Awaits;
    var r := Next(t, rest, firstTry);
    var next := DropBytes(rest, Length(rest, r.1));
    DropTaken(rest, r.1);
    CallCounted(taken, rest, |rest| - |next|, calls, firstTry);
    AlignedAfter(rest, left, firstTry, r.1);
    OrderAdvances(t, rest, tail, firstTry, taken, rebuilt, s, all, prompt);
    var n := if r.1.Events? then r.1.n else |rest|;
    assert n == |rest| - |next|;
  }

  lemma LoopHangs(t: State, rest: seq<Event>, tail: seq<Event>, left: int, firstTry: bool, taken: seq<Event>,
                  calls: nat, rebuilt: bool, s: State, all: seq<Event>, prompt: bool)
    requires InLoop(t, rest, tail, left, firstTry, taken, calls, rebuilt, s, all, prompt)
    requires t.running && left > 0 && rest != [] && WellFormed(rest[0]) && Next(t, rest, firstTry).1.Hanging?
    ensures firstTry && |rest| == 1 && left == Bytes(rest) && Next(t, rest, firstTry).0 == t
    ensures EVENT_HEADER + NAME_MAX + 1 <= READ_BUF_LEN - left && Awaits(rest[0])
  {
  }

  lemma LoopRefills(t: State, rest: seq<Event>, got: seq<Event>, left: seq<Event>, size: int, taken: seq<Event>,
                    calls: nat, rebuilt: bool, s: State, all: seq<Event>, prompt: bool)
    requires InLoop(t, rest, got + left, size, true, taken, calls, rebuilt, s, all, prompt)
    requires t.running && |rest| == 1 && size == Bytes(rest) && Awaits(rest[0])
    requires Fits(got) && Fits(left) && Bytes(got) <= READ_BUF_LEN - size && (prompt && got == [] ==> left == [])
    ensures InLoop(t, rest + got, left, size + (if got == [] then -1 else Bytes(got)), false,
                   taken, calls + 1, rebuilt, s, all, prompt)
  {
    hide InOrder, Bytes, Aligned, Awaiting, Awaits, Fits;
    AlignedMore(rest, got, size);
    FitsMore(rest, got);
    OrderRefills(t, rest, got, left, taken, rebuilt, s, all, prompt);
  }

  lemma FitsMore(a: seq<Event>, b: seq<Event>)
    requires Fits(a) && Fits(b)
    ensures Fits(a + b)
  {
  }

  lemma OrderRefills(t: State, rest: seq<Event>, got: seq<Event>, left: seq<Event>, taken: seq<Event>, rebuilt: bool,
                     s: State, all: seq<Event>, prompt: bool)
    requires InOrder(t, rest, got + left, taken, rebuilt, s, all, prompt) && rest != []
    ensures InOrder(t, rest + got, left, taken, rebuilt, s, all, prompt)
  {
    hide HandleAll, Leads, DirTreeSync.Accurate, AllWellFormed;
    Refill(taken, rest, got, left);
  }

  lemma LoopEnds(t: State, rest: seq<Event>, tail: seq<Event>, left: int, firstTry: bool, taken: seq<Event>,
                 calls: nat, rebuilt: bool, s: State, all: seq<Event>, prompt: bool)
    requires InLoop(t, rest, tail, left, firstTry, taken, calls, rebuilt, s, all, prompt)
    requires !(t.running && left > 0)
    ensures AllWellFormed(tail) && AllWellFormed(all) && taken <= all && calls <= |taken| + Awaiting(taken)
    ensures prompt ==> HandleAll(t, tail) == HandleAll(s, all)
    ensures Leads(t, tail, s, all)
    ensures !rebuilt && t.running ==> taken + tail == all
    ensures rebuilt ==> tail == [] && DirTreeSync.Accurate(t)
  {
    hide HandleAll, Bytes, Awaiting, Leads, DirTreeSync.Accurate;
    if t.running {
      AlignedEmpty(rest, left, firstTry);
      assert [] + tail == tail && taken + [] == taken;
    } else {
      Settled(t, rest + tail);
      Settled(t, tail);
      LeadsHere(t, rest + tail, s, all);
    }
  }

  /** How many bytes the loop believes are left, against the events that are there. */
  ghost predicate Aligned(rest: seq<Event>, left: int, firstTry: bool) {
    || left == Bytes(rest)
    || (rest == [] && left <= 0)
    || (|rest| == 1 && left == Bytes(rest) - 1 && !firstTry)
  }

  lemma FitsWellFormed(evs: seq<Event>)
    requires Fits(evs)
    ensures AllWellFormed(evs)
  {
  }

  /** The events that remain after moving the pointer on by so many bytes. */
  function DropBytes(evs: seq<Event>, n: int): seq<Event> {
    if n <= 0 || evs == [] then evs else DropBytes(evs[1..], n - Size(evs[0]))
  }

  /** The return value of the handler: bytes consumed, a whole buffer's worth, or -1 for "read more". */
  function Length(buf: seq<Event>, taken: Taken): int
    requires taken.Events? ==> taken.n <= |buf|
  {
    match taken
    case Hanging => -1
    case Events(n) => Bytes(buf[..n])
    case Everything => READ_BUF_LEN
  }

  lemma BytesOfFirst(buf: seq<Event>)
    requires buf != []
    ensures Bytes(buf[..1]) == Size(buf[0])
    ensures |buf| == 1 ==> Bytes(buf) == Size(buf[0])
    ensures |buf| > 1 ==> Bytes(buf) > Size(buf[0]) && Bytes(buf[..2]) == Size(buf[0]) + Size(buf[1])
  {
    assert buf[..1][1..] == [];
    if |buf| > 1 {
      assert buf[..2][1..] == [buf[1]];
      assert [buf[1]][1..] == [];
    } else {
      assert buf[1..] == [];
    }
  }

  lemma RebuildForgets(s: State, t: State)
    requires s.roots == t.roots && s.kernel.listing == t.kernel.listing && s.running == t.running
    ensures Reinitialize(s) == Reinitialize(t)
  {
  }

  /** A pathname argument: a string of the caller's own, or one stored in a cache slot. */
  datatype PathArg = Own(text: string) | CachedAt(slot: nat)

  /** gone holds the descriptors of the subtree found in the first j slots. */
  ghost predicate Cleared(slots: seq<Slot>, view: map<int, Path>, dir: Path, j: nat, gone: set<int>)
    requires j <= |slots|
  {
    forall wd :: wd in gone <==> wd in Below(view, dir) && exists i :: 0 <= i < j && slots[i].wd == wd
  }

  lemma NoneCleared(slots: seq<Slot>, view: map<int, Path>, dir: Path)
    ensures Cleared(slots, view, dir, 0, {})
  {
  }

  lemma ClearedStep(slots: seq<Slot>, view: map<int, Path>, dir: Path, j: nat, gone: set<int>)
    requires j < |slots| && ValidSlots(slots) && Shows(slots, view) && Cleared(slots, view, dir, j, gone)
    ensures slots[j].wd !in gone
    ensures if 0 <= slots[j].wd && dir <= Split(slots[j].path)
            then Cleared(slots, view, dir, j + 1, gone + {slots[j].wd}) && slots[j].wd in Below(view, dir)
            else Cleared(slots, view, dir, j + 1, gone)
  {
  }

  lemma ClearedAll(slots: seq<Slot>, view: map<int, Path>, dir: Path, gone: set<int>)
    requires Shows(slots, view) && Cleared(slots, view, dir, |slots|, gone)
    ensures gone == Below(view, dir)
  {
    hide Split;
    forall wd
      ensures wd in gone <==> wd in Below(view, dir)
    {
      if wd in Below(view, dir) { assert UsedFor(slots, wd); }
    }
  }

  /** The scan for a subtree has passed j slots: now is the state s without the descriptors in gone. */
  ghost predicate Zapping(s: State, now: State, slots: seq<Slot>, dir: Path, j: nat, gone: set<int>) {
    && j <= |slots| && ValidSlots(slots) && Shows(slots, s.view)
    && Cleared(slots, s.view, dir, j, gone) && gone <= KernelWds(s.kernel)
    && now == s.(view := s.view - gone, kernel := DropWds(s.kernel, gone))
  }

  lemma ZapStarts(s: State, slots: seq<Slot>, dir: Path)
    requires ValidSlots(slots) && View(slots) == s.view
    ensures Zapping(s, s, slots, dir, 0, {})
  {
    hide View, ValidSlots, Shows, Cleared, DropWds;
    ViewShows(slots);
    DropNone(s.kernel);
    NoneCleared(slots, s.view, dir);
    assert s.view - {} == s.view;
  }

  lemma ZapSkips(s: State, now: State, slots: seq<Slot>, dir: Path, j: nat, gone: set<int>)
    requires Zapping(s, now, slots, dir, j, gone) && j < |slots|
    requires !(0 <= slots[j].wd && dir <= Split(slots[j].path))
    ensures Zapping(s, now, slots, dir, j + 1, gone)
  {
    hide ValidSlots, Shows, Cleared, DropWds, KernelWds, Split;
    ClearedStep(slots, s.view, dir, j, gone);
  }

  /** The slot belongs to the subtree: its watch can be removed exactly if the kernel knew it from the start. */
  lemma ZapTakes(s: State, now: State, slots: seq<Slot>, dir: Path, j: nat, gone: set<int>)
    requires Zapping(s, now, slots, dir, j, gone) && j < |slots|
    requires 0 <= slots[j].wd && dir <= Split(slots[j].path)
    ensures var wd := slots[j].wd;
      && wd !in gone
      && if wd in KernelWds(now.kernel)
         then Zapping(s, now.(view := now.view - {wd}, kernel := DropWds(now.kernel, {wd})),
                      slots, dir, j + 1, gone + {wd})
         else ZapSubtree(s, dir).None?
  {
    hide ValidSlots, Shows, Cleared, DropWds, KernelWds, Split, Below;
    var wd := slots[j].wd;
    ClearedStep(slots, s.view, dir, j, gone);
    DropMore(s.kernel, gone, wd);
    assert s.view - gone - {wd} == s.view - (gone + {wd});
  }

  lemma ZapEnds(s: State, now: State, slots: seq<Slot>, dir: Path, gone: set<int>)
    requires Zapping(s, now, slots, dir, |slots|, gone)
    ensures ZapSubtree(s, dir) == Some(now) && gone == Below(s.view, dir)
  {
    hide ValidSlots, Shows, Cleared, DropWds, KernelWds, Below;
    ClearedAll(slots, s.view, dir, gone);
  }

  lemma DropNone(k: Kernel)
    ensures DropWds(k, {}) == k
  {
  }

  lemma DropMore(k: Kernel, gone: set<int>, wd: int)
    requires wd !in gone
    ensures DropWds(DropWds(k, gone), {wd}) == DropWds(k, gone + {wd})
    ensures wd in KernelWds(DropWds(k, gone)) <==> wd in KernelWds(k)
  {
    if wd in KernelWds(k) {
      var p :| p in k.watch && k.watch[p].wd == wd;
      assert p in DropWds(k, gone).watch;
    }
  }

  lemma {:induction false} NoneZapped(roots: seq<Option<string>>)
    requires forall i :: 0 <= i < |roots| ==> roots[i].Some?
    ensures Zapped(roots) == 0
  {
    if roots != [] { NoneZapped(roots[1..]); }
  }

  lemma Handover(taken: seq<Event>, rest: seq<Event>, n: nat, tail: seq<Event>)
    requires n <= |rest|
    ensures taken + rest[..n] + rest[n..] + tail == taken + rest + tail
    ensures taken + rest[..n] <= taken + rest + tail
  {
  }

  lemma Refill(taken: seq<Event>, rest: seq<Event>, got: seq<Event>, left: seq<Event>)
    ensures taken + (rest + got) + left == taken + rest + (got + left)
    ensures rest + got + left == rest + (got + left)
  {
  }

  lemma AlignedMore(rest: seq<Event>, got: seq<Event>, left: int)
    requires |rest| == 1 && left == Bytes(rest)
    ensures var more := if got == [] then -1 else Bytes(got);
      Aligned(rest + got, left + more, false) && left + more > 0
    ensures Bytes(rest + got) == Bytes(rest) + Bytes(got)
  {
  }

  lemma Settled(s: State, evs: seq<Event>)
    requires (!s.running || evs == []) && AllWellFormed(evs)
    ensures HandleAll(s, evs) == s
  {
  }

  lemma AlignedEmpty(rest: seq<Event>, left: int, firstTry: bool)
    requires Aligned(rest, left, firstTry) && left <= 0
    ensures rest == []
  {
  }

  lemma {:induction false} BytesAppend(a: seq<Event>, b: seq<Event>)
    ensures Bytes(a + b) == Bytes(a) + Bytes(b)
  {
    if a == [] {
      assert a + b == b;
    } else {
      BytesAppend(a[1..], b);
      assert (a + b)[1..] == a[1..] + b;
    }
  }

  lemma {:induction false} DropPrefix(evs: seq<Event>, n: nat)
    requires n <= |evs|
    ensures DropBytes(evs, Bytes(evs[..n])) == evs[n..]
  {
    if n > 0 {
      DropPrefix(evs[1..], n - 1);
      assert evs[..n][1..] == evs[1..][..n - 1];
    }
  }

  lemma {:induction false} DropAll(evs: seq<Event>, n: int)
    requires Bytes(evs) <= n
    ensures DropBytes(evs, n) == []
  {
    if evs != [] { DropAll(evs[1..], n - Size(evs[0])); }
  }

  lemma DropTaken(rest: seq<Event>, taken: Taken)
    requires Bytes(rest) <= READ_BUF_LEN && (taken.Events? ==> 1 <= taken.n <= |rest|) && !taken.Hanging?
    ensures DropBytes(rest, Length(rest, taken)) == if taken.Events? then rest[taken.n..] else []
  {
    match taken {
      case Events(n) => DropPrefix(rest, n);
      case Everything => DropAll(rest, READ_BUF_LEN);
    }
  }

  lemma AlignedAfter(rest: seq<Event>, left: int, firstTry: bool, taken: Taken)
    requires rest != [] && Aligned(rest, left, firstTry) && left > 0
    requires Bytes(rest) <= READ_BUF_LEN && (taken.Events? ==> 1 <= taken.n <= |rest|) && !taken.Hanging?
    ensures var next := DropBytes(rest, Length(rest, taken));
      && Aligned(next, left - Length(rest, taken), true) && Bytes(next) <= Bytes(rest)
      && |next| < |rest| && next == rest[|rest| - |next|..]
  {
    DropTaken(rest, taken);
    if taken.Events? {
      var n := taken.n;
      assert rest == rest[..n] + rest[n..];
      BytesAppend(rest[..n], rest[n..]);
      if |rest| == 1 { assert rest[..n] == rest; }
    }
  }

  /** Only an event that awaits its partner is handled differently when more events follow. */
  lemma NextSeesEnough(s: State, rest: seq<Event>, tail: seq<Event>, firstTry: bool)
    requires rest != [] && WellFormed(rest[0]) && !Next(s, rest, firstTry).1.Hanging?
    requires |rest| == 1 && !firstTry ==> tail == []
    ensures Next(s, rest, firstTry) == Next(s, rest + tail, false)
  {
  }

  lemma StreamStep(s: State, rest: seq<Event>, tail: seq<Event>, firstTry: bool)
    requires s.running && rest != [] && AllWellFormed(rest + tail) && WellFormed(rest[0])
    requires !Next(s, rest, firstTry).1.Hanging?
    requires |rest| == 1 && !firstTry ==> tail == []
    ensures var r := Next(s, rest, firstTry);
      if r.1.Events?
      then AllWellFormed(rest[r.1.n..] + tail) && HandleAll(s, rest + tail) == HandleAll(r.0, rest[r.1.n..] + tail)
      else HandleAll(s, rest + tail) == r.0
  {
    NextSeesEnough(s, rest, tail, firstTry);
    var r := Next(s, rest, firstTry);
    if r.1.Events? {
      assert (rest + tail)[r.1.n..] == rest[r.1.n..] + tail;
    }
  }
}
