/** The array of cache slots and the descriptor-to-path map that it stands for. */
module DirTreeSlots {
  import opened Options
  import opened DirTreePaths
  import opened DirTreeState

  /** One element of wlCache; wd is -1 and the path empty when the slot is unused. */
  datatype Slot = Slot(wd: int, path: string)

  const EMPTY := Slot(-1, "")

  ghost predicate ValidSlots(slots: seq<Slot>) {
    && (forall i :: 0 <= i < |slots| ==> slots[i] == EMPTY || 0 <= slots[i].wd)
    && (forall i, j :: 0 <= i < j < |slots| && 0 <= slots[i].wd ==> slots[i].wd != slots[j].wd)
  }

  ghost function View(slots: seq<Slot>): map<int, Path>
    requires ValidSlots(slots)
  {
    map i | 0 <= i < |slots| && 0 <= slots[i].wd :: slots[i].wd := Split(slots[i].path)
  }

  ghost predicate UsedFor(slots: seq<Slot>, wd: int) {
    0 <= wd && exists i :: 0 <= i < |slots| && slots[i].wd == wd
  }

  ghost predicate Shows(slots: seq<Slot>, view: map<int, Path>) {
    && (forall i :: 0 <= i < |slots| && 0 <= slots[i].wd ==>
          slots[i].wd in view && view[slots[i].wd] == Split(slots[i].path))
    && (forall wd :: wd in view ==> UsedFor(slots, wd))
  }

  lemma ViewShows(slots: seq<Slot>)
    requires ValidSlots(slots)
    ensures Shows(slots, View(slots))
  {
  }

  lemma ShownIsView(slots: seq<Slot>, view: map<int, Path>)
    requires ValidSlots(slots) && Shows(slots, view)
    ensures View(slots) == view
  {
    hide Split;
    assert forall wd :: wd in view ==> wd in View(slots) && View(slots)[wd] == view[wd];
  }

  lemma ViewOfNone()
    ensures ValidSlots([]) && View([]) == map[]
  {
  }

  lemma FillSlot(slots: seq<Slot>, i: int, wd: int, path: string)
    requires ValidSlots(slots) && 0 <= i < |slots| && slots[i] == EMPTY
    requires 0 <= wd && wd !in View(slots)
    ensures ValidSlots(slots[i := Slot(wd, path)])
    ensures View(slots[i := Slot(wd, path)]) == View(slots)[wd := Split(path)]
  {
    hide Split, View;
    ViewShows(slots);
    var t, view := slots[i := Slot(wd, path)], View(slots)[wd := Split(path)];
    forall w | w in view
      ensures UsedFor(t, w)
    {
      if w == wd {
        assert t[i].wd == w;
      } else {
        var j :| 0 <= j < |slots| && slots[j].wd == w;
        assert t[j].wd == w;
      }
    }
    ShownIsView(t, view);
  }

  lemma EmptySlot(slots: seq<Slot>, i: int)
    requires ValidSlots(slots) && 0 <= i < |slots| && 0 <= slots[i].wd
    ensures ValidSlots(slots[i := EMPTY])
    ensures View(slots[i := EMPTY]) == View(slots) - {slots[i].wd}
  {
    hide Split, View;
    ViewShows(slots);
    var t, view := slots[i := EMPTY], View(slots) - {slots[i].wd};
    forall w | w in view
      ensures UsedFor(t, w)
    {
      var j :| 0 <= j < |slots| && slots[j].wd == w;
      assert t[j].wd == w;
    }
    ShownIsView(t, view);
  }

  lemma GrowSlots(slots: seq<Slot>, n: nat)
    requires ValidSlots(slots)
    ensures ValidSlots(slots + seq(n, _ => EMPTY))
    ensures View(slots + seq(n, _ => EMPTY)) == View(slots)
  {
    hide Split, View;
    ViewShows(slots);
    var t := slots + seq(n, _ => EMPTY);
    forall w | w in View(slots)
      ensures UsedFor(t, w)
    {
      var j :| 0 <= j < |slots| && slots[j].wd == w;
      assert t[j].wd == w;
    }
    ShownIsView(t, View(slots));
  }

  // ---- renaming in place --------------------------------------------------------------------

  function RewriteSlot(slot: Slot, full: string, to: string): Slot {
    if ByteTest(full, slot.path) then Slot(slot.wd, to + slot.path[|full|..]) else slot
  }

  lemma RewriteAt(slot: Slot, full: string, to: string)
    ensures Split(RewriteSlot(slot, full, to).path) == Moved(Split(full), Split(to), Split(slot.path))
  {
    ByteTestIsComponentPrefix(full, slot.path);
    if ByteTest(full, slot.path) { RewriteIsComponentRewrite(full, slot.path, to); }
  }

  lemma RewriteSlots(slots: seq<Slot>, t: seq<Slot>, full: string, to: string)
    requires ValidSlots(slots) && full != ""
    requires |t| == |slots| && forall i :: 0 <= i < |t| ==> t[i] == RewriteSlot(slots[i], full, to)
    ensures ValidSlots(t)
    ensures forall i :: 0 <= i < |t| ==> t[i].wd == slots[i].wd && (slots[i] == EMPTY ==> t[i] == EMPTY)
  {
  }

  /** Rewriting every slot by bytes rewrites exactly the cached subtree; descriptors and unused slots stay. */
  lemma RewriteView(slots: seq<Slot>, t: seq<Slot>, full: string, to: string)
    requires ValidSlots(slots) && full != ""
    requires |t| == |slots| && forall i :: 0 <= i < |t| ==> t[i] == RewriteSlot(slots[i], full, to)
    ensures ValidSlots(t)
    ensures View(t) == map wd | wd in View(slots) :: Moved(Split(full), Split(to), View(slots)[wd])
    ensures forall i :: 0 <= i < |t| ==> t[i].wd == slots[i].wd && (slots[i] == EMPTY ==> t[i] == EMPTY)
  {
    hide Split, View, Moved, RewriteSlot, ByteTest;
    RewriteSlots(slots, t, full, to);
    ViewShows(slots);
    var view := map wd | wd in View(slots) :: Moved(Split(full), Split(to), View(slots)[wd]);
    forall i | 0 <= i < |t| && 0 <= t[i].wd
      ensures t[i].wd in view && view[t[i].wd] == Split(t[i].path)
    {
      RewriteAt(slots[i], full, to);
    }
    forall w | w in view
      ensures UsedFor(t, w)
    {
      StillUsed(slots, t, w);
    }
    ShownIsView(t, view);
  }

  lemma StillUsed(slots: seq<Slot>, t: seq<Slot>, w: int)
    requires UsedFor(slots, w) && |t| == |slots| && forall i :: 0 <= i < |t| ==> t[i].wd == slots[i].wd
    ensures UsedFor(t, w)
  {
    var j :| 0 <= j < |slots| && slots[j].wd == w;
    assert t[j].wd == w;
  }

  /** When nothing is cached under the new path, distinct paths stay distinct. */
  lemma RewriteKeepsDistinct(view: map<int, Path>, src: Path, dst: Path, w: int, w': int)
    requires w in view && w' in view && view[w] != view[w']
    requires forall wd :: wd in view ==> !(dst <= view[wd])
    ensures Moved(src, dst, view[w]) != Moved(src, dst, view[w'])
  {
    var p, q := view[w], view[w'];
    if src <= p && src <= q {
      assert p == src + p[|src|..] && q == src + q[|src|..];
      assert Moved(src, dst, p)[|dst|..] == p[|src|..] && Moved(src, dst, q)[|dst|..] == q[|src|..];
    } else if src <= p {
      assert dst <= Moved(src, dst, p);
    } else if src <= q {
      assert dst <= Moved(src, dst, q);
    }
  }

  // ---- root paths ---------------------------------------------------------------------------

  function RootPath(r: Option<string>): Option<Path> {
    match r
    case None => None
    case Some(s) => Some(Split(s))
  }

  function RootPaths(roots: seq<Option<string>>): seq<Option<Path>> {
    seq(|roots|, i requires 0 <= i < |roots| => RootPath(roots[i]))
  }

  function Zapped(roots: seq<Option<string>>): nat {
    if roots == [] then 0 else (if roots[0].None? then 1 else 0) + Zapped(roots[1..])
  }

  lemma {:induction false} ZappedAll(roots: seq<Option<string>>)
    ensures Zapped(roots) <= |roots|
    ensures Zapped(roots) == |roots| <==> NoRoots(RootPaths(roots))
  {
    if roots != [] {
      ZappedAll(roots[1..]);
      var t := RootPaths(roots);
      assert t[0] == RootPath(roots[0]);
      assert t[1..] == RootPaths(roots[1..]);
      if NoRoots(t) {
        assert forall i :: 0 <= i < |t[1..]| ==> t[1..][i] == t[i + 1];
      }
      if NoRoots(t[1..]) && roots[0].None? {
        assert forall i :: 0 < i < |t| ==> t[i] == t[1..][i - 1];
      }
    }
  }

  lemma {:induction false} ZapOne(roots: seq<Option<string>>, i: int)
    requires 0 <= i < |roots| && roots[i].Some?
    ensures Zapped(roots[i := None]) == Zapped(roots) + 1
  {
    if i > 0 {
      ZapOne(roots[1..], i - 1);
      assert roots[i := None][1..] == roots[1..][i - 1 := None];
    } else {
      assert roots[i := None][1..] == roots[1..];
    }
  }

  lemma FirstRoot(roots: seq<Option<string>>, path: string, i: int)
    requires 0 <= i < |roots| && roots[i] == Some(path) && Some(path) !in roots[..i]
    ensures Some(Split(path)) in RootPaths(roots) && IndexOf(RootPaths(roots), Split(path)) == i
  {
    var t := RootPaths(roots);
    assert t[i] == Some(Split(path));
    var k := IndexOf(t, Split(path));
    if k < i {
      assert roots[k].Some?;
      SplitInjective(roots[k].value, path);
    }
  }

  lemma NotARoot(roots: seq<Option<string>>, path: string)
    ensures Some(path) in roots <==> Some(Split(path)) in RootPaths(roots)
  {
    if Some(path) in roots {
      var i :| 0 <= i < |roots| && roots[i] == Some(path);
      assert RootPaths(roots)[i] == Some(Split(path));
    }
    if Some(Split(path)) in RootPaths(roots) {
      var i :| 0 <= i < |roots| && RootPaths(roots)[i] == Some(Split(path));
      assert roots[i].Some?;
      SplitInjective(roots[i].value, path);
    }
  }
}
