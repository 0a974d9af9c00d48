/** The monitoring program: its cache, its root paths and its view of the kernel, changed in place. Every
    method is proved equal to the function of the same operation on the abstract state. */
module DirTreeMonitor {
  import opened Options
  import opened DirTreePaths
  import opened DirTreeState
  import opened DirTreeSlots
  import opened DirTreeLoop
  import DirTreeSync
  import DirTreeHandler
  import S = DirTreeState

  const ALLOC_INCR := 200

  /** The program started on these arguments, before anything is watched. */
  ghost function Started(roots: seq<string>, listing: seq<Path>): State {
    State(map[], seq(|roots|, i requires 0 <= i < |roots| => Some(Split(roots[i]))), Kernel(listing, map[], 1), true)
  }

  class Monitor {
    var wlCache: seq<Slot>
    var rootDirPaths: seq<Option<string>>
    var ignoreRootDirs: nat
    var running: bool
    var kernel: Kernel
    /** The events queued at the current inotify descriptor. */
    var pending: seq<Event>

    ghost predicate Valid()
      reads this
    {
      && ValidSlots(wlCache)
      && ignoreRootDirs == Zapped(rootDirPaths)
      && ValidKernel(kernel)
      && Fits(pending)
    }

    ghost function Abs(): State
      requires Valid()
      reads this
    {
      State(View(wlCache), RootPaths(rootDirPaths), kernel, running)
    }

    constructor (roots: seq<string>, listing: seq<Path>)
      requires forall i :: 0 <= i < |listing| ==> Components(listing[i])
      ensures Valid() && pending == []
      ensures Abs() == S.Reinitialize(Started(roots, listing))
    {
      wlCache := [];
      rootDirPaths := seq(|roots|, i requires 0 <= i < |roots| => Some(roots[i]));
      ignoreRootDirs := 0;
      running := true;
      kernel := Kernel(listing, map[], 1);
      pending := [];
      new;
      NoneZapped(rootDirPaths);
      assert RootPaths(rootDirPaths) == seq(|roots|, i requires 0 <= i < |roots| => Some(Split(roots[i])));
      ViewOfNone();
      Reinitialize();
    }

    // ---- the cache --------------------------------------------------------------------------

    method FindWatch(wd: int) returns (slot: int)
      requires Valid() && 0 <= wd
      ensures -1 <= slot < |wlCache|
      ensures slot >= 0 <==> wd in Abs().view
      ensures slot >= 0 ==> wlCache[slot].wd == wd && Abs().view[wd] == Split(wlCache[slot].path)
    {
      ViewShows(wlCache);
      var j := 0;
      while j < |wlCache|
        invariant 0 <= j <= |wlCache|
        invariant forall i :: 0 <= i < j ==> wlCache[i].wd != wd
      {
        if wlCache[j].wd == wd { return j; }
        j := j + 1;
      }
      return -1;
    }

    method MarkCacheSlotEmpty(slot: nat)
      requires Valid() && slot < |wlCache| && 0 <= wlCache[slot].wd
      modifies this`wlCache
      ensures Valid() && wlCache == old(wlCache)[slot := EMPTY]
      ensures Abs() == old(Abs()).(view := old(Abs().view) - {old(wlCache[slot].wd)})
    {
      EmptySlot(wlCache, slot);
      wlCache := wlCache[slot := EMPTY];
    }

    method FindEmptyCacheSlot() returns (slot: nat)
      requires Valid()
      modifies this`wlCache
      ensures Valid() && slot < |wlCache| && wlCache[slot] == EMPTY
      ensures Abs() == old(Abs()) && old(wlCache) <= wlCache
    {
      var j := 0;
      while j < |wlCache|
        invariant 0 <= j <= |wlCache|
      {
        if wlCache[j].wd == -1 { return j; }
        j := j + 1;
      }
      GrowSlots(wlCache, ALLOC_INCR);
      slot := |wlCache|;
      wlCache := wlCache + seq(ALLOC_INCR, _ => EMPTY);
    }

    method AddWatchToCache(wd: int, pathname: string)
      requires Valid() && 0 <= wd && wd !in Abs().view
      modifies this`wlCache
      ensures Valid()
      ensures Abs() == old(Abs()).(view := old(Abs().view)[wd := Split(pathname)])
    {
      hide View, Split, RootPaths, Zapped, ValidSlots, ValidKernel, Fits;
      var slot := FindEmptyCacheSlot();
      FillSlot(wlCache, slot, wd, pathname);
      wlCache := wlCache[slot := Slot(wd, pathname)];
    }

    method PathnameInCache(pathname: string) returns (found: bool)
      requires Valid()
      ensures found <==> Split(pathname) in Abs().view.Values
    {
      hide View, Split, RootPaths, Zapped;
      ViewShows(wlCache);
      var j := 0;
      while j < |wlCache|
        invariant 0 <= j <= |wlCache|
        invariant forall i :: 0 <= i < j && 0 <= wlCache[i].wd ==> wlCache[i].path != pathname
      {
        if wlCache[j].wd >= 0 && wlCache[j].path == pathname {
          assert Abs().view[wlCache[j].wd] in Abs().view.Values;
          return true;
        }
        j := j + 1;
      }
      if Split(pathname) in Abs().view.Values {
        ghost var wd := KeyOf(Abs().view, Split(pathname));
        ghost var i :| 0 <= i < |wlCache| && wlCache[i].wd == wd;
        SplitInjective(wlCache[i].path, pathname);
      }
      return false;
    }

    // ---- the root paths ---------------------------------------------------------------------

    method FindRootDirPath(path: string) returns (slot: int)
      requires Valid()
      ensures -1 <= slot < |rootDirPaths|
      ensures slot >= 0 <==> IsRoot(Abs(), Split(path))
      ensures slot >= 0 ==> rootDirPaths[slot] == Some(path) && Some(path) !in rootDirPaths[..slot]
    {
      NotARoot(rootDirPaths, path);
      var j := 0;
      while j < |rootDirPaths|
        invariant 0 <= j <= |rootDirPaths|
        invariant Some(path) !in rootDirPaths[..j]
      {
        if rootDirPaths[j] == Some(path) { return j; }
        j := j + 1;
      }
      return -1;
    }

    method ZapRootDirPath(path: string)
      requires Valid() && running && IsRoot(Abs(), Split(path))
      modifies this`rootDirPaths, this`ignoreRootDirs, this`running
      ensures Valid() && Abs() == ZapRoot(old(Abs()), Split(path))
    {
      hide View, Split, Zapped, ValidSlots, ValidKernel, Fits;
      var p := FindRootDirPath(path);
      FirstRoot(rootDirPaths, path, p);
      ZapOne(rootDirPaths, p);
      ghost var before := RootPaths(rootDirPaths);
      rootDirPaths := rootDirPaths[p := None];
      assert RootPaths(rootDirPaths) == before[p := None];
      ignoreRootDirs := ignoreRootDirs + 1;
      ZappedAll(rootDirPaths);
      if ignoreRootDirs == |rootDirPaths| { running := false; }
    }

    // ---- watching ---------------------------------------------------------------------------

    /** inotify_add_watch: the descriptor of the directory's watch, new or already there. */
    method InotifyAddWatch(p: Path, moveSelf: bool) returns (wd: int)
      requires Valid()
      modifies this`kernel
      ensures Valid() && 0 <= wd
      ensures wd == if p in old(kernel).watch then old(kernel).watch[p].wd else old(kernel).next
      ensures kernel == old(kernel).(watch := old(kernel).watch[p := Watch(wd, moveSelf)],
                                     next := if p in old(kernel).watch then old(kernel).next else old(kernel).next + 1)
    {
      var isNew := p !in kernel.watch;
      wd := if isNew then kernel.next else kernel.watch[p].wd;
      kernel := kernel.(watch := kernel.watch[p := Watch(wd, moveSelf)],
                        next := if isNew then kernel.next + 1 else kernel.next);
    }

    method TraverseTree(pathname: string)
      requires Valid()
      modifies this`wlCache, this`kernel
      ensures Valid() && Abs() == S.TraverseTree(old(Abs()), Split(pathname))
    {
      hide View, Split, RootPaths, ValidSlots, Zapped, Fits;
      var root := FindRootDirPath(pathname);
      var wd := InotifyAddWatch(Split(pathname), root >= 0);
      var slot := FindWatch(wd);
      if slot < 0 { AddWatchToCache(wd, pathname); }
    }

    /** nftw calls back for every directory at or below pathname. */
    method WatchSubtree(pathname: string)
      requires Valid()
      modifies this`wlCache, this`kernel
      ensures Valid() && Abs() == S.WatchSubtree(old(Abs()), Split(pathname))
    {
      var listing, j := kernel.listing, 0;
      ghost var dir, s := Split(pathname), Abs();
      while j < |listing|
        invariant 0 <= j <= |listing| && listing == kernel.listing && Valid()
        invariant WatchList(Abs(), dir, listing[j..]) == WatchList(s, dir, listing)
      {
        assert listing[j..][0] == listing[j] && listing[j..][1..] == listing[j + 1..];
        if Split(pathname) <= listing[j] {
          SplitJoin(listing[j]);
          TraverseTree(Join(listing[j]));
        }
        j := j + 1;
      }
      assert listing[j..] == [];
    }

    /** The old descriptor is closed, and with it go its watches and the events still queued. */
    method StartAgain()
      requires Valid()
      modifies this`wlCache, this`kernel, this`pending
      ensures Valid() && pending == [] && Abs() == Blank(old(Abs()))
    {
      hide View, Split, RootPaths, Zapped;
      ViewOfNone();
      wlCache, pending := [], [];
      kernel := kernel.(watch := map[], next := 1);
    }

    method Reinitialize()
      requires Valid()
      modifies this`wlCache, this`kernel, this`pending
      ensures Valid() && pending == [] && Abs() == S.Reinitialize(old(Abs()))
    {
      hide View, Split, ValidSlots, Zapped, S.WatchSubtree, Blank, ValidKernel;
      ghost var roots := RootPaths(rootDirPaths);
      StartAgain();
      ghost var s := Abs();
      var j := 0;
      while j < |rootDirPaths|
        invariant 0 <= j <= |rootDirPaths| && Valid() && pending == []
        invariant WatchRoots(Abs(), roots[j..]) == WatchRoots(s, roots)
      {
        assert roots[j..][0] == RootPath(rootDirPaths[j]) && roots[j..][1..] == roots[j + 1..];
        if rootDirPaths[j].Some? { WatchSubtree(rootDirPaths[j].value); }
        j := j + 1;
      }
      assert roots[j..] == [];
    }

    // ---- renamed and removed subtrees -------------------------------------------------------

    method RewriteCachedPaths(oldPathPrefix: string, oldName: string, newPathPrefix: string, newName: string)
      requires Valid() && Plain(oldName) && Plain(newName)
      modifies this`wlCache
      ensures Valid() && |wlCache| == |old(wlCache)|
      ensures Abs() == Rewrite(old(Abs()), Split(oldPathPrefix) + [oldName], Split(newPathPrefix) + [newName])
      ensures forall i :: 0 <= i < |wlCache| ==> wlCache[i].wd == old(wlCache)[i].wd
    {
      var fullPath := oldPathPrefix + "/" + oldName;
      var newPrefix := newPathPrefix + "/" + newName;
      SplitChild(oldPathPrefix, oldName);
      SplitChild(newPathPrefix, newName);
      hide View, Split, RootPaths, Zapped;
      var j := 0;
      while j < |wlCache|
        invariant 0 <= j <= |wlCache| && |wlCache| == |old(wlCache)|
        invariant forall i :: 0 <= i < j ==> wlCache[i] == RewriteSlot(old(wlCache)[i], fullPath, newPrefix)
        invariant forall i :: j <= i < |wlCache| ==> wlCache[i] == old(wlCache)[i]
      {
        var slot := wlCache[j];
        if ByteTest(fullPath, slot.path) {
          wlCache := wlCache[j := Slot(slot.wd, newPrefix + slot.path[|fullPath|..])];
        }
        j := j + 1;
      }
      RewriteView(old(wlCache), wlCache, fullPath, newPrefix);
    }

    /** inotify_rm_watch fails for a descriptor that the kernel does not have. */
    method InotifyRmWatch(wd: int) returns (ok: bool)
      requires Valid()
      modifies this`kernel
      ensures Valid() && (ok <==> wd in KernelWds(old(kernel)))
      ensures kernel == if ok then DropWds(old(kernel), {wd}) else old(kernel)
      ensures kernel.listing == old(kernel.listing)
    {
      ok := wd in KernelWds(kernel);
      if ok { kernel := DropWds(kernel, {wd}); }
    }

    /** The text behind a path argument, as it is now. */
    function Text(arg: PathArg): string
      requires arg.CachedAt? ==> arg.slot < |wlCache|
      reads this
    {
      match arg
      case Own(text) => text
      case CachedAt(slot) => wlCache[slot].path
    }

    /** The argument may be a string inside the cache, which the scan itself clears; hence the copy. */
    method ZapSubtree(path: PathArg) returns (cnt: int)
      requires Valid() && (path.CachedAt? ==> path.slot < |wlCache|)
      modifies this`wlCache, this`kernel
      ensures Valid() && kernel.listing == old(kernel.listing) && |wlCache| == |old(wlCache)|
      ensures -1 <= cnt
      ensures cnt >= 0 <==> S.ZapSubtree(old(Abs()), Split(old(Text(path)))).Some?
      ensures cnt >= 0 ==> Abs() == S.ZapSubtree(old(Abs()), Split(old(Text(path)))).value
      ensures cnt >= 0 ==> cnt == |Below(old(Abs()).view, Split(old(Text(path))))|
    {
      hide View, Split, RootPaths, Zapped, ValidSlots, ValidKernel, Fits, ByteTest, Zapping, S.ZapSubtree;
      hide Below, DropWds, KernelWds;
      var pn := Text(path);
      ghost var slots, s, dir := wlCache, Abs(), Split(pn);
      ghost var gone: set<int> := {};
      ZapStarts(s, slots, dir);
      cnt := 0;
      var j := 0;
      while j < |wlCache|
        invariant 0 <= j <= |wlCache| && |wlCache| == |slots| && Valid()
        invariant forall i :: j <= i < |slots| ==> wlCache[i] == slots[i]
        invariant Zapping(s, Abs(), slots, dir, j, gone)
        invariant cnt == |gone| && kernel.listing == s.kernel.listing
      {
        var wd := wlCache[j].wd;
        ByteTestIsComponentPrefix(pn, slots[j].path);
        if wd >= 0 && ByteTest(pn, wlCache[j].path) {
          ZapTakes(s, Abs(), slots, dir, j, gone);
          var ok := InotifyRmWatch(wd);
          if !ok { return -1; }
          MarkCacheSlotEmpty(j);
          gone := gone + {wd};
          cnt := cnt + 1;
        } else {
          ZapSkips(s, Abs(), slots, dir, j, gone);
        }
        j := j + 1;
      }
      ZapEnds(s, Abs(), slots, dir, gone);
    }

    // ---- events -----------------------------------------------------------------------------

    method OnNewDirectory(slot: nat, ev: Event)
      requires Valid() && WellFormed(ev) && slot < |wlCache|
      requires ev.wd in Abs().view && Abs().view[ev.wd] == Split(wlCache[slot].path)
      modifies this`wlCache, this`kernel
      ensures Valid() && Abs() == S.OnNewDirectory(old(Abs()), ev)
    {
      hide View, Split, RootPaths, Zapped, ValidSlots, ValidKernel, S.WatchSubtree;
      var fullPath := wlCache[slot].path + "/" + ev.name;
      SplitChild(wlCache[slot].path, ev.name);
      var cached := PathnameInCache(fullPath);
      if !cached { WatchSubtree(fullPath); }
    }

    method OnDeleteSelf(slot: nat, ev: Event)
      requires Valid() && running && slot < |wlCache| && wlCache[slot].wd == ev.wd && 0 <= ev.wd
      requires ev.wd in Abs().view && Abs().view[ev.wd] == Split(wlCache[slot].path)
      modifies this`wlCache, this`rootDirPaths, this`ignoreRootDirs, this`running
      ensures Valid() && Abs() == S.OnDeleteSelf(old(Abs()), ev)
    {
      hide View, Split, RootPaths, Zapped, ValidSlots, ValidKernel, ZapRoot;
      var root := FindRootDirPath(wlCache[slot].path);
      if root >= 0 {
        ZapRootDirPath(wlCache[slot].path);
        if !running { return; }
      }
      MarkCacheSlotEmpty(slot);
    }

    /** zapSubtree, and a rebuild when it fails. */
    method ZapOrRebuild(path: PathArg) returns (ok: bool)
      requires Valid() && (path.CachedAt? ==> path.slot < |wlCache|)
      modifies this`wlCache, this`kernel, this`pending
      ensures Valid()
      ensures var r := OrRebuild(old(Abs()), S.ZapSubtree(old(Abs()), Split(old(Text(path)))));
        Abs() == r.0 && r.1 == (if ok then S.Events(1) else Everything)
      ensures pending == if ok then old(pending) else []
    {
      hide View, Split, RootPaths, Zapped, ValidSlots, ValidKernel, S.ZapSubtree, S.Reinitialize;
      ghost var s := Abs();
      var cnt := ZapSubtree(path);
      ok := cnt != -1;
      if !ok {
        RebuildForgets(s, Abs());
        Reinitialize();
      }
    }

    method OnMovedFrom(buf: seq<Event>, bufSize: int, firstTry: bool, slot: nat) returns (evLen: int)
      requires Valid() && running && buf != [] && Fits(buf) && slot < |wlCache|
      requires bufSize == Bytes(buf) || (|buf| == 1 && bufSize == Bytes(buf) - 1)
      requires 0 <= buf[0].wd && buf[0].wd in Abs().view && Abs().view[buf[0].wd] == Split(wlCache[slot].path)
      modifies this`wlCache, this`kernel, this`pending
      ensures Valid()
      ensures var r := S.OnMovedFrom(old(Abs()), buf, firstTry);
        && Abs() == r.0 && evLen == Length(buf, r.1)
        && pending == if r.1.Everything? then [] else old(pending)
    {
      hide View, Split, RootPaths, Zapped, ValidSlots, ValidKernel, S.ZapSubtree, S.Reinitialize, Rewrite, Bytes;
      var ev := buf[0];
      evLen := Size(ev);
      BytesOfFirst(buf);
      SplitChild(wlCache[slot].path, ev.name);
      if evLen < bufSize && IsPair(ev, buf[1]) {
        var nextEv := buf[1];
        assert WellFormed(nextEv);
        var nextSlot := FindWatch(nextEv.wd);
        if nextSlot == -1 {
          Reinitialize();
          return READ_BUF_LEN;
        }
        RewriteCachedPaths(wlCache[slot].path, ev.name, wlCache[nextSlot].path, nextEv.name);
        evLen := evLen + Size(nextEv);
      } else if evLen < bufSize || !firstTry {
        var ok := ZapOrRebuild(Own(wlCache[slot].path + "/" + ev.name));
        if !ok { return READ_BUF_LEN; }
      } else {
        return -1;
      }
    }

    method OnMoveSelf(slot: nat, ev: Event) returns (ok: bool)
      requires Valid() && running && slot < |wlCache| && IsRoot(Abs(), Split(wlCache[slot].path))
      modifies this
      ensures Valid()
      ensures var r := OnRootMoved(old(Abs()), Split(old(wlCache[slot].path)));
        Abs() == r.0 && r.1 == (if ok then S.Events(1) else Everything)
      ensures pending == if ok then old(pending) else []
    {
      hide View, Split, RootPaths, Zapped, ValidSlots, ValidKernel, ZapRoot, OrRebuild, S.ZapSubtree;
      ZapRootDirPath(wlCache[slot].path);
      if !running { return true; }
      ok := ZapOrRebuild(CachedAt(slot));
    }

    /** Handles the event at the start of buf; bufSize is what the caller says is left of the buffer. */
    method ProcessNextInotifyEvent(buf: seq<Event>, bufSize: int, firstTry: bool) returns (evLen: int)
      requires Valid() && running && buf != [] && Fits(buf)
      requires bufSize == Bytes(buf) || (|buf| == 1 && bufSize == Bytes(buf) - 1)
      modifies this
      ensures Valid()
      ensures var r := Next(old(Abs()), buf, firstTry);
        && Abs() == r.0 && evLen == Length(buf, r.1)
        && pending == (if r.1.Everything? then [] else old(pending))
        && DirTreeHandler.NextMeans(old(Abs()), buf, firstTry, Abs(), r.1)
    {
      hide View, Split, RootPaths, Zapped, ValidSlots, ValidKernel, Bytes, DirTreeHandler.NextMeans;
      DirTreeHandler.HandlerMeans(Abs(), buf, firstTry);
      hide S.OnNewDirectory, S.OnDeleteSelf, S.OnMovedFrom, OnRootMoved, S.Reinitialize;
      var ev := buf[0];
      var slot := -1;
      BytesOfFirst(buf);
      if ev.wd != -1 && Ignored !in ev.mask {
        slot := FindWatch(ev.wd);
        if slot == -1 {
          Reinitialize();
          return READ_BUF_LEN;
        }
      }
      evLen := Size(ev);
      if IsDir in ev.mask && (Create in ev.mask || MovedTo in ev.mask) {
        OnNewDirectory(slot, ev);
      } else if DeleteSelf in ev.mask {
        OnDeleteSelf(slot, ev);
      } else if IsMovedFromDir(ev) {
        evLen := OnMovedFrom(buf, bufSize, firstTry, slot);
      } else if QOverflow in ev.mask {
        Reinitialize();
        evLen := READ_BUF_LEN;
      } else if Unmount in ev.mask {
        MarkCacheSlotEmpty(slot);
      } else if MoveSelf in ev.mask {
        var root := FindRootDirPath(wlCache[slot].path);
        if root >= 0 {
          var ok := OnMoveSelf(slot, ev);
          if !ok { return READ_BUF_LEN; }
        }
      }
    }

    /** read(2) on the inotify descriptor: some queued events, whole ones, at least one. */
    method Read(cap: int) returns (got: seq<Event>)
      requires Valid() && pending != [] && EVENT_HEADER + NAME_MAX + 1 <= cap
      modifies this`pending
      ensures Valid() && Fits(got) && got != [] && got + pending == old(pending) && Bytes(got) <= cap
    {
      hide Bytes;
      BytesOfFirst(pending);
      assert 1 <= 1 <= |pending| && Bytes(pending[..1]) <= cap;
      var k :| 1 <= k <= |pending| && Bytes(pending[..k]) <= cap;
      got, pending := pending[..k], pending[k..];
    }

    /** The second read, limited to two milliseconds: nothing when it is interrupted. When prompt holds it
        is interrupted only if no event is queued. */
    method SecondRead(cap: int, prompt: bool) returns (got: seq<Event>)
      requires Valid() && EVENT_HEADER + NAME_MAX + 1 <= cap
      modifies this`pending
      ensures Valid() && Fits(got) && got + pending == old(pending) && Bytes(got) <= cap
      ensures prompt && got == [] ==> pending == []
    {
      var interrupted :| (pending == [] ==> interrupted) && (prompt && interrupted ==> pending == []);
      if interrupted {
        got := [];
      } else {
        got := Read(cap);
      }
    }

    /** One pass of the event loop. cnt is the size of the first read. rest holds the events at evp that are
        still in the buffer; an interrupted second read leaves numRead one byte short. calls counts the calls
        of the handler. */
    method ProcessInotifyEvents(cnt: int, prompt: bool)
      returns (taken: seq<Event>, calls: nat, ghost rebuilt: bool)
      requires Valid() && running && pending != []
      requires EVENT_HEADER + NAME_MAX + 1 <= cnt <= READ_BUF_LEN
      modifies this
      ensures Valid() && |pending| < |old(pending)|
      ensures AllWellFormed(pending) && AllWellFormed(old(pending))
      ensures prompt ==> HandleAll(Abs(), pending) == HandleAll(old(Abs()), old(pending))
      ensures Leads(Abs(), pending, old(Abs()), old(pending))
      ensures taken <= old(pending)
      ensures !rebuilt && running ==> taken + pending == old(pending)
      ensures rebuilt ==> pending == [] && DirTreeSync.Accurate(Abs())
      ensures calls <= |taken| + Awaiting(taken)
    {
      hide View, Split, RootPaths, Zapped, ValidSlots, ValidKernel, Next, Bytes, HandleAll, DropBytes, Length, Fits;
      hide InLoop, AllWellFormed, WellFormed, Awaiting, Leads, DirTreeSync.Accurate, DirTreeHandler.NextMeans;
      FitsWellFormed(pending);
      ghost var s, all := Abs(), pending;
      var rest := Read(cnt);
      var numRead, evp, firstTry := Bytes(rest), 0, true;
      taken, calls, rebuilt := [], 0, false;
      LoopStarts(s, rest, pending, all, prompt);
      while running && evp < numRead
        invariant Valid() && |pending| < |all|
        invariant InLoop(Abs(), rest, pending, numRead - evp, firstTry, taken, calls, rebuilt, s, all, prompt)
        decreases |rest| + |pending|, firstTry
      {
        ghost var before, tail := Abs(), pending;
        LoopReady(before, rest, tail, numRead - evp, firstTry, taken, calls, rebuilt, s, all, prompt);
        var evLen := ProcessNextInotifyEvent(rest, numRead - evp, firstTry);
        if evLen > 0 {
          LoopAdvances(before, rest, tail, numRead - evp, firstTry, taken, calls, rebuilt, s, all, prompt);
          var next := DropBytes(rest, evLen);
          taken := taken + rest[..|rest| - |next|];
          rebuilt := Next(before, rest, firstTry).1.Everything?;
          rest, evp, firstTry := next, evp + evLen, true;
        } else {
          LoopHangs(before, rest, tail, numRead - evp, firstTry, taken, calls, rebuilt, s, all, prompt);
          firstTry, numRead := false, numRead - evp;
          var got := SecondRead(READ_BUF_LEN - numRead, prompt);
          LoopRefills(before, rest, got, pending, numRead, taken, calls, rebuilt, s, all, prompt);
          numRead := numRead + (if got == [] then -1 else Bytes(got));
          rest, evp := rest + got, 0;
        }
        calls := calls + 1;
      }
      LoopEnds(Abs(), rest, pending, numRead - evp, firstTry, taken, calls, rebuilt, s, all, prompt);
    }

    /** Passes of the event loop until nothing is queued. However the reads cut the stream, the outcome is
        that of the whole stream seen at once; or, where second reads came too late, of the stream in which
        events may have been handled without the next one in sight. */
    method DrainQueue(cnt: int, prompt: bool)
      requires Valid() && EVENT_HEADER + NAME_MAX + 1 <= cnt <= READ_BUF_LEN
      modifies this
      ensures Valid() && AllWellFormed(old(pending)) && (running ==> pending == [])
      ensures prompt ==> Abs() == HandleAll(old(Abs()), old(pending))
      ensures HandlesTo(old(Abs()), old(pending), Abs())
    {
      hide View, Split, RootPaths, Zapped, ValidSlots, ValidKernel, HandleAll, Fits, AllWellFormed, Leads, HandlesTo;
      FitsWellFormed(pending);
      LeadsSelf(Abs(), pending);
      while running && pending != []
        invariant Valid() && AllWellFormed(pending)
        invariant prompt ==> HandleAll(Abs(), pending) == HandleAll(old(Abs()), old(pending))
        invariant Leads(Abs(), pending, old(Abs()), old(pending))
        decreases |pending|
      {
        ghost var before, queued := Abs(), pending;
        var taken, calls, rebuilt := ProcessInotifyEvents(cnt, prompt);
        LeadsOn(Abs(), pending, before, queued, old(Abs()), old(pending));
      }
      Settled(Abs(), pending);
      LeadsHere(Abs(), pending, old(Abs()), old(pending));
    }
  }
}
