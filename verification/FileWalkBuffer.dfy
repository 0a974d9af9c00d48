/** The walk itself: one global buffer holds the current pathname, and the recursion extends and cuts it. */
module FileWalkBuffer {
  import opened FileWalk
  import FileWalkOrder

  class Walker {
    /** What the callback returns for each call; myfunc returns 0 for all. */
    const func: Call -> int

    var fullpath: array<char>
    var pathlen: nat
    var log: seq<Call>
    var nreg: nat
    var ndir: nat
    var nblk: nat
    var nchr: nat
    var nfifo: nat
    var nslink: nat
    var nsock: nat

    ghost predicate Counted()
      reads this
    {
      && nreg == Tally(log, FtwF(Reg)) && ndir == Tally(log, FtwD) && nblk == Tally(log, FtwF(Blk))
      && nchr == Tally(log, FtwF(Chr)) && nfifo == Tally(log, FtwF(Fifo)) && nslink == Tally(log, FtwF(Link))
      && nsock == Tally(log, FtwF(Sock))
    }

    ghost predicate Valid()
      reads this
    {
      fullpath.Length == pathlen && POSIX_PATH_MAX <= pathlen && Counted()
    }

    /** The buffer holds this string and its terminator. */
    ghost predicate Holds(s: string)
      reads this, fullpath
    {
      CString(s) && |s| < fullpath.Length && fullpath[..|s|] == s && fullpath[|s|] == '\0'
    }

    ghost predicate StartsWith(s: string)
      reads this, fullpath
    {
      |s| <= fullpath.Length && fullpath[..|s|] == s
    }

    /** size is what path_alloc provides. */
    constructor (func: Call -> int, size: nat)
      requires POSIX_PATH_MAX <= size
      ensures Valid() && this.func == func && log == [] && fresh(fullpath) && pathlen == size
    {
      this.func := func;
      fullpath := new char[size](_ => '\0');
      pathlen := size;
      log := [];
      nreg, ndir, nblk, nchr, nfifo, nslink, nsock := 0, 0, 0, 0, 0, 0, 0;
    }

    method StrLen(ghost s: string) returns (n: nat)
      requires Holds(s)
      ensures n == |s|
    {
      n := 0;
      while fullpath[n] != '\0'
        invariant 0 <= n <= |s|
        decreases |s| - n
      {
        assert fullpath[n] == s[n];
        n := n + 1;
      }
    }

    /** strcpy to the address at: the buffer must have room for the string and its terminator. */
    method StrCpy(at: nat, s: string)
      requires at + |s| < fullpath.Length && CString(s)
      modifies fullpath
      ensures fullpath[..at] == old(fullpath[..at])
      ensures fullpath[at..at + |s|] == s && fullpath[at + |s|] == '\0'
    {
      var i := 0;
      while i < |s|
        invariant 0 <= i <= |s|
        invariant fullpath[..at] == old(fullpath[..at]) && fullpath[at..at + i] == s[..i]
      {
        fullpath[at + i] := s[i];
        i := i + 1;
      }
      fullpath[at + i] := '\0';
    }

    /** realloc to the given size keeps what was there. */
    method Realloc(size: nat)
      requires fullpath.Length <= size && fullpath.Length == pathlen
      modifies this`fullpath, this`pathlen
      ensures fresh(fullpath) && fullpath.Length == pathlen == size
      ensures fullpath[..old(fullpath.Length)] == old(fullpath[..])
    {
      var bigger := new char[size](_ => '\0');
      var from, i := fullpath, 0;
      while i < from.Length
        invariant 0 <= i <= from.Length && bigger[..i] == from[..i]
        modifies bigger
      {
        bigger[i] := from[i];
        i := i + 1;
      }
      fullpath, pathlen := bigger, size;
    }

    /** The callback: counts the object under its type. */
    method MyFunc(ghost s: string, flag: Flag) returns (ret: int)
      requires Valid() && Holds(s)
      modifies this`log, this`nreg, this`ndir, this`nblk, this`nchr, this`nfifo, this`nslink, this`nsock
      ensures Valid() && log == old(log) + [Call(s, flag)] && ret == func(Call(s, flag))
    {
      var n := StrLen(s);
      var c := Call(fullpath[..n], flag);
      TallyEach(log, c);
      log := log + [c];
      match flag {
        case FtwF(kind) =>
          match kind {
            case Reg => nreg := nreg + 1;
            case Blk => nblk := nblk + 1;
            case Chr => nchr := nchr + 1;
            case Fifo => nfifo := nfifo + 1;
            case Link => nslink := nslink + 1;
            case Sock => nsock := nsock + 1;
          }
        case FtwD => ndir := ndir + 1;
        case FtwDnr =>
        case FtwNs =>
      }
      ret := func(c);
    }

    /** Doubling once leaves room for the slash, any entry name and the terminator. */
    method AppendSlash(ghost path: string) returns (n: nat)
      requires Valid() && Holds(path)
      modifies this`fullpath, this`pathlen, fullpath
      ensures Valid() && (fullpath == old(fullpath) || fresh(fullpath)) && old(pathlen) <= pathlen
      ensures n == |path| + 1 && n + NAME_MAX + 1 <= pathlen && Holds(path + "/")
    {
      n := StrLen(path);
      if n + NAME_MAX + 2 > pathlen {
        ghost var before := fullpath[..];
        Realloc(pathlen * 2);
        assert fullpath[..n] == before[..n];
      }
      fullpath[n] := '/';
      n := n + 1;
      fullpath[n] := '\0';
    }

    /** Walks the object that the kernel finds at the pathname in the buffer. Whatever happens below, the
        caller's pathname is still at the start of the buffer afterwards. */
    method DoPath(ghost path: string, node: Node) returns (ret: int)
      requires Valid() && Holds(path) && ValidNode(node)
      modifies this, fullpath
      ensures Valid() && (fullpath == old(fullpath) || fresh(fullpath)) && old(pathlen) <= pathlen
      ensures StartsWith(path)
      ensures log == old(log) + UpTo(Calls(path, node), func) && ret == Verdict(Calls(path, node), func)
      ensures FileWalkOrder.Walked(log[|old(log)|..], path, node, func, ret)
      decreases node, 1
    {
      hide UpTo, Verdict, Tally, CallsIn, FileWalkOrder.Walked;
      FileWalkOrder.WalkIs(path, node, func);
      match node {
        case Unstatable =>
          UpToOne(Call(path, FtwNs), func);
          ret := MyFunc(path, FtwNs);
        case File(kind) =>
          UpToOne(Call(path, FtwF(kind)), func);
          ret := MyFunc(path, FtwF(kind));
        case Dir(readable, entries) =>
          UpToOne(Call(path, FtwD), func);
          ret := MyFunc(path, FtwD);
          UpToAppend([Call(path, FtwD)], Below(path, node), func);
          if ret == 0 { ret := DoDirectory(path, node); }
      }
      assert log[|old(log)|..] == UpTo(Calls(path, node), func);
    }

    method DoDirectory(ghost path: string, node: Node) returns (ret: int)
      requires Valid() && Holds(path) && node.Dir? && ValidNode(node)
      modifies this, fullpath
      ensures Valid() && (fullpath == old(fullpath) || fresh(fullpath)) && old(pathlen) <= pathlen
      ensures StartsWith(path)
      ensures log == old(log) + UpTo(Below(path, node), func) && ret == Verdict(Below(path, node), func)
      decreases node, 0, 1
    {
      hide UpTo, Verdict, Tally, CallsIn;
      var n := AppendSlash(path);
      if !node.readable {
        UpToOne(Call(path + "/", FtwDnr), func);
        ret := MyFunc(path + "/", FtwDnr);
        assert fullpath[..|path|] == (path + "/")[..|path|];
      } else {
        ret := DoEntries(path, node, n);
        fullpath[n - 1] := '\0';
        assert fullpath[..|path|] == (path + "/")[..|path|];
      }
    }

    method DoChild(ghost prefix: string, name: string, node: Node, n: nat) returns (ret: int)
      requires Valid() && StartsWith(prefix) && n == |prefix| && n + NAME_MAX + 1 <= pathlen && CString(prefix)
      requires CString(name) && |name| <= NAME_MAX && ValidNode(node)
      modifies this, fullpath
      ensures Valid() && (fullpath == old(fullpath) || fresh(fullpath)) && old(pathlen) <= pathlen
      ensures StartsWith(prefix)
      ensures log == old(log) + UpTo(Calls(prefix + name, node), func)
      ensures ret == Verdict(Calls(prefix + name, node), func)
      decreases node, 2
    {
      hide UpTo, Verdict, Tally, CallsIn, Calls, FileWalkOrder.Walked;
      StrCpy(n, name);
      assert fullpath[..|prefix + name|] == prefix + name;
      ret := DoPath(prefix + name, node);
      assert fullpath[..n] == (prefix + name)[..n];
    }

    /** The readdir loop of one directory; n is where the names of its entries go. */
    method DoEntries(ghost path: string, node: Node, n: nat) returns (ret: int)
      requires Valid() && StartsWith(path + "/") && n == |path| + 1 && n + NAME_MAX + 1 <= pathlen && CString(path)
      requires node.Dir? && ValidNode(node)
      modifies this, fullpath
      ensures Valid() && (fullpath == old(fullpath) || fresh(fullpath)) && old(pathlen) <= pathlen
      ensures StartsWith(path + "/")
      ensures log == old(log) + UpTo(CallsIn(path + "/", node.entries), func)
      ensures ret == Verdict(CallsIn(path + "/", node.entries), func)
      decreases node, 0, 0
    {
      hide UpTo, Verdict, Tally, CallsIn, Calls;
      ghost var prefix, all := path + "/", node.entries;
      NoCalls(prefix, func);
      ret := 0;
      var i := 0;
      while i < |node.entries|
        invariant 0 <= i <= |node.entries| && ret == 0
        invariant Valid() && (fullpath == old(fullpath) || fresh(fullpath)) && old(pathlen) <= pathlen
        invariant StartsWith(prefix)
        invariant log == old(log) + UpTo(CallsIn(prefix, all[..i]), func)
        invariant Verdict(CallsIn(prefix, all[..i]), func) == 0
      {
        OneMore(prefix, all, i, func);
        if node.entries[i].Child? {
          ret := DoChild(prefix, node.entries[i].name, node.entries[i].node, n);
          if ret != 0 {
            StopsEarly(prefix, all, i, func);
            return;
          }
        }
        i := i + 1;
      }
      assert all[..i] == all;
    }

    method MyFtw(pathname: string, node: Node) returns (ret: int)
      requires Valid() && CString(pathname) && ValidNode(node)
      modifies this, fullpath
      ensures Valid() && log == old(log) + UpTo(Calls(pathname, node), func)
      ensures ret == Verdict(Calls(pathname, node), func) && StartsWith(pathname)
      ensures FileWalkOrder.Walked(log[|old(log)|..], pathname, node, func, ret)
    {
      hide FileWalkOrder.Walked, Calls, UpTo, Verdict;
      if pathlen <= |pathname| { Realloc(|pathname| * 2); }
      StrCpy(0, pathname);
      assert fullpath[..|pathname|] == fullpath[0..0 + |pathname|];
      ghost var before := log;
      ret := DoPath(pathname, node);
      assert log[|before|..] == UpTo(Calls(pathname, node), func);
    }

    /** The total that main prints: 1 stands in for an empty count. */
    method CountAll(pathname: string, node: Node) returns (ntot: nat)
      requires Valid() && log == [] && func == (_ => 0) && CString(pathname) && ValidNode(node)
      modifies this, fullpath
      ensures log == Calls(pathname, node)
      ensures ntot == if Statable(node) == 0 then 1 else Statable(node)
    {
      hide Calls, Statable, UpTo, Verdict;
      UpToAll(Calls(pathname, node));
      var ret := MyFtw(pathname, node);
      TotalCalls(pathname, node);
      ntot := nreg + ndir + nblk + nchr + nfifo + nslink + nsock;
      if ntot == 0 { ntot := 1; }
    }
  }

  ghost function Below(path: string, node: Node): seq<Call>
    requires node.Dir?
  {
    if node.readable then CallsIn(path + "/", node.entries) else [Call(path + "/", FtwDnr)]
  }

  lemma NoCalls(prefix: string, f: Call -> int)
    ensures UpTo(CallsIn(prefix, []), f) == [] && Verdict(CallsIn(prefix, []), f) == 0
  {
  }

  lemma OneMore(prefix: string, all: seq<Entry>, i: nat, f: Call -> int)
    requires i < |all| && Verdict(CallsIn(prefix, all[..i]), f) == 0
    ensures var mine := if all[i].Child? then Calls(prefix + all[i].name, all[i].node) else [];
      && UpTo(CallsIn(prefix, all[..i + 1]), f) == UpTo(CallsIn(prefix, all[..i]), f) + UpTo(mine, f)
      && Verdict(CallsIn(prefix, all[..i + 1]), f) == Verdict(mine, f)
      && (!all[i].Child? ==> UpTo(mine, f) == [] && Verdict(mine, f) == 0)
  {
    var mine := if all[i].Child? then Calls(prefix + all[i].name, all[i].node) else [];
    assert all[..i + 1] == all[..i] + [all[i]];
    CallsInAppend(prefix, all[..i], [all[i]]);
    assert CallsIn(prefix, [all[i]]) == mine;
    UpToAppend(CallsIn(prefix, all[..i]), mine, f);
  }

  lemma StopsEarly(prefix: string, all: seq<Entry>, i: nat, f: Call -> int)
    requires i < |all| && Verdict(CallsIn(prefix, all[..i + 1]), f) != 0
    ensures UpTo(CallsIn(prefix, all), f) == UpTo(CallsIn(prefix, all[..i + 1]), f)
    ensures Verdict(CallsIn(prefix, all), f) == Verdict(CallsIn(prefix, all[..i + 1]), f)
  {
    hide CallsIn, UpTo, Verdict;
    assert all == all[..i + 1] + all[i + 1..];
    CallsInAppend(prefix, all[..i + 1], all[i + 1..]);
    UpToAppend(CallsIn(prefix, all[..i + 1]), CallsIn(prefix, all[i + 1..]), f);
  }

  lemma TallyEach(log: seq<Call>, c: Call)
    ensures forall flag :: Tally(log + [c], flag) == Tally(log, flag) + (if c.flag == flag then 1 else 0)
  {
    forall flag
      ensures Tally(log + [c], flag) == Tally(log, flag) + (if c.flag == flag then 1 else 0)
    {
      TallyAppend(log, [c], flag);
      TallyOne(c, flag);
    }
  }
}
