/** One pass of the poll server over its table of descriptors, which closed sessions leave while it runs. */
module PollLoop {
  import opened Tables

  const MAX_FD_SOCKET := 0xff

  /** revents as the bits that the loop looks at, and whether any further bit is set. */
  datatype PollFd = PollFd(fd: int, pollin: bool, pollerr: bool, pollnval: bool, other: bool)

  predicate Ready(p: PollFd) {
    p.pollin || p.pollerr || p.pollnval || p.other
  }

  function ReadyCount(t: seq<PollFd>): nat {
    if t == [] then 0 else (if Ready(t[0]) then 1 else 0) + ReadyCount(t[1..])
  }

  ghost predicate Distinct(t: seq<PollFd>) {
    forall i, j :: 0 <= i < j < |t| ==> t[i].fd != t[j].fd
  }

  /** The loop from index i on, with ret events still to be accounted for: the table it leaves and the
      descriptors on which it called recv. */
  function Pass(t: seq<PollFd>, i: nat, ret: int, recv: int -> Recv): (seq<PollFd>, seq<int>)
    decreases |t| - i
  {
    if i >= |t| || ret <= 0 then (t, [])
    else if t[i].pollin then
      var (t', served) := if recv(t[i].fd).Closed? then Pass(SwapRemove(t, i), i, ret - 1, recv)
                          else Pass(t, i + 1, ret - 1, recv);
      (t', [t[i].fd] + served)
    else Pass(t, i + 1, if t[i].pollerr || t[i].pollnval then ret - 1 else ret, recv)
  }

  /** The entry is one that the pass closes. */
  predicate Closing(p: PollFd, recv: int -> Recv) {
    p.pollin && recv(p.fd).Closed?
  }

  /** The plain form: recv on every readable descriptor, and the table without the closed sessions. */
  ghost predicate ServedAll(t: seq<PollFd>, i: nat, recv: int -> Recv, t': seq<PollFd>, served: seq<int>)
    requires i <= |t|
  {
    && (forall fd :: fd in served <==> exists k :: i <= k < |t| && t[k].pollin && t[k].fd == fd)
    && NoRepeat(served)
    && i <= |t'| && t'[..i] == t[..i]
    && Distinct(t')
    && (forall e :: e in t'[i..] <==> e in t[i..] && !Closing(e, recv))
  }

  lemma {:induction false} ReadyCountPositive(t: seq<PollFd>, k: nat)
    requires k < |t| && Ready(t[k])
    ensures ReadyCount(t) > 0
  {
    if k > 0 { ReadyCountPositive(t[1..], k - 1); }
  }

  lemma {:induction false} ReadyCountAppend(a: seq<PollFd>, b: seq<PollFd>)
    ensures ReadyCount(a + b) == ReadyCount(a) + ReadyCount(b)
  {
    if a == [] {
      assert a + b == b;
    } else {
      assert (a + b)[1..] == a[1..] + b;
      ReadyCountAppend(a[1..], b);
    }
  }

  lemma SwapRemoveRest(t: seq<PollFd>, i: nat)
    requires i < |t| && Distinct(t)
    ensures var t' := SwapRemove(t, i);
      && |t'| == |t| - 1 && t'[..i] == t[..i] && Distinct(t')
      && ReadyCount(t'[i..]) == ReadyCount(t[i..]) - (if Ready(t[i]) then 1 else 0)
      && (forall e :: e in t'[i..] <==> e in t[i..] && e != t[i])
  {
    var t', n := SwapRemove(t, i), |t| - 1;
    assert t[i..] == [t[i]] + t[i + 1..];
    if i < n {
      assert t[i + 1..] == t[i + 1..n] + [t[n]];
      assert t'[i..] == [t[n]] + t[i + 1..n];
      ReadyCountAppend(t[i + 1..n], [t[n]]);
      ReadyCountAppend([t[n]], t[i + 1..n]);
    }
  }

  lemma NothingReady(t: seq<PollFd>, i: nat, recv: int -> Recv)
    requires Distinct(t) && i <= |t| && ReadyCount(t[i..]) == 0
    ensures ServedAll(t, i, recv, t, [])
  {
    forall k | i <= k < |t|
      ensures !t[k].pollin
    {
      if Ready(t[k]) { ReadyCountPositive(t[i..], k - i); }
    }
    forall e | e in t[i..]
      ensures !Closing(e, recv)
    {
      var k :| 0 <= k < |t[i..]| && t[i..][k] == e;
      assert t[i + k] == e;
    }
  }

  /** The entry at i is passed over or served, and stays. */
  lemma StepKeeps(t: seq<PollFd>, i: nat, recv: int -> Recv, t': seq<PollFd>, served: seq<int>)
    requires Distinct(t) && i < |t| && ServedAll(t, i + 1, recv, t', served) && !Closing(t[i], recv)
    ensures ServedAll(t, i, recv, t', if t[i].pollin then [t[i].fd] + served else served)
  {
    assert t[i..] == [t[i]] + t[i + 1..];
    assert t'[i] == t'[..i + 1][i] == t[..i + 1][i] == t[i];
    assert t'[i..] == [t[i]] + t'[i + 1..];
    assert t'[..i] == t'[..i + 1][..i] == t[..i + 1][..i] == t[..i];
    var all := if t[i].pollin then [t[i].fd] + served else served;
    forall fd
      ensures fd in all <==> exists k :: i <= k < |t| && t[k].pollin && t[k].fd == fd
    {
      if fd in served { var k :| i + 1 <= k < |t| && t[k].pollin && t[k].fd == fd; }
    }
    assert t[i].fd !in served;
    NoRepeatAppend([t[i].fd], served);
  }

  lemma AtFrom(t: seq<PollFd>, i: nat, e: PollFd) returns (k: int)
    requires i <= |t| && e in t[i..]
    ensures i <= k < |t| && t[k] == e
  {
    var j :| 0 <= j < |t[i..]| && t[i..][j] == e;
    k := i + j;
  }

  /** The entry at i is served, closed, and its place is looked at again. */
  lemma StepCloses(t: seq<PollFd>, i: nat, recv: int -> Recv, t': seq<PollFd>, served: seq<int>)
    requires Distinct(t) && i < |t| && ServedAll(SwapRemove(t, i), i, recv, t', served) && Closing(t[i], recv)
    ensures ServedAll(t, i, recv, t', [t[i].fd] + served)
  {
    var u := SwapRemove(t, i);
    SwapRemoveRest(t, i);
    hide SwapRemove;
    forall fd
      ensures fd in served <==> exists k :: i < k < |t| && t[k].pollin && t[k].fd == fd
    {
      if fd in served {
        var k :| i <= k < |u| && u[k].pollin && u[k].fd == fd;
        assert u[k] == u[i..][k - i];
        var j := AtFrom(t, i, u[k]);
      }
      if k :| i < k < |t| && t[k].pollin && t[k].fd == fd {
        assert t[k] == t[i..][k - i];
        var j := AtFrom(u, i, t[k]);
      }
    }
    NoRepeatAppend([t[i].fd], served);
  }

  /** Despite the swaps and the early exit, one pass serves every readable descriptor from i on exactly once
      and removes exactly the closed sessions. */
  lemma {:induction false} PassServes(t: seq<PollFd>, i: nat, ret: int, recv: int -> Recv)
    requires Distinct(t) && i <= |t| && ReadyCount(t[i..]) <= ret
    ensures ServedAll(t, i, recv, Pass(t, i, ret, recv).0, Pass(t, i, ret, recv).1)
    decreases |t| - i
  {
    hide ServedAll;
    if i == |t| || ret <= 0 {
      NothingReady(t, i, recv);
    } else {
      assert t[i..] == [t[i]] + t[i + 1..];
      if Closing(t[i], recv) {
        SwapRemoveRest(t, i);
        PassServes(SwapRemove(t, i), i, ret - 1, recv);
        StepCloses(t, i, recv, Pass(SwapRemove(t, i), i, ret - 1, recv).0, Pass(SwapRemove(t, i), i, ret - 1, recv).1);
      } else {
        var ret' := if t[i].pollin || t[i].pollerr || t[i].pollnval then ret - 1 else ret;
        PassServes(t, i + 1, ret', recv);
        StepKeeps(t, i, recv, Pass(t, i + 1, ret', recv).0, Pass(t, i + 1, ret', recv).1);
      }
    }
  }

  class Server {
    const pollfds: array<PollFd>
    var cnt: nat

    ghost predicate Valid()
      reads this, pollfds
    {
      pollfds.Length == MAX_FD_SOCKET && cnt <= MAX_FD_SOCKET && Distinct(Table())
    }

    ghost function Table(): seq<PollFd>
      requires cnt <= pollfds.Length
      reads this, pollfds
    {
      pollfds[..cnt]
    }

    constructor ()
      ensures Valid() && Table() == [] && fresh(pollfds)
    {
      pollfds := new PollFd[MAX_FD_SOCKET](_ => PollFd(-1, false, false, false, false));
      cnt := 0;
    }

    /** The new entry keeps the stale revents of its slot until the next poll. */
    method AddSocket(fd: int) returns (r: int)
      requires Valid() && forall k :: 0 <= k < cnt ==> pollfds[k].fd != fd
      modifies this, pollfds
      ensures Valid()
      ensures if old(cnt) < MAX_FD_SOCKET
              then r == cnt == old(cnt) + 1 && Table()[..old(cnt)] == old(Table()) && Table()[old(cnt)].fd == fd
              else r == -1 && Table() == old(Table())
    {
      if cnt < MAX_FD_SOCKET {
        pollfds[cnt] := pollfds[cnt].(fd := fd);
        cnt := cnt + 1;
        r := cnt;
      } else {
        r := -1;
      }
    }

    /** The first entry with the descriptor is replaced by the last one. */
    method DelSocket(fd: int) returns (r: int)
      requires Valid()
      modifies this, pollfds
      ensures Valid()
      ensures if exists k :: 0 <= k < old(cnt) && old(pollfds[k].fd) == fd
              then 0 <= r < old(cnt) == cnt + 1 && old(pollfds[r].fd) == fd && Table() == SwapRemove(old(Table()), r)
              else r == -1 && Table() == old(Table())
    {
      var i := 0;
      while i < cnt
        invariant 0 <= i <= cnt
        invariant forall k :: 0 <= k < i ==> pollfds[k].fd != fd
      {
        if pollfds[i].fd == fd {
          ghost var t := Table();
          assert t[i].fd == fd;
          SwapRemoveRest(t, i);
          if i != cnt - 1 { pollfds[i] := pollfds[cnt - 1]; }
          pollfds[cnt - 1] := pollfds[cnt - 1].(fd := -1);
          cnt := cnt - 1;
          assert Table() == SwapRemove(t, i);
          return i;
        }
        i := i + 1;
      }
      return -1;
    }

    /** The body of the serving loop at index i, with ret events left: the index and the count it goes on with. */
    method ServeOne(i: nat, ret: int, recv: int -> Recv) returns (next: nat, left: int, got: seq<int>)
      requires Valid() && 1 <= i < cnt && ret > 0
      modifies this, pollfds
      ensures Valid() && 1 <= next <= cnt && cnt - next < old(cnt) - i
      ensures Pass(Table(), next, left, recv).0 == Pass(old(Table()), i, ret, recv).0
      ensures got + Pass(Table(), next, left, recv).1 == Pass(old(Table()), i, ret, recv).1
    {
      hide Distinct, SwapRemove, Pass;
      ghost var t := Table();
      var p := pollfds[i];
      PassStep(t, i, ret, recv);
      next, left, got := i, ret, [];
      if p.pollin {
        got := [p.fd];
        if recv(p.fd).Closed? {
          var r := DelSocket(p.fd);
          OnlyOne(t, r, i);
          next := next - 1;
        }
        left := left - 1;
      } else if p.pollerr {
        left := left - 1;
      } else if p.pollnval {
        left := left - 1;
      }
      next := next + 1;
    }

    /** The serving loop, after a poll that found the listener not readable. */
    method Serve(retPoll: int, recv: int -> Recv) returns (served: seq<int>)
      requires Valid() && cnt > 0 && !pollfds[0].pollin && retPoll == ReadyCount(Table())
      modifies this, pollfds
      ensures Valid() && cnt > 0 && pollfds[0] == old(pollfds[0])
      ensures ServedAll(old(Table()), 1, recv, Table(), served)
    {
      ghost var t0 := Table();
      assert t0 == [t0[0]] + t0[1..];
      PassServes(t0, 1, retPoll, recv);
      hide ServedAll, Distinct, ReadyCount, Pass;
      ghost var all := Pass(t0, 1, retPoll, recv);
      var i, ret := 1, retPoll;
      served := [];
      while i < cnt && ret > 0
        invariant Valid() && 1 <= i && i <= cnt
        invariant Pass(Table(), i, ret, recv).0 == all.0
        invariant served + Pass(Table(), i, ret, recv).1 == all.1
        decreases cnt - i
      {
        var next, left, got := ServeOne(i, ret, recv);
        ghost var rest := Pass(Table(), next, left, recv).1;
        assert served + got + rest == served + (got + rest);
        i, ret, served := next, left, served + got;
      }
      PassEnds(Table(), i, ret, recv);
      assert served + [] == served;
      FirstStays(t0, Table(), served, recv);
    }
  }

  lemma OnlyOne(t: seq<PollFd>, r: int, i: int)
    requires Distinct(t) && 0 <= r < |t| && 0 <= i < |t| && t[r].fd == t[i].fd
    ensures r == i
  {
  }

  lemma PassStep(t: seq<PollFd>, i: nat, ret: int, recv: int -> Recv)
    requires i < |t| && ret > 0
    ensures var p := t[i]; var all := Pass(t, i, ret, recv);
      if p.pollin then
        var rest := if Closing(p, recv) then Pass(SwapRemove(t, i), i, ret - 1, recv)
                    else Pass(t, i + 1, ret - 1, recv);
        all == (rest.0, [p.fd] + rest.1) && all.1[1..] == rest.1
      else all == Pass(t, i + 1, if p.pollerr || p.pollnval then ret - 1 else ret, recv)
  {
  }

  lemma PassEnds(t: seq<PollFd>, i: nat, ret: int, recv: int -> Recv)
    requires i >= |t| || ret <= 0
    ensures Pass(t, i, ret, recv) == (t, [])
  {
  }

  lemma FirstStays(t: seq<PollFd>, t': seq<PollFd>, served: seq<int>, recv: int -> Recv)
    requires t != [] && ServedAll(t, 1, recv, t', served)
    ensures t' != [] && t'[0] == t[0]
  {
  }
}
