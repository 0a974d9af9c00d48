/** The table that pairs each session's socket with its timer, beside the set of descriptors watched by epoll. */
module SessionTable {
  import opened Options
  import opened Tables

  const GROW := 16
  const ENOENT := 2
  const FDSESSION_DEFAULT_TIMEOUT := 30

  datatype Session = Session(socketfd: int, timerfd: int, timeout: int)

  /** Sockets and timers are in one-to-one correspondence and no descriptor is both. */
  ghost predicate Paired(a: set<Session>) {
    && (forall x, y :: x in a && y in a && (x.socketfd == y.socketfd || x.timerfd == y.timerfd) ==> x == y)
    && (forall x, y :: x in a && y in a ==> x.socketfd != y.timerfd)
  }

  ghost function Sockets(a: set<Session>): set<int> {
    set x | x in a :: x.socketfd
  }

  ghost function Timers(a: set<Session>): set<int> {
    set x | x in a :: x.timerfd
  }

  lemma RemovePair(a: set<Session>, x: Session)
    requires Paired(a) && x in a
    ensures Paired(a - {x})
    ensures Sockets(a - {x}) == Sockets(a) - {x.socketfd} && Timers(a - {x}) == Timers(a) - {x.timerfd}
  {
  }

  lemma AddPair(a: set<Session>, x: Session)
    requires Paired(a) && x.socketfd != x.timerfd
    requires x.socketfd !in Sockets(a) + Timers(a) && x.timerfd !in Sockets(a) + Timers(a)
    ensures Paired(a + {x})
    ensures Sockets(a + {x}) == Sockets(a) + {x.socketfd} && Timers(a + {x}) == Timers(a) + {x.timerfd}
  {
  }

  ghost function Rows(s: seq<Session>): set<Session> {
    set x | x in s
  }

  lemma SwapRemoveRows(s: seq<Session>, i: nat)
    requires i < |s| && NoRepeat(s)
    ensures NoRepeat(SwapRemove(s, i)) && Rows(SwapRemove(s, i)) == Rows(s) - {s[i]}
  {
    var t, n := SwapRemove(s, i), |s| - 1;
    forall x | x in s && x != s[i]
      ensures x in t
    {
      var k :| 0 <= k < |s| && s[k] == x;
      assert t[if k == n then i else k] == x;
    }
  }

  class Sessions {
    /** fds_list: the allocated slots, of which the first nUsed are in use. */
    var list: seq<Session>
    var nUsed: nat
    /** The epoll interest set, and the descriptors in it that have no timer (the listener). */
    var interest: set<int>
    ghost var plain: set<int>
    /** The descriptors that are open; a new descriptor is always one that is not. */
    var open: set<int>
    /** The timers that have been started, or started anew. */
    var armed: set<int>

    ghost function Table(): set<Session>
      reads this
      requires nUsed <= |list|
    {
      Rows(list[..nUsed])
    }

    ghost predicate ValidTable()
      reads this
    {
      nUsed <= |list| && NoRepeat(list[..nUsed]) && Paired(Table())
    }

    ghost predicate Valid()
      reads this
    {
      && ValidTable()
      && interest == plain + Sockets(Table()) + Timers(Table())
      && plain !! Sockets(Table()) + Timers(Table())
      && interest <= open
    }

    constructor ()
      ensures Valid() && Table() == {} && interest == {} && plain == {} && armed == {}
    {
      list, nUsed, interest, plain, open, armed := [], 0, {}, {}, {}, {};
    }

    method FindBySocketFd(fd: int) returns (i: int)
      requires ValidTable()
      ensures -1 <= i < nUsed
      ensures i >= 0 <==> fd in Sockets(Table())
      ensures i >= 0 ==> list[i] in Table() && list[i].socketfd == fd
    {
      i := 0;
      while i < nUsed
        invariant 0 <= i <= nUsed
        invariant forall k :: 0 <= k < i ==> list[k].socketfd != fd
      {
        if list[i].socketfd == fd {
          assert list[..nUsed][i] in list[..nUsed];
          return;
        }
        i := i + 1;
      }
      i := -1;
    }

    method FindByTimerFd(fd: int) returns (i: int)
      requires ValidTable()
      ensures -1 <= i < nUsed
      ensures i >= 0 <==> fd in Timers(Table())
      ensures i >= 0 ==> list[i] in Table() && list[i].timerfd == fd
    {
      i := 0;
      while i < nUsed
        invariant 0 <= i <= nUsed
        invariant forall k :: 0 <= k < i ==> list[k].timerfd != fd
      {
        if list[i].timerfd == fd {
          assert list[..nUsed][i] in list[..nUsed];
          return;
        }
        i := i + 1;
      }
      i := -1;
    }

    method NewTimerFd(socketfd: int, timeout: int, timerfd: int)
      requires nUsed <= |list|
      modifies this`list, this`nUsed
      ensures nUsed == old(nUsed) + 1 <= |list|
      ensures list[..nUsed] == old(list[..nUsed]) + [Session(socketfd, timerfd, timeout)]
    {
      if |list| == nUsed { list := list + seq(GROW, _ => Session(0, 0, 0)); }
      list := list[nUsed := Session(socketfd, timerfd, timeout)];
      nUsed := nUsed + 1;
    }

    /** Starts the timer of the session in this slot. */
    method SetTimerFd(i: nat)
      requires i < |list|
      modifies this`armed
      ensures armed == old(armed) + {list[i].timerfd}
    {
      armed := armed + {list[i].timerfd};
    }

    method DeleteByTimerFd(timerfd: int) returns (err: int)
      requires ValidTable()
      modifies this`list, this`nUsed
      ensures ValidTable()
      ensures if timerfd in Timers(old(Table()))
              then err == 0 && nUsed == old(nUsed) - 1
                && exists x :: x in old(Table()) && x.timerfd == timerfd && Table() == old(Table()) - {x}
              else err == ENOENT && Table() == old(Table())
    {
      var i := FindByTimerFd(timerfd);
      if i < 0 { return ENOENT; }
      ghost var s, x := list[..nUsed], list[i];
      SwapRemoveRows(s, i);
      RemovePair(Rows(s), x);
      if i != nUsed - 1 { list := list[i := list[nUsed - 1]]; }
      list := list[nUsed - 1 := list[nUsed - 1].(socketfd := -1, timerfd := -1)];
      nUsed := nUsed - 1;
      assert list[..nUsed] == SwapRemove(s, i);
      err := 0;
    }

    /** Watches fd and, with a timeout, gives it a timer; timerfd is the number timerfd_create would return. */
    method AddEv(fd: int, timeout: int, timerfd: int) returns (ret: int)
      requires Valid() && fd in open && timerfd !in open
      modifies this
      ensures Valid()
      ensures if fd in old(interest) then
                && ret == -1 && Table() == old(Table()) && interest == old(interest) && open == old(open)
                && armed == old(armed)
              else if timeout > 0 then
                && ret == 0 && Table() == old(Table()) + {Session(fd, timerfd, timeout)}
                && armed == old(armed) + {timerfd}
                && interest == old(interest) + {fd, timerfd} && open == old(open) + {timerfd} && plain == old(plain)
              else
                && ret == 0 && Table() == old(Table()) && interest == old(interest) + {fd} && armed == old(armed)
                && open == old(open) && plain == old(plain) + {fd}
    {
      hide Paired;
      if fd in interest { return -1; }
      interest := interest + {fd};
      if timeout > 0 {
        ghost var s, x := list[..nUsed], Session(fd, timerfd, timeout);
        NewTimerFd(fd, timeout, timerfd);
        assert list[..nUsed][nUsed - 1] == x;
        SetTimerFd(nUsed - 1);
        open := open + {timerfd};
        AddPair(Rows(s), x);
        AppendRow(s, x);
        interest := interest + {timerfd};
      } else {
        plain := plain + {fd};
      }
      ret := 0;
    }

    /** Stops watching fd and closes it, with its timer. Given a timer instead of a socket, it would leave a
        session behind whose timer is gone. */
    method DelEv(fd: int) returns (ret: int)
      requires Valid()
      modifies this
      ensures ValidTable() && (Valid() <==> fd !in Timers(old(Table()))) && plain <= old(plain) <= plain + {fd}
      ensures armed == old(armed)
      ensures if fd !in old(interest) then
                ret == ENOENT && Table() == old(Table()) && interest == old(interest) && open == old(open)
              else if fd in Sockets(old(Table())) then
                && ret == 0
                && exists x :: x in old(Table()) && x.socketfd == fd && Table() == old(Table()) - {x}
                     && interest == old(interest) - {fd, x.timerfd} && open == old(open) - {fd, x.timerfd}
              else
                ret == -1 && Table() == old(Table()) && interest == old(interest) - {fd}
    {
      if fd !in interest { return ENOENT; }
      interest, open, plain := interest - {fd}, open - {fd}, plain - {fd};
      var i := FindBySocketFd(fd);
      if i < 0 { return -1; }
      ghost var a, x := Table(), list[i];
      RemovePair(a, x);
      var timerfd := list[i].timerfd;
      interest, open := interest - {timerfd}, open - {timerfd};
      assert timerfd in Timers(a);
      ret := DeleteByTimerFd(timerfd);
      hide Paired, NoRepeat, Rows;
      assert Table() == a - {x};
    }
  }

  /** One element of the array that epoll_wait fills in: readable or not, how many connections the listener
      would accept, and what recv would give while the descriptor is open. */
  datatype Ready = Ready(fd: int, epollin: bool, connections: nat, recv: Recv)

  /** Nothing that was watched when epoll_wait returned has turned into something else since. */
  ghost predicate Steady(m: Sessions, batch: seq<Ready>)
    reads m
  {
    forall k :: 0 <= k < |batch| ==> batch[k].fd in m.interest || batch[k].fd !in m.open
  }

  /** A session made while the batch is handled: none of its descriptors is in the batch. */
  ghost predicate New(x: Session, batch: seq<Ready>) {
    && x.timeout == FDSESSION_DEFAULT_TIMEOUT
    && forall k :: 0 <= k < |batch| ==> batch[k].fd != x.socketfd && batch[k].fd != x.timerfd
  }

  /** The table has n sessions more, all of them new. */
  ghost predicate Grown(before: set<Session>, now: set<Session>, added: set<Session>, n: nat, batch: seq<Ready>) {
    && now == before + added && added !! before && |added| == n
    && forall x :: x in added ==> New(x, batch)
  }

  /** The event ends the session: its timer has expired, or its peer has closed the connection. */
  predicate Ends(e: Ready, x: Session) {
    e.epollin && (e.fd == x.timerfd || (e.fd == x.socketfd && e.recv.Closed?))
  }

  /** The event brings data of the session. */
  predicate Heard(e: Ready, x: Session) {
    e.epollin && e.fd == x.socketfd && e.recv.Data?
  }

  ghost predicate HeardFrom(x: Session, batch: seq<Ready>) {
    exists k :: 0 <= k < |batch| && Heard(batch[k], x)
  }

  ghost predicate Ended(x: Session, batch: seq<Ready>) {
    exists k :: 0 <= k < |batch| && Ends(batch[k], x)
  }

  function Accepted(listener: int, batch: seq<Ready>): nat {
    if batch == [] then 0
    else
      var e := batch[|batch| - 1];
      Accepted(listener, batch[..|batch| - 1]) + if e.epollin && e.fd == listener then e.connections else 0
  }

  /** The sessions after the first i events: of those before, the ones that no event has ended, and one new session
      for each accepted connection. */
  ghost predicate Served(listener: int, batch: seq<Ready>, i: nat, before: set<Session>, now: set<Session>)
    requires i <= |batch|
  {
    && (forall x :: x in before ==> (x in now <==> !Ended(x, batch[..i])))
    && (forall x :: x in now && x !in before ==> New(x, batch))
    && |now - before| == Accepted(listener, batch[..i])
  }

  /** Of the sessions before that are still there, those that sent data had their timers started anew, and no other;
      every new session had its timer started. */
  ghost predicate Timed(batch: seq<Ready>, i: nat, before: set<Session>, now: set<Session>, armed: set<int>,
                        armed': set<int>)
    requires i <= |batch|
  {
    && (forall x :: x in before && x in now ==>
          (x.timerfd in armed' <==> x.timerfd in armed || HeardFrom(x, batch[..i])))
    && (forall x :: x in now && x !in before ==> x.timerfd in armed')
  }

  lemma HeardMore(x: Session, batch: seq<Ready>, i: nat)
    requires i < |batch|
    ensures HeardFrom(x, batch[..i + 1]) <==> HeardFrom(x, batch[..i]) || Heard(batch[i], x)
  {
    if HeardFrom(x, batch[..i]) {
      var k :| 0 <= k < i && Heard(batch[..i][k], x);
      assert Heard(batch[..i + 1][k], x);
    }
    if Heard(batch[i], x) { assert Heard(batch[..i + 1][i], x); }
  }

  lemma NothingTimed(batch: seq<Ready>, a: set<Session>, armed: set<int>)
    ensures Timed(batch, 0, a, a, armed, armed)
  {
  }

  /** An event without data of a session, after which perhaps fewer sessions are there. */
  lemma TimedSame(batch: seq<Ready>, i: nat, before: set<Session>, now: set<Session>, now': set<Session>,
                  armed: set<int>, armed': set<int>)
    requires i < |batch| && Timed(batch, i, before, now, armed, armed') && now' <= now
    requires forall x :: x in now' ==> !Heard(batch[i], x)
    ensures Timed(batch, i + 1, before, now', armed, armed')
  {
    hide HeardFrom, Heard;
    forall x { HeardMore(x, batch, i); }
  }

  lemma TimedHears(batch: seq<Ready>, i: nat, before: set<Session>, now: set<Session>, armed: set<int>,
                   armed': set<int>, y: Session)
    requires i < |batch| && Timed(batch, i, before, now, armed, armed') && Paired(now) && y in now && Heard(batch[i], y)
    ensures Timed(batch, i + 1, before, now, armed, armed' + {y.timerfd})
  {
    hide HeardFrom;
    forall x { HeardMore(x, batch, i); }
    assert forall x :: x in now && x.socketfd == y.socketfd ==> x == y;
    assert forall x :: x in now && x.timerfd == y.timerfd ==> x == y;
  }

  lemma TimedAccepts(batch: seq<Ready>, i: nat, before: set<Session>, now: set<Session>, added: set<Session>,
                     armed: set<int>, armed': set<int>)
    requires i < |batch| && Timed(batch, i, before, now, armed, armed') && Paired(now + added) && added !! now
    requires added !! before
    requires forall x :: x in now ==> !Heard(batch[i], x)
    ensures Timed(batch, i + 1, before, now + added, armed, armed' + Timers(added))
  {
    hide HeardFrom, Heard;
    forall x { HeardMore(x, batch, i); }
    assert forall x :: x in now ==> x.timerfd !in Timers(added);
  }

  lemma NothingServed(listener: int, batch: seq<Ready>, a: set<Session>)
    ensures Served(listener, batch, 0, a, a)
  {
    assert a - a == {};
  }

  lemma EndedMore(x: Session, batch: seq<Ready>, i: nat)
    requires i < |batch|
    ensures Ended(x, batch[..i + 1]) <==> Ended(x, batch[..i]) || Ends(batch[i], x)
  {
    if Ended(x, batch[..i]) {
      var k :| 0 <= k < i && Ends(batch[..i][k], x);
      assert Ends(batch[..i + 1][k], x);
    }
    if Ends(batch[i], x) { assert Ends(batch[..i + 1][i], x); }
  }

  lemma AcceptedMore(listener: int, batch: seq<Ready>, i: nat)
    requires i < |batch|
    ensures var e := batch[i];
      Accepted(listener, batch[..i + 1])
      == Accepted(listener, batch[..i]) + if e.epollin && e.fd == listener then e.connections else 0
  {
    assert batch[..i + 1][..i] == batch[..i];
  }

  /** An event that ends no session of the table leaves it alone. */
  lemma ServedSame(listener: int, batch: seq<Ready>, i: nat, before: set<Session>, now: set<Session>)
    requires i < |batch| && Served(listener, batch, i, before, now)
    requires !(batch[i].epollin && batch[i].fd == listener) && forall x :: x in now ==> !Ends(batch[i], x)
    ensures Served(listener, batch, i + 1, before, now)
  {
    hide Ended, Ends, Accepted;
    AcceptedMore(listener, batch, i);
    forall x { EndedMore(x, batch, i); }
  }

  lemma ServedEnds(listener: int, batch: seq<Ready>, i: nat, before: set<Session>, now: set<Session>, x: Session)
    requires i < |batch| && Served(listener, batch, i, before, now) && Paired(before)
    requires batch[i].fd != listener && x in now && Ends(batch[i], x)
    ensures Served(listener, batch, i + 1, before, now - {x})
  {
    hide Ended, Accepted;
    AcceptedMore(listener, batch, i);
    assert x in before;
    forall y
      ensures y in before ==> (Ended(y, batch[..i + 1]) <==> Ended(y, batch[..i]) || y == x)
    {
      EndedMore(y, batch, i);
    }
    assert now - {x} - before == now - before;
  }

  lemma ServedAccepts(listener: int, batch: seq<Ready>, i: nat, before: set<Session>, now: set<Session>,
                      now': set<Session>, added: set<Session>)
    requires i < |batch| && Served(listener, batch, i, before, now)
    requires listener !in Sockets(before) + Timers(before) && batch[i].epollin && batch[i].fd == listener
    requires Grown(now, now', added, batch[i].connections, batch)
    ensures Served(listener, batch, i + 1, before, now')
  {
    AcceptedMore(listener, batch, i);
    forall x | x in before
      ensures x !in added && (Ended(x, batch[..i + 1]) <==> Ended(x, batch[..i]))
    {
      EndedMore(x, batch, i);
      assert x.socketfd in Sockets(before) && x.timerfd in Timers(before);
      if Ended(x, batch[..i]) { var k :| 0 <= k < i && Ends(batch[..i][k], x); assert batch[..i][k] == batch[k]; }
    }
    assert now' - before == (now - before) + added;
  }

  ghost predicate Covers(taken: set<int>, batch: seq<Ready>) {
    forall k :: 0 <= k < |batch| ==> batch[k].fd in taken
  }

  /** One accepted connection; its socket and its timer get numbers that are not taken. */
  method AcceptOne(m: Sessions, taken: set<int>, ghost batch: seq<Ready>)
    returns (failed: bool, ghost x: Session, taken': set<int>)
    requires m.Valid() && Steady(m, batch) && m.open <= taken && Covers(taken, batch)
    modifies m
    ensures m.Valid() && Steady(m, batch) && !failed && m.plain == old(m.plain) && taken <= taken'
    ensures old(m.open) <= m.open <= taken'
    ensures m.Table() == old(m.Table()) + {x} && x !in old(m.Table()) && New(x, batch)
    ensures m.armed == old(m.armed) + {x.timerfd}
  {
    hide Paired, NoRepeat, Rows;
    var fd := Unused(taken);
    var timerfd := Unused(taken + {fd});
    taken' := taken + {fd, timerfd};
    m.open := m.open + {fd};
    x := Session(fd, timerfd, FDSESSION_DEFAULT_TIMEOUT);
    NotInTable(m.Table(), x);
    var ret := m.AddEv(fd, FDSESSION_DEFAULT_TIMEOUT, timerfd);
    failed := ret == -1;
  }

  lemma NotGrown(a: set<Session>, batch: seq<Ready>)
    ensures Grown(a, a, {}, 0, batch)
  {
  }

  lemma GrownMore(before: set<Session>, now: set<Session>, added: set<Session>, n: nat, batch: seq<Ready>, x: Session)
    requires Grown(before, now, added, n, batch) && x !in now && New(x, batch)
    ensures Grown(before, now + {x}, added + {x}, n + 1, batch)
  {
    hide New;
  }

  /** The accept loop: new sockets and timers get numbers that are not open and not in the batch. */
  method AcceptAll(m: Sessions, n: nat, batch: seq<Ready>) returns (failed: bool, ghost added: set<Session>)
    requires m.Valid() && Steady(m, batch)
    modifies m
    ensures m.Valid() && Steady(m, batch) && !failed && m.plain == old(m.plain) && old(m.open) <= m.open
    ensures Grown(old(m.Table()), m.Table(), added, n, batch) && m.armed == old(m.armed) + Timers(added)
  {
    hide Paired, NoRepeat, Rows, Steady, Grown, Sockets, Timers;
    failed, added := false, {};
    NotGrown(m.Table(), batch);
    NoTimers();
    var taken := m.open + set k | 0 <= k < |batch| :: batch[k].fd;
    var i := 0;
    while i < n
      invariant 0 <= i <= n && m.Valid() && Steady(m, batch) && !failed && m.plain == old(m.plain)
      invariant old(m.open) <= m.open <= taken && Covers(taken, batch)
      invariant Grown(old(m.Table()), m.Table(), added, i, batch) && m.armed == old(m.armed) + Timers(added)
    {
      ghost var x: Session;
      ghost var now := m.Table();
      failed, x, taken := AcceptOne(m, taken, batch);
      GrownMore(old(m.Table()), now, added, i, batch, x);
      TimersMore(added, x);
      added := added + {x};
      i := i + 1;
    }
  }

  lemma TimersMore(a: set<Session>, x: Session)
    ensures Timers(a + {x}) == Timers(a) + {x.timerfd}
  {
  }

  lemma NoTimers()
    ensures Timers({}) == {}
  {
  }

  lemma NotInTable(a: set<Session>, x: Session)
    requires x.socketfd !in Sockets(a)
    ensures x !in a
  {
  }

  method Unused(taken: set<int>) returns (fd: int)
    ensures fd !in taken
  {
    AlwaysUnused(taken);
    fd :| fd !in taken;
  }

  lemma AlwaysUnused(taken: set<int>)
    ensures exists fd: int :: fd !in taken
  {
    var max := 0;
    var rest := taken;
    while rest != {}
      invariant rest <= taken && forall x :: x in taken && x !in rest ==> x < max
    {
      var x := Pick(rest);
      rest, max := rest - {x}, if x < max then max else x + 1;
    }
    assert max !in taken;
  }

  lemma SocketIsNoTimer(a: set<Session>, fd: int)
    requires Paired(a) && fd in Sockets(a)
    ensures fd !in Timers(a)
  {
  }

  /** The session of the expired timer or of the closed socket goes, and no other. */
  method EndSession(m: Sessions, fd: int, ghost batch: seq<Ready>) returns (failed: bool, ghost x: Session)
    requires m.Valid() && Steady(m, batch) && fd in Sockets(m.Table())
    modifies m
    ensures m.Valid() && Steady(m, batch) && m.plain == old(m.plain) && !failed && m.armed == old(m.armed)
    ensures x in old(m.Table()) && x.socketfd == fd && m.Table() == old(m.Table()) - {x}
  {
    hide Paired, NoRepeat, Rows;
    SocketIsNoTimer(m.Table(), fd);
    ghost var a := m.Table();
    var r := m.DelEv(fd);
    x :| x in a && x.socketfd == fd && m.Table() == a - {x};
    failed := r == -1;
  }

  /** Handles one batch of events: exactly the sessions whose timer expired or whose peer closed leave the table, and
      each accepted connection enters it. The table and the interest set stay in step, neither DEL_EV nor ADD_EV
      ends the program, and a session that sent data is always found. */
  method GetEpollEvent(m: Sessions, listener: int, batch: seq<Ready>) returns (ret: int, failed: bool)
    requires m.Valid() && m.plain == {listener}
    requires forall k :: 0 <= k < |batch| ==> batch[k].fd in m.interest
    modifies m
    ensures m.Valid() && m.plain == {listener} && ret == 0 && !failed
    ensures Served(listener, batch, |batch|, old(m.Table()), m.Table())
    ensures Timed(batch, |batch|, old(m.Table()), m.Table(), old(m.armed), m.armed)
  {
    hide Paired, NoRepeat, Rows, Served, Timed;
    ret, failed := 0, false;
    ghost var before, armed := m.Table(), m.armed;
    NothingServed(listener, batch, before);
    NothingTimed(batch, before, armed);
    var i := 0;
    while i < |batch|
      invariant 0 <= i <= |batch| && m.Valid() && m.plain == {listener} && Steady(m, batch) && ret == 0 && !failed
      invariant Served(listener, batch, i, before, m.Table()) && Timed(batch, i, before, m.Table(), armed, m.armed)
    {
      ret, failed := ServeEvent(m, listener, batch, i, before, armed);
      if failed || ret != 0 { return; }
      i := i + 1;
    }
  }

  /** The body of the loop over the batch. */
  method ServeEvent(m: Sessions, listener: int, batch: seq<Ready>, i: nat, ghost before: set<Session>,
                    ghost armed: set<int>)
    returns (ret: int, failed: bool)
    requires m.Valid() && m.plain == {listener} && Steady(m, batch) && i < |batch|
    requires Paired(before) && listener !in Sockets(before) + Timers(before)
    requires Served(listener, batch, i, before, m.Table()) && Timed(batch, i, before, m.Table(), armed, m.armed)
    modifies m
    ensures m.Valid() && m.plain == {listener} && Steady(m, batch) && ret == 0 && !failed
    ensures Served(listener, batch, i + 1, before, m.Table()) && Timed(batch, i + 1, before, m.Table(), armed, m.armed)
  {
    hide Paired, NoRepeat, Rows, Served, Grown, Timed;
    ret, failed := 0, false;
    var e := batch[i];
    ghost var now := m.Table();
    if e.epollin && e.fd == listener {
      ghost var added: set<Session>;
      failed, added := AcceptAll(m, e.connections, batch);
      ServedAccepts(listener, batch, i, before, now, m.Table(), added);
      AcceptTimes(m, listener, batch, i, before, now, added, armed, old(m.armed));
    } else if e.epollin {
      var k := m.FindByTimerFd(e.fd);
      ghost var x: Session;
      if k >= 0 {
        ghost var y := m.list[k];
        TimerOf(now, y);
        failed, x := EndSession(m, m.list[k].socketfd, batch);
        OneSession(now, x, y);
        NotHeard(now, e);
        ServedEnds(listener, batch, i, before, now, x);
        TimedSame(batch, i, before, now, m.Table(), armed, m.armed);
      } else if e.fd in m.open && e.recv.Closed? {
        failed, x := EndSession(m, e.fd, batch);
        ServedEnds(listener, batch, i, before, now, x);
        TimedSame(batch, i, before, now, m.Table(), armed, m.armed);
      } else if e.fd in m.open && e.recv.Data? {
        KeepsAll(m, e);
        ServedSame(listener, batch, i, before, now);
        var j := m.FindBySocketFd(e.fd);
        if j < 0 { return -1, false; }
        TimedHears(batch, i, before, now, armed, m.armed, m.list[j]);
        m.SetTimerFd(j);
      } else {
        KeepsAll(m, e);
        ServedSame(listener, batch, i, before, now);
        ClosedIsNotHeard(m, e);
        TimedSame(batch, i, before, now, now, armed, m.armed);
      }
    } else {
      ServedSame(listener, batch, i, before, now);
      TimedSame(batch, i, before, now, now, armed, m.armed);
    }
  }

  /** A timer brings no data. */
  lemma NotHeard(a: set<Session>, e: Ready)
    requires Paired(a) && e.fd in Timers(a)
    ensures forall x :: x in a ==> !Heard(e, x)
  {
  }

  /** Nor does a descriptor that is closed by now, nor an error. */
  lemma ClosedIsNotHeard(m: Sessions, e: Ready)
    requires m.Valid() && !(e.fd in m.open && e.recv.Data?)
    ensures forall x :: x in m.Table() ==> !Heard(e, x)
  {
    hide Paired, NoRepeat, Rows;
    forall x | x in m.Table() ensures !Heard(e, x) { TimerOf(m.Table(), x); }
  }

  lemma AcceptTimes(m: Sessions, listener: int, batch: seq<Ready>, i: nat, before: set<Session>, now: set<Session>,
                    added: set<Session>, armed: set<int>, armed': set<int>)
    requires m.Valid() && m.plain == {listener} && i < |batch| && batch[i].fd == listener
    requires Timed(batch, i, before, now, armed, armed') && Served(listener, batch, i, before, now)
    requires Grown(now, m.Table(), added, batch[i].connections, batch) && m.armed == armed' + Timers(added)
    ensures Timed(batch, i + 1, before, m.Table(), armed, m.armed)
  {
    assert added !! before;
    hide NoRepeat, Rows, Served, Timed;
    forall x | x in now
      ensures !Heard(batch[i], x)
    {
      TimerOf(m.Table(), x);
    }
    TimedAccepts(batch, i, before, now, added, armed, armed');
  }

  lemma TimerOf(a: set<Session>, x: Session)
    requires x in a
    ensures x.socketfd in Sockets(a) && x.timerfd in Timers(a)
  {
  }

  lemma OneSession(a: set<Session>, x: Session, y: Session)
    requires Paired(a) && x in a && y in a && x.socketfd == y.socketfd
    ensures x == y
  {
  }

  /** Data or an error on a socket, or anything on a descriptor that is closed by now, ends no session. */
  lemma KeepsAll(m: Sessions, e: Ready)
    requires m.Valid() && e.fd !in Timers(m.Table()) && !(e.fd in m.open && e.recv.Closed?)
    ensures forall x :: x in m.Table() ==> !Ends(e, x)
  {
    hide Paired, NoRepeat, Rows;
    forall x | x in m.Table() ensures !Ends(e, x) { TimerOf(m.Table(), x); }
  }

  lemma AppendRow(s: seq<Session>, x: Session)
    requires NoRepeat(s) && x !in s
    ensures NoRepeat(s + [x]) && Rows(s + [x]) == Rows(s) + {x}
  {
  }
}
