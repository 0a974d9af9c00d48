/** The producer and any number of consumers, step by step, over one mutex and one condition variable. */
module WorkQueueThreads {
  import opened Options
  import opened Tables
  import opened WorkQueue

  /** Who holds the mutex. */
  datatype Owner = Free | Producer | Consumer(tid: int)

  /** Inside push_item, room is the free space found when the lock was taken and i the items accepted so far. */
  datatype ProducerAt =
    | Reading
    | Locking(buf: seq<int>)
    | Pushing(buf: seq<int>, i: nat, room: nat)
    | Unlocking(buf: seq<int>, i: nat, room: nat)
    | Broadcasting

  datatype ConsumerAt = Entering | Checking | Popped | Waiting | Working

  /** accepted and popped record, in lock order, what has gone through the queue. */
  datatype System = System(ring: Ring, owner: Owner, producer: ProducerAt, consumers: map<int, ConsumerAt>,
                           accepted: seq<int>, popped: seq<int>)

  datatype Action =
    | Read(buf: seq<int>) | Lock | PushNext | Unlock | Broadcast
    | Enter(tid: int) | Take(tid: int) | Wait(tid: int) | Spurious(tid: int) | Leave(tid: int) | Again(tid: int)

  predicate At(s: System, tid: int, at: ConsumerAt) {
    tid in s.consumers && s.consumers[tid] == at
  }

  predicate Enabled(s: System, a: Action) {
    match a
    case Read(buf) => s.producer.Reading? && 1 <= |buf| <= MAX_ITEMS / 2
    case Lock => s.producer.Locking? && s.owner.Free?
    case PushNext => s.producer.Pushing?
    case Unlock => s.producer.Unlocking?
    case Broadcast => s.producer.Broadcasting?
    case Enter(t) => At(s, t, Entering) && s.owner.Free?
    case Take(t) => At(s, t, Checking) && s.ring.cnt > 0
    case Wait(t) => At(s, t, Checking) && s.ring.cnt <= 0
    case Spurious(t) => At(s, t, Waiting)
    case Leave(t) => At(s, t, Popped)
    case Again(t) => At(s, t, Working)
  }

  function Woken(consumers: map<int, ConsumerAt>): map<int, ConsumerAt> {
    map t | t in consumers :: if consumers[t].Waiting? then Entering else consumers[t]
  }

  function Moved(s: System, tid: int, at: ConsumerAt): System {
    s.(consumers := s.consumers[tid := at])
  }

  /** The broadcast is sent after the mutex is released; a waiter re-enters through the mutex. */
  function After(s: System, a: Action): System
    requires ValidRing(s.ring) && Enabled(s, a)
  {
    match a
    case Read(buf) => s.(producer := Locking(buf))
    case Lock => s.(producer := Pushing(s.producer.buf, 0, MAX_ITEMS - s.ring.cnt), owner := Producer)
    case PushNext =>
      var p := s.producer;
      if p.i < |p.buf| && s.ring.cnt < MAX_ITEMS
      then s.(ring := PushOne(s.ring, p.buf[p.i]), accepted := s.accepted + [p.buf[p.i]],
              producer := Pushing(p.buf, p.i + 1, p.room))
      else s.(producer := Unlocking(p.buf, p.i, p.room))
    case Unlock => s.(producer := Broadcasting, owner := Free)
    case Broadcast => s.(producer := Reading, consumers := Woken(s.consumers))
    case Enter(t) => Moved(s, t, Checking).(owner := Consumer(t))
    case Take(t) => Moved(s, t, Popped).(ring := Pop(s.ring), popped := s.popped + [Oldest(s.ring)])
    case Wait(t) => Moved(s, t, Waiting).(owner := Free)
    case Spurious(t) => Moved(s, t, Entering)
    case Leave(t) => Moved(s, t, Working).(owner := Free)
    case Again(t) => Moved(s, t, Entering)
  }

  predicate Init(s: System) {
    && ValidRing(s.ring) && s.ring.idx == 0 && s.ring.cnt == 0
    && s.owner.Free? && s.producer.Reading?
    && (forall t :: t in s.consumers ==> s.consumers[t].Entering?)
    && s.accepted == [] && s.popped == []
  }

  // ---- what every step keeps ----------------------------------------------------------------

  ghost predicate Exclusive(s: System) {
    && (s.owner.Producer? <==> s.producer.Pushing? || s.producer.Unlocking?)
    && (forall t :: (s.owner == Consumer(t)) <==> (At(s, t, Checking) || At(s, t, Popped)))
  }

  /** First in, first out, nothing lost and nothing invented. */
  ghost predicate InOrder(s: System) {
    ValidRing(s.ring) && s.accepted == s.popped + Contents(s.ring)
  }

  /** push_item accepts exactly as many items as there was room for. */
  ghost predicate RightCount(s: System) {
    && (s.producer.Pushing? || s.producer.Unlocking? ==>
          s.producer.i <= |s.producer.buf| && s.ring.cnt == MAX_ITEMS - s.producer.room + s.producer.i)
    && (s.producer.Unlocking? ==> s.producer.i == Min(|s.producer.buf|, s.producer.room))
  }

  /** The producer has put something in and not yet broadcast. */
  predicate AboutToBroadcast(s: System) {
    || (s.producer.Pushing? && s.producer.i > 0)
    || (s.producer.Unlocking? && s.producer.i > 0)
    || s.producer.Broadcasting?
  }

  ghost predicate NoLostWakeup(s: System) {
    forall t :: At(s, t, Waiting) && s.ring.cnt > 0 ==> AboutToBroadcast(s)
  }

  ghost predicate Inv(s: System) {
    Exclusive(s) && InOrder(s) && RightCount(s) && NoLostWakeup(s)
  }

  lemma InitInv(s: System)
    requires Init(s)
    ensures Inv(s)
  {
  }

  lemma StepExclusive(s: System, a: Action)
    requires Inv(s) && Enabled(s, a)
    ensures Exclusive(After(s, a))
  {
  }

  lemma StepInOrder(s: System, a: Action)
    requires Inv(s) && Enabled(s, a)
    ensures InOrder(After(s, a))
  {
  }

  lemma StepCounts(s: System, a: Action)
    requires Inv(s) && Enabled(s, a)
    ensures RightCount(After(s, a))
  {
  }

  lemma StepWakes(s: System, a: Action)
    requires Inv(s) && Enabled(s, a)
    ensures NoLostWakeup(After(s, a))
  {
    hide Contents;
    var s' := After(s, a);
    forall t | At(s', t, Waiting) && s'.ring.cnt > 0
      ensures AboutToBroadcast(s')
    {
      assert At(s, t, Waiting) || a == Wait(t);
    }
  }

  lemma StepInv(s: System, a: Action)
    requires Inv(s) && Enabled(s, a)
    ensures Inv(After(s, a))
  {
    hide Exclusive, InOrder, RightCount, NoLostWakeup, After, Enabled;
    StepExclusive(s, a);
    StepInOrder(s, a);
    StepCounts(s, a);
    StepWakes(s, a);
  }

  // ---- whole runs ---------------------------------------------------------------------------

  ghost predicate Steps(states: seq<System>, actions: seq<Action>) {
    && |states| == |actions| + 1
    && (forall i :: 0 <= i < |actions| ==>
          ValidRing(states[i].ring) && Enabled(states[i], actions[i]) && states[i + 1] == After(states[i], actions[i]))
  }

  ghost predicate Run(states: seq<System>, actions: seq<Action>) {
    Steps(states, actions) && Init(states[0])
  }

  /** Over every interleaving: the pops followed by the queue are what was accepted, each push takes what fits,
      and a blocked consumer with a non-empty queue means that a broadcast is on its way. */
  lemma {:induction false} RunInv(states: seq<System>, actions: seq<Action>)
    requires Run(states, actions)
    ensures forall i :: 0 <= i < |states| ==> Inv(states[i])
  {
    hide Inv, Enabled, After;
    InitInv(states[0]);
    var n := 0;
    while n < |actions|
      invariant 0 <= n <= |actions|
      invariant forall i :: 0 <= i <= n ==> Inv(states[i])
    {
      StepInv(states[n], actions[n]);
      n := n + 1;
    }
  }

  // ---- what was read is what is queued ------------------------------------------------------

  /** What the input actions amount to: the line read last, whether it still waits for its push, and the items that all
      pushes so far are to take. */
  datatype Input = Input(line: seq<int>, waiting: bool, taken: seq<int>)

  /** Each line read is pushed once, when the lock is taken: its first items, as many as there is free space. */
  ghost function InputAfter(h: Input, free: int, a: Action): Input {
    match a
    case Read(buf) => h.(line := buf, waiting := true)
    case Lock =>
      if h.waiting then
        var n := if |h.line| <= free then |h.line| else free;
        h.(waiting := false, taken := h.taken + if 0 <= n <= |h.line| then h.line[..n] else [])
      else h
    case _ => h
  }

  ghost function InputSoFar(states: seq<System>, actions: seq<Action>, n: nat): Input
    requires n <= |actions| <= |states|
  {
    if n == 0 then Input([], false, [])
    else InputAfter(InputSoFar(states, actions, n - 1), MAX_ITEMS - states[n - 1].ring.cnt, actions[n - 1])
  }

  /** The queue has accepted what it was to take; during a push, up to the items that are yet to be stored. */
  ghost predicate Accepts(s: System, h: Input) {
    && (s.producer.Locking? <==> h.waiting)
    && (s.producer.Locking? || s.producer.Pushing? || s.producer.Unlocking? ==> s.producer.buf == h.line)
    && if s.producer.Pushing? then
         var i, n := s.producer.i, Min(|h.line|, s.producer.room);
         0 <= i <= n && s.accepted + h.line[i..n] == h.taken
       else s.accepted == h.taken
  }

  lemma StepAccepts(s: System, h: Input, a: Action)
    requires Inv(s) && Accepts(s, h) && Enabled(s, a)
    ensures Accepts(After(s, a), InputAfter(h, MAX_ITEMS - s.ring.cnt, a))
  {
    hide Exclusive, NoLostWakeup, Contents;
    if a.PushNext? {
      var i, n := s.producer.i, Min(|h.line|, s.producer.room);
      if i < n { assert h.line[i..n] == [h.line[i]] + h.line[i + 1..n]; }
    }
  }

  /** In every run the consumers get, in order, the beginning of what the lines read were to give. */
  lemma {:induction false} RunAccepts(states: seq<System>, actions: seq<Action>, n: nat)
    requires Run(states, actions) && n <= |actions|
    ensures var h := InputSoFar(states, actions, n); Accepts(states[n], h) && states[n].popped <= h.taken
  {
    RunInv(states, actions);
    if n > 0 {
      hide Inv, Enabled, After, Accepts, InputAfter;
      RunAccepts(states, actions, n - 1);
      StepAccepts(states[n - 1], InputSoFar(states, actions, n - 1), actions[n - 1]);
    }
    PoppedFirst(states[n], InputSoFar(states, actions, n));
  }

  lemma PoppedFirst(s: System, h: Input)
    requires Inv(s) && Accepts(s, h)
    ensures s.popped <= h.taken
  {
    hide Exclusive, NoLostWakeup, Contents;
  }

  /** The threads' own steps: no new input and no spurious wake-up. */
  predicate Inner(a: Action) {
    !a.Read? && !a.Spurious?
  }

  /** While something is queued and there is a consumer, some thread can move without new input. */
  lemma NeverStuck(s: System, t: int) returns (a: Action)
    requires Inv(s) && s.ring.cnt > 0 && t in s.consumers
    ensures Enabled(s, a) && Inner(a)
  {
    hide InOrder;
    match s.owner {
      case Producer => a := if s.producer.Pushing? then PushNext else Unlock;
      case Consumer(u) => a := if s.consumers[u].Checking? then Take(u) else Leave(u);
      case Free =>
        if s.producer.Broadcasting? {
          a := Broadcast;
        } else if s.producer.Locking? {
          a := Lock;
        } else {
          assert !At(s, t, Waiting) && !At(s, t, Checking) && !At(s, t, Popped);
          a := if s.consumers[t].Entering? then Enter(t) else Again(t);
        }
    }
  }

  // ---- the queue is worked off --------------------------------------------------------------

  /** The steps that a consumer can make before it needs another item. */
  function Idle(at: ConsumerAt): nat {
    match at
    case Checking => 1
    case Entering => 2
    case Waiting => 2
    case Working => 3
    case Popped => 4
  }

  function IdleAll(consumers: map<int, ConsumerAt>, tids: seq<int>): nat
    requires forall i :: 0 <= i < |tids| ==> tids[i] in consumers
  {
    if tids == [] then 0
    else Idle(consumers[tids[0]]) + IdleAll(consumers, tids[1..])
  }

  /** What the producer has yet to do with the line it has read; an item pushed will be popped. */
  function Remaining(p: ProducerAt): nat {
    match p
    case Reading => 0
    case Locking(buf) => 4 + 5 * |buf|
    case Pushing(buf, i, _) => if i <= |buf| then 3 + 5 * (|buf| - i) else 3
    case Unlocking(_, _, _) => 2
    case Broadcasting => 1
  }

  ghost predicate Lists(tids: seq<int>, s: System) {
    && NoRepeat(tids)
    && (forall i :: 0 <= i < |tids| ==> tids[i] in s.consumers)
    && (forall t :: t in s.consumers ==> t in tids)
  }

  /** How far the threads are from having nothing to do. */
  ghost function Distance(s: System, tids: seq<int>): int
    requires Lists(tids, s)
  {
    4 * s.ring.cnt + Remaining(s.producer) + IdleAll(s.consumers, tids)
  }

  lemma {:induction false} IdleBound(consumers: map<int, ConsumerAt>, tids: seq<int>)
    requires forall i :: 0 <= i < |tids| ==> tids[i] in consumers
    ensures IdleAll(consumers, tids) <= 4 * |tids|
  {
    if tids != [] { IdleBound(consumers, tids[1..]); }
  }

  lemma {:induction false} IdleSame(c: map<int, ConsumerAt>, c': map<int, ConsumerAt>, tids: seq<int>)
    requires forall i :: 0 <= i < |tids| ==> tids[i] in c && tids[i] in c' && Idle(c'[tids[i]]) == Idle(c[tids[i]])
    ensures IdleAll(c', tids) == IdleAll(c, tids)
  {
    if tids != [] { IdleSame(c, c', tids[1..]); }
  }

  lemma {:induction false} IdleMoved(c: map<int, ConsumerAt>, tids: seq<int>, t: int, at: ConsumerAt)
    requires (forall i :: 0 <= i < |tids| ==> tids[i] in c) && t in tids && NoRepeat(tids)
    ensures IdleAll(c[t := at], tids) == IdleAll(c, tids) - Idle(c[t]) + Idle(at)
  {
    hide Idle;
    assert tids == [tids[0]] + tids[1..];
    if tids[0] == t {
      assert t !in tids[1..];
      IdleSame(c, c[t := at], tids[1..]);
    } else {
      IdleMoved(c, tids[1..], t, at);
    }
  }

  /** Every inner step brings the threads nearer to the end. */
  lemma StepApproaches(s: System, a: Action, tids: seq<int>)
    requires Inv(s) && Enabled(s, a) && Inner(a) && s.ring.cnt > 0 && Lists(tids, s)
    ensures Lists(tids, After(s, a)) && Distance(After(s, a), tids) < Distance(s, tids)
    ensures After(s, a).consumers.Keys == s.consumers.Keys
  {
    hide Exclusive, NoLostWakeup, Contents, IdleAll, NoRepeat;
    match a {
      case Lock =>
      case PushNext =>
      case Unlock =>
      case Broadcast => IdleSame(s.consumers, Woken(s.consumers), tids);
      case Enter(t) => IdleMoved(s.consumers, tids, t, Checking);
      case Take(t) => IdleMoved(s.consumers, tids, t, Popped);
      case Leave(t) => IdleMoved(s.consumers, tids, t, Working);
      case Again(t) => IdleMoved(s.consumers, tids, t, Entering);
    }
  }

  lemma Listing(keys: set<int>) returns (tids: seq<int>)
    ensures NoRepeat(tids) && |tids| == |keys|
    ensures (forall i :: 0 <= i < |tids| ==> tids[i] in keys) && (forall t :: t in keys ==> t in tids)
  {
    tids := [];
    var rest := keys;
    while rest != {}
      invariant NoRepeat(tids) && |tids| + |rest| == |keys| && rest <= keys
      invariant forall i :: 0 <= i < |tids| ==> tids[i] in keys && tids[i] !in rest
      invariant forall t :: t in keys && t !in rest ==> t in tids
    {
      var t := Pick(rest);
      NoRepeatAppend(tids, [t]);
      tids, rest := tids + [t], rest - {t};
    }
  }

  /** Bound on the inner steps, in the items queued, the producer's line and the number of consumers. */
  function Bound(s: System): int {
    4 * s.ring.cnt + Remaining(s.producer) + 4 * |s.consumers|
  }

  /** From any reachable state, in any interleaving without new input and spurious wake-ups, the queue is empty
      after at most Bound steps: every accepted item is popped. */
  lemma {:induction false} QueueIsEmptied(states: seq<System>, actions: seq<Action>)
    requires Steps(states, actions) && Inv(states[0]) && forall i :: 0 <= i < |actions| ==> Inner(actions[i])
    requires forall i :: 0 <= i < |states| ==> states[i].ring.cnt > 0
    ensures |actions| < Bound(states[0])
  {
    var s := states[0];
    var tids := Listing(s.consumers.Keys);
    IdleBound(s.consumers, tids);
    assert |s.consumers| == |s.consumers.Keys|;
    hide Inv, Enabled, After, Inner, IdleAll, Remaining, NoRepeat;
    var n := 0;
    while n < |actions|
      invariant 0 <= n <= |actions| && Inv(states[n]) && Lists(tids, states[n])
      invariant Distance(states[n], tids) + n <= Distance(s, tids)
    {
      StepApproaches(states[n], actions[n], tids);
      StepInv(states[n], actions[n]);
      n := n + 1;
    }
  }

  /** As long as there is a consumer, such a run exists: the threads alone can empty the queue. */
  lemma {:induction false} CanBeEmptied(s: System, tid: int) returns (states: seq<System>, actions: seq<Action>)
    requires Inv(s) && tid in s.consumers
    ensures Steps(states, actions) && states[0] == s && states[|actions|].ring.cnt == 0
    ensures forall i :: 0 <= i < |actions| ==> Inner(actions[i])
    ensures |actions| <= Bound(s)
  {
    var tids := Listing(s.consumers.Keys);
    IdleBound(s.consumers, tids);
    assert |s.consumers| == |s.consumers.Keys|;
    hide Enabled, After, Inner, IdleAll, Remaining, NoRepeat, Exclusive, NoLostWakeup, Contents, RightCount;
    states, actions := [s], [];
    var now := s;
    while now.ring.cnt > 0
      invariant Steps(states, actions) && states[0] == s && states[|actions|] == now && Inv(now) && tid in now.consumers
      invariant forall i :: 0 <= i < |actions| ==> Inner(actions[i])
      invariant Lists(tids, now) && |actions| + Distance(now, tids) <= Distance(s, tids)
      decreases Distance(now, tids)
    {
      var a := NeverStuck(now, tid);
      StepApproaches(now, a, tids);
      StepInv(now, a);
      StepsExtended(states, actions, a);
      now := After(now, a);
      states, actions := states + [now], actions + [a];
    }
  }

  lemma StepsExtended(states: seq<System>, actions: seq<Action>, a: Action)
    requires Steps(states, actions) && ValidRing(states[|actions|].ring) && Enabled(states[|actions|], a)
    ensures Steps(states + [After(states[|actions|], a)], actions + [a])
  {
    hide Enabled, After, ValidRing;
  }
}
