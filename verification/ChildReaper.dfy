/** The parent that reaps its children in a SIGCHLD handler, step by step. The signal is not queued: any number
    of exits while it is blocked or pending leave one pending signal. */
module ChildReaper {

  datatype At = Forking | Testing | Suspended | Reaping | Returning | Exited

  /** unforked, alive and zombies count the children not yet started, running, and dead but not yet waited for;
      caught is how often the handler has been entered, sigCnt how often sigsuspend has returned. */
  datatype State = State(unforked: nat, alive: nat, zombies: nat, numLive: int, pending: bool, at: At,
                         caught: nat, sigCnt: nat)

  datatype Action = Fork | ForkedAll | ChildExits | Test | Deliver | Reap | NoneLeft | Return

  predicate Enabled(s: State, a: Action) {
    match a
    case Fork => s.at.Forking? && s.unforked > 0
    case ForkedAll => s.at.Forking? && s.unforked == 0
    case ChildExits => s.alive > 0 && !s.at.Exited?
    case Test => s.at.Testing?
    case Deliver => s.at.Suspended? && s.pending
    case Reap => s.at.Reaping? && s.zombies > 0
    case NoneLeft => s.at.Reaping? && s.zombies == 0
    case Return => s.at.Returning?
  }

  function After(s: State, a: Action): State
    requires Enabled(s, a)
  {
    match a
    case Fork => s.(unforked := s.unforked - 1, alive := s.alive + 1)
    case ForkedAll => s.(at := Testing)
    case ChildExits => s.(alive := s.alive - 1, zombies := s.zombies + 1, pending := true)
    case Test => s.(at := if s.numLive > 0 then Suspended else Exited)
    case Deliver => s.(pending := false, at := Reaping, caught := s.caught + 1)
    case Reap => s.(zombies := s.zombies - 1, numLive := s.numLive - 1)
    case NoneLeft => s.(at := Returning)
    case Return => s.(at := Testing, sigCnt := s.sigCnt + 1)
  }

  predicate Init(s: State, n: nat) {
    s == State(n, 0, 0, n, false, Forking, 0, 0)
  }

  /** A dead child is always on the way to being reaped. */
  ghost predicate Inv(s: State, n: nat) {
    && s.numLive == s.unforked + s.alive + s.zombies
    && (s.zombies > 0 ==> s.pending || s.at.Reaping?)
    && (!s.at.Forking? ==> s.unforked == 0)
    && (s.at.Suspended? ==> s.numLive > 0)
    && (s.at.Exited? ==> s.numLive == 0)
    && s.unforked + s.alive <= n
    && s.caught + (if s.pending then 1 else 0) <= n - s.unforked - s.alive
    && s.sigCnt + (if s.at.Reaping? || s.at.Returning? then 1 else 0) == s.caught
    && (s.unforked + s.alive + s.zombies < n ==> s.caught > 0)
  }

  /** No child is left, and the handler has run once at least, and once per child at most. */
  ghost predicate AllReaped(s: State, n: nat) {
    s.unforked == s.alive == s.zombies == 0 && s.sigCnt <= n && (n > 0 ==> s.sigCnt >= 1)
  }

  lemma InitInv(s: State, n: nat)
    requires Init(s, n)
    ensures Inv(s, n)
  {
  }

  lemma InvMeans(s: State, n: nat)
    requires Inv(s, n)
    ensures s.at.Suspended? ==> s.pending || s.alive > 0
    ensures s.at.Exited? ==> AllReaped(s, n)
  {
  }

  lemma StepInv(s: State, a: Action, n: nat)
    requires Inv(s, n) && Enabled(s, a)
    ensures Inv(After(s, a), n)
  {
  }

  ghost predicate Run(states: seq<State>, actions: seq<Action>, n: nat) {
    && |states| == |actions| + 1
    && Init(states[0], n)
    && (forall i :: 0 <= i < |actions| ==>
          Enabled(states[i], actions[i]) && states[i + 1] == After(states[i], actions[i]))
  }

  /** In every run the counter is right, the parent never sleeps in vain, and it leaves only when every child
      has been waited for, having caught the signal at least once and at most once per child. */
  lemma {:induction false} RunInv(states: seq<State>, actions: seq<Action>, n: nat)
    requires Run(states, actions, n)
    ensures forall i :: 0 <= i < |states| ==> Inv(states[i], n)
    ensures forall i :: 0 <= i < |states| && states[i].at.Suspended? ==> states[i].pending || states[i].alive > 0
    ensures forall i :: 0 <= i < |states| && states[i].at.Exited? ==> AllReaped(states[i], n)
  {
    InitInv(states[0], n);
    hide Inv, Init, Enabled, After;
    var k := 0;
    while k < |actions|
      invariant 0 <= k <= |actions|
      invariant forall i :: 0 <= i <= k ==> Inv(states[i], n)
    {
      StepInv(states[k], actions[k], n);
      k := k + 1;
    }
    forall i | 0 <= i < |states|
      ensures states[i].at.Suspended? ==> states[i].pending || states[i].alive > 0
      ensures states[i].at.Exited? ==> AllReaped(states[i], n)
    {
      InvMeans(states[i], n);
    }
  }

  // ---- the parent does leave ----------------------------------------------------------------

  function Distance(s: State): nat {
    7 * s.unforked + 6 * s.alive + s.zombies + (if s.pending then 4 else 0) +
    match s.at
    case Forking => 2
    case Testing => 1
    case Suspended => 0
    case Reaping => 3
    case Returning => 2
    case Exited => 0
  }

  lemma StepApproaches(s: State, a: Action)
    requires Enabled(s, a)
    ensures Distance(After(s, a)) < Distance(s)
  {
  }

  lemma SomeStep(s: State, n: nat) returns (a: Action)
    requires Inv(s, n) && !s.at.Exited?
    ensures Enabled(s, a)
  {
    match s.at {
      case Forking => a := if s.unforked > 0 then Fork else ForkedAll;
      case Testing => a := Test;
      case Suspended => a := if s.pending then Deliver else ChildExits;
      case Reaping => a := if s.zombies > 0 then Reap else NoneLeft;
      case Returning => a := Return;
    }
  }

  /** No run is longer than 7 n + 2 steps, and a run that cannot go on has ended with the parent's exit. */
  lemma {:induction false} RunEnds(states: seq<State>, actions: seq<Action>, n: nat)
    requires Run(states, actions, n)
    ensures |actions| <= 7 * n + 2
    ensures (forall a :: !Enabled(states[|actions|], a)) ==> states[|actions|].at.Exited?
  {
    InitInv(states[0], n);
    assert Distance(states[0]) == 7 * n + 2;
    hide Inv, Init, Enabled, After, Distance;
    var k := 0;
    while k < |actions|
      invariant 0 <= k <= |actions| && Inv(states[k], n) && Distance(states[k]) + k <= 7 * n + 2
    {
      StepInv(states[k], actions[k], n);
      StepApproaches(states[k], actions[k]);
      k := k + 1;
    }
    if !states[k].at.Exited? {
      var a := SomeStep(states[k], n);
    }
  }
}
