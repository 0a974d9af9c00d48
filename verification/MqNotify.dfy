/** The message-queue reader that is told of new messages by a signal, step by step. Registration with
    mq_notify is used up by one message that arrives at an empty queue (System Interfaces of POSIX.1-2008). */
module MqNotify {

  datatype At = Testing | Clearing | Registering | Draining | Sleeping | Failed

  /** pending: the notification signal is on its way; arrived and received record the messages. */
  datatype State = State(queue: seq<int>, registered: bool, pending: bool, gotSig: bool, at: At,
                         arrived: multiset<int>, received: multiset<int>)

  /** Send is the environment; Deliver runs the handler; the others are the program. A message may be taken
      from anywhere in the queue, since the order depends on priorities. */
  datatype Action = Send(msg: int) | Deliver | Test | Clear | Register | Receive(k: nat) | Drained | Wake

  predicate Enabled(s: State, a: Action) {
    match a
    case Send(_) => true
    case Deliver => s.pending
    case Test => s.at.Testing?
    case Clear => s.at.Clearing?
    case Register => s.at.Registering?
    case Receive(k) => s.at.Draining? && k < |s.queue|
    case Drained => s.at.Draining? && s.queue == []
    case Wake => s.at.Sleeping?
  }

  function After(s: State, a: Action): State
    requires Enabled(s, a)
  {
    match a
    case Send(m) =>
      var fires := s.registered && s.queue == [];
      s.(queue := s.queue + [m], arrived := s.arrived + multiset{m},
         registered := s.registered && !fires, pending := s.pending || fires)
    case Deliver => s.(pending := false, gotSig := true)
    case Test => s.(at := if s.gotSig then Clearing else Sleeping)
    case Clear => s.(gotSig := false, at := Registering)
    case Register => if s.registered then s.(at := Failed) else s.(registered := true, at := Draining)
    case Receive(k) => s.(queue := s.queue[..k] + s.queue[k + 1..], received := s.received + multiset{s.queue[k]})
    case Drained => s.(at := Sleeping)
    case Wake => s.(at := Testing)
  }

  /** Messages may have been queued before the program starts; gotSig starts as 1. */
  predicate Init(s: State) {
    && s.gotSig && !s.registered && !s.pending && s.at.Testing?
    && s.arrived == multiset(s.queue) && s.received == multiset{}
  }

  function One(b: bool): nat {
    if b then 1 else 0
  }

  /** The right to be told of the next message is in exactly one place: the kernel's registration, the signal
      under way, the flag, or the program about to register. */
  ghost predicate OneToken(s: State) {
    One(s.registered) + One(s.pending) + One(s.gotSig) + One(s.at.Registering?) == 1
  }

  ghost predicate Inv(s: State) {
    && OneToken(s)
    && !s.at.Failed?
    && (s.at.Clearing? ==> s.gotSig)
    && (s.registered && !s.at.Draining? ==> s.queue == [])
    && s.arrived == s.received + multiset(s.queue)
  }

  lemma InitInv(s: State)
    requires Init(s)
    ensures Inv(s)
  {
  }

  lemma StepInv(s: State, a: Action)
    requires Inv(s) && Enabled(s, a)
    ensures Inv(After(s, a))
  {
    if a.Receive? {
      var k := a.k;
      assert s.queue == s.queue[..k] + [s.queue[k]] + s.queue[k + 1..];
    }
  }

  ghost predicate Run(states: seq<State>, actions: seq<Action>) {
    && |states| == |actions| + 1
    && (forall i :: 0 <= i < |actions| ==>
          Enabled(states[i], actions[i]) && states[i + 1] == After(states[i], actions[i]))
  }

  /** In every run: messages are conserved, mq_notify never finds the process registered, and a reader about
      to sleep on a non-empty queue has the flag set or the signal on its way. */
  lemma {:induction false} NothingUnnoticed(states: seq<State>, actions: seq<Action>)
    requires Run(states, actions) && Init(states[0])
    ensures forall i :: 0 <= i < |states| ==> Inv(states[i])
    ensures forall i :: 0 <= i < |states| && states[i].at.Sleeping? && states[i].queue != [] ==>
              states[i].gotSig || states[i].pending
    ensures forall i :: 0 <= i < |states| && states[i].at.Registering? ==> !states[i].registered
  {
    InitInv(states[0]);
    var n := 0;
    while n < |actions|
      invariant 0 <= n <= |actions|
      invariant forall i :: 0 <= i <= n ==> Inv(states[i])
    {
      StepInv(states[n], actions[n]);
      n := n + 1;
    }
  }

  // ---- the queue is emptied -----------------------------------------------------------------

  /** How far the program is from having read what is queued. */
  function Distance(s: State): nat {
    |s.queue| + One(s.pending) +
    match s.at
    case Testing => if s.gotSig then 4 else 6
    case Sleeping => 5
    case Clearing => 3
    case Registering => 2
    case _ => 1
  }

  /** A sleep that ends although the signal that should have ended it has not been delivered. */
  predicate Vain(s: State, a: Action) {
    a.Wake? && s.pending
  }

  lemma StepApproaches(s: State, a: Action)
    requires Inv(s) && Enabled(s, a) && !a.Send? && s.queue != []
    ensures !Vain(s, a) ==> Distance(After(s, a)) < Distance(s)
    ensures Vain(s, a) ==> Distance(After(s, a)) <= Distance(s) + 1
  {
  }

  lemma SomeStep(s: State) returns (a: Action)
    requires Inv(s)
    ensures Enabled(s, a) && !a.Send? && !Vain(s, a)
  {
    match s.at {
      case Testing => a := Test;
      case Clearing => a := Clear;
      case Registering => a := Register;
      case Draining => a := if s.queue == [] then Drained else Receive(0);
      case Sleeping => a := if s.pending then Deliver else Wake;
    }
  }

  function VainWakes(states: seq<State>, actions: seq<Action>): nat
    requires |states| == |actions| + 1
  {
    if actions == [] then 0
    else
      var n := |actions| - 1;
      VainWakes(states[..n + 1], actions[..n]) + One(Vain(states[n], actions[n]))
  }

  /** Whatever the interleaving, while no new message is sent the queue is empty after fewer than Distance steps
      and two more for each sleep that ends before its signal is delivered. */
  lemma {:induction false} QueueIsEmptied(states: seq<State>, actions: seq<Action>)
    requires Run(states, actions) && Inv(states[0])
    requires forall i :: 0 <= i < |actions| ==> !actions[i].Send?
    requires forall i :: 0 <= i < |states| ==> states[i].queue != []
    ensures |actions| < Distance(states[0]) + 2 * VainWakes(states, actions)
    ensures Distance(states[0]) <= |states[0].queue| + 7
  {
    hide Inv, Enabled, After;
    var n := |actions|;
    DistanceSoFar(states, actions);
    assert Distance(states[n]) > 0;
  }

  lemma {:induction false} DistanceSoFar(states: seq<State>, actions: seq<Action>)
    requires Run(states, actions) && Inv(states[0])
    requires forall i :: 0 <= i < |actions| ==> !actions[i].Send?
    requires forall i :: 0 <= i < |states| ==> states[i].queue != []
    ensures Inv(states[|actions|])
    ensures Distance(states[|actions|]) + |actions| <= Distance(states[0]) + 2 * VainWakes(states, actions)
    decreases |actions|
  {
    if actions != [] {
      hide Inv, Enabled, After, Distance;
      var n := |actions| - 1;
      DistanceSoFar(states[..n + 1], actions[..n]);
      StepApproaches(states[n], actions[n]);
      StepInv(states[n], actions[n]);
    }
  }

  /** The program is never without a step of its own towards the empty queue: from every reachable state some run
      without new messages empties it, in at most the length of the queue and seven steps. */
  lemma {:induction false} CanBeEmptied(s: State) returns (states: seq<State>, actions: seq<Action>)
    requires Inv(s)
    ensures Run(states, actions) && states[0] == s && states[|actions|].queue == []
    ensures forall i :: 0 <= i < |actions| ==> !actions[i].Send? && !Vain(states[i], actions[i])
    ensures |actions| <= Distance(s) <= |s.queue| + 7
    decreases Distance(s)
  {
    if s.queue == [] {
      states, actions := [s], [];
    } else {
      var a := SomeStep(s);
      StepInv(s, a);
      StepApproaches(s, a);
      var states', actions' := CanBeEmptied(After(s, a));
      states, actions := [s] + states', [a] + actions';
      RunPrefixed(s, a, states', actions');
    }
  }

  lemma RunPrefixed(s: State, a: Action, states: seq<State>, actions: seq<Action>)
    requires Run(states, actions) && Enabled(s, a) && states[0] == After(s, a)
    ensures Run([s] + states, [a] + actions)
  {
    hide Enabled, After;
    forall i | 0 <= i < |actions| + 1
      ensures Enabled(([s] + states)[i], ([a] + actions)[i])
      ensures ([s] + states)[i + 1] == After(([s] + states)[i], ([a] + actions)[i])
    {
      if i > 0 { assert ([s] + states)[i] == states[i - 1] && ([a] + actions)[i] == actions[i - 1]; }
    }
  }
}
