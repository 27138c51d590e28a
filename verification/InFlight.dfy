/** The verifier's acceptor and its serving threads, counting connections with one shared atomic. */
module InFlight {

  const MAX_IN_FLIGHT: nat := 32

  /** Between the acceptor's fetch_add and what it does next there is room for every other thread. */
  datatype Acceptor = Waiting | Admitted | Refusing

  /** `working` threads hold a connection; `closed` ones have let go of it but not yet counted down. */
  datatype State = State(inFlight: int, acceptor: Acceptor, working: set<nat>, closed: set<nat>)

  datatype Action = Accept | Spawn(thread: nat) | Refuse | Close(thread: nat) | CountDown(thread: nat)

  const START: State := State(0, Waiting, {}, {})

  predicate Step(s: State, a: Action, s': State) {
    match a
    case Accept =>
      s.acceptor == Waiting &&
      s' == s.(inFlight := s.inFlight + 1, acceptor := if s.inFlight >= MAX_IN_FLIGHT then Refusing else Admitted)
    case Refuse =>
      s.acceptor == Refusing && s' == s.(inFlight := s.inFlight - 1, acceptor := Waiting)
    case Spawn(t) =>
      s.acceptor == Admitted && t !in s.working + s.closed &&
      s' == s.(acceptor := Waiting, working := s.working + {t})
    case Close(t) =>
      t in s.working && s' == s.(working := s.working - {t}, closed := s.closed + {t})
    case CountDown(t) =>
      t in s.closed && s' == s.(inFlight := s.inFlight - 1, closed := s.closed - {t})
  }

  predicate Run(states: seq<State>, actions: seq<Action>) {
    |states| == |actions| + 1 && states[0] == START &&
    forall i :: 0 <= i < |actions| ==> Step(states[i], actions[i], states[i + 1])
  }

  function Pending(s: State): nat {
    if s.acceptor == Waiting then 0 else 1
  }

  /** The counter is exact, and only an admitted connection may still become a thread. */
  predicate Counted(s: State) {
    s.working !! s.closed &&
    s.inFlight == |s.working| + |s.closed| + Pending(s) &&
    |s.working| + |s.closed| + (if s.acceptor == Admitted then 1 else 0) <= MAX_IN_FLIGHT
  }

  lemma {:induction false} RunCounted(states: seq<State>, actions: seq<Action>)
    requires Run(states, actions)
    ensures Counted(states[|actions|])
    decreases |actions|
  {
    if actions != [] {
      var n := |actions| - 1;
      RunCounted(states[..n + 1], actions[..n]);
      assert Step(states[n], actions[n], states[n + 1]);
    }
  }

  lemma RunPrefix(states: seq<State>, actions: seq<Action>, i: nat)
    requires Run(states, actions) && i <= |actions|
    ensures Run(states[..i + 1], actions[..i])
  {
  }

  /**
   In every interleaving and at every moment at most 32 connections are served, the counter is
   never off, and a connection is refused exactly when 32 threads have not counted down.
   */
  lemma AtMostThirtyTwo(states: seq<State>, actions: seq<Action>, i: nat)
    requires Run(states, actions) && i < |actions|
    ensures |states[i].working| <= 32
    ensures states[i].inFlight == |states[i].working| + |states[i].closed| + Pending(states[i])
    ensures actions[i] == Accept ==>
              (states[i + 1].acceptor == Refusing <==> |states[i].working| + |states[i].closed| == 32)
  {
    RunPrefix(states, actions, i);
    RunCounted(states[..i + 1], actions[..i]);
    assert Step(states[i], actions[i], states[i + 1]);
  }

  /** Nothing leaks: once every thread is gone and the acceptor waits, the counter is back at zero. */
  lemma BackToZero(states: seq<State>, actions: seq<Action>)
    requires Run(states, actions)
    ensures var s := states[|actions|]; s.inFlight == 0 <==> s.acceptor == Waiting && s.working == {} && s.closed == {}
  {
    RunCounted(states, actions);
  }
}
