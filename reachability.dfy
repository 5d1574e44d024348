/** What "the goal can be reached" means for a SearchTree: a path from the
    initial state in which every trip uses one of the actions and ends in a
    valid state. The initial state itself is never tested for validity. */
module Reachability {
  import opened RiverCrossing

  /** t is the valid result of applying one of the actions to s. */
  ghost predicate Step(actions: seq<Action>, s: State, t: State) {
    exists a :: a in actions && t == ApplyAction(s, a) && ValidState(t)
  }

  ghost predicate IsPath(actions: seq<Action>, p: seq<State>) {
    forall i :: 0 <= i < |p| - 1 ==> Step(actions, p[i], p[i + 1])
  }

  /** t can be reached from init in exactly n trips. */
  ghost predicate ReachableIn(init: State, actions: seq<Action>, t: State, n: nat) {
    exists p :: |p| == n + 1 && IsPath(actions, p) && p[0] == init && p[n] == t
  }

  ghost predicate Reachable(init: State, actions: seq<Action>, t: State) {
    exists n: nat :: ReachableIn(init, actions, t, n)
  }

  /** No action leads from a member of S to a valid state outside S. */
  ghost predicate Closed(actions: seq<Action>, S: set<State>) {
    forall s, a :: s in S && a in actions && ValidState(ApplyAction(s, a)) ==> ApplyAction(s, a) in S
  }

  lemma ReachableStart(init: State, actions: seq<Action>)
    ensures ReachableIn(init, actions, init, 0)
  {
    assert IsPath(actions, [init]);
  }

  /** Only the start is reached in no trips. */
  lemma NoTripsOnlyStart(init: State, actions: seq<Action>, t: State)
    ensures ReachableIn(init, actions, t, 0) <==> t == init
  {
    if t == init {
      ReachableStart(init, actions);
    }
  }

  /** One more valid trip extends a path by one. */
  lemma {:induction false} ReachableStep(init: State, actions: seq<Action>, s: State, a: Action, n: nat)
    requires ReachableIn(init, actions, s, n)
    requires a in actions && ValidState(ApplyAction(s, a))
    ensures ReachableIn(init, actions, ApplyAction(s, a), n + 1)
  {
    var p :| |p| == n + 1 && IsPath(actions, p) && p[0] == init && p[n] == s;
    var t := ApplyAction(s, a);
    var q := p + [t];
    assert Step(actions, s, t);
    forall i | 0 <= i < |q| - 1 ensures Step(actions, q[i], q[i + 1]) {
      if i < n {
        assert q[i] == p[i] && q[i + 1] == p[i + 1];
      }
    }
    assert IsPath(actions, q) && q[0] == init && q[n + 1] == t;
  }

  /** The same, for a step known only through Step. */
  lemma ReachableStepOf(init: State, actions: seq<Action>, s: State, t: State, n: nat)
    requires ReachableIn(init, actions, s, n) && Step(actions, s, t)
    ensures ReachableIn(init, actions, t, n + 1)
  {
    var a :| a in actions && t == ApplyAction(s, a) && ValidState(t);
    ReachableStep(init, actions, s, a, n);
  }

  lemma ReachableSuccessor(init: State, actions: seq<Action>, s: State, a: Action)
    requires Reachable(init, actions, s)
    requires a in actions && ValidState(ApplyAction(s, a))
    ensures Reachable(init, actions, ApplyAction(s, a))
  {
    var n: nat :| ReachableIn(init, actions, s, n);
    ReachableStep(init, actions, s, a, n);
  }

  /** t is reached from init in n trips and in no fewer. */
  ghost predicate Distance(init: State, actions: seq<Action>, t: State, n: nat) {
    ReachableIn(init, actions, t, n) && forall k: nat :: k < n ==> !ReachableIn(init, actions, t, k)
  }

  /** The last trip of a path starts from a state reached one trip earlier. */
  lemma {:induction false} ReachablePredecessor(init: State, actions: seq<Action>, t: State, n: nat)
    requires ReachableIn(init, actions, t, n + 1)
    ensures exists s :: ReachableIn(init, actions, s, n) && Step(actions, s, t)
  {
    var p :| |p| == n + 2 && IsPath(actions, p) && p[0] == init && p[n + 1] == t;
    var q := p[..n + 1];
    forall i | 0 <= i < |q| - 1 ensures Step(actions, q[i], q[i + 1]) {
      assert q[i] == p[i] && q[i + 1] == p[i + 1];
    }
    assert IsPath(actions, q) && q[0] == init && q[n] == p[n];
    assert Step(actions, p[n], p[n + 1]);
  }

  /** Every state after the first on a path is a valid state. */
  lemma {:induction false} ReachableIsValid(init: State, actions: seq<Action>, t: State, n: nat)
    requires ReachableIn(init, actions, t, n) && n > 0
    ensures t in ValidStates()
  {
    var p :| |p| == n + 1 && IsPath(actions, p) && p[0] == init && p[n] == t;
    assert Step(actions, p[n - 1], p[n]);
    var a :| a in actions && t == ApplyAction(p[n - 1], a) && ValidState(t);
    SuccessorInValidStates(p[n - 1], a);
  }

  /** A closed set holding the initial state holds every reachable state;
      so a search that ends with such a set and without the goal in it has
      shown that the goal is unreachable. */
  lemma {:induction false} ClosedContainsReachable(init: State, actions: seq<Action>, S: set<State>, t: State)
    requires init in S && Closed(actions, S)
    requires Reachable(init, actions, t)
    ensures t in S
  {
    var n: nat :| ReachableIn(init, actions, t, n);
    var p :| |p| == n + 1 && IsPath(actions, p) && p[0] == init && p[n] == t;
    var i := 0;
    while i < n
      invariant 0 <= i <= n && p[i] in S
    {
      assert Step(actions, p[i], p[i + 1]);
      var a :| a in actions && p[i + 1] == ApplyAction(p[i], a) && ValidState(p[i + 1]);
      i := i + 1;
    }
  }
}
