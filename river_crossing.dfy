/** The river-crossing puzzle that SearchTree explores: two kinds of people
    (counted by m and c) on the starting bank and the bank the boat is on.
    A boat trip moves an Action's counts across the river; a state is valid
    when both counts lie in [0, Total] and neither bank is unsafe. */
module RiverCrossing {

  /** Counts still on the starting bank, and the boat's side: any non-zero
      side means the boat is on the starting bank. */
  datatype State = State(m: int, c: int, side: int)

  /** How many of each kind cross in one trip. */
  datatype Action = Action(m: int, c: int)

  /** Number of people of each kind (the default `total` of the validity test). */
  const Total := 3

  /** One boat trip: away from the starting bank when the boat is there,
      towards it otherwise; the boat changes side. */
  function ApplyAction(s: State, a: Action): (r: State)
    ensures r.side == 0 || r.side == 1
    ensures r.side != s.side && r != s
    ensures (r.side == 0) == (s.side != 0)
  {
    var left := s.side != 0;
    var op := if left then -1 else 1;
    State(s.m + op * a.m, s.c + op * a.c, if left then 0 else 1)
  }

  /** Both counts are within bounds and, on each bank, the first kind is
      absent or not outnumbered. The side plays no part, and the safety
      rule on both banks collapses to three cases. */
  predicate ValidState(s: State): (ok: bool)
    ensures ok <==> 0 <= s.m <= Total && 0 <= s.c <= Total && (s.m == 0 || s.m == Total || s.m == s.c)
  {
    var m, c := s.m, s.c;
    var leftOk := m >= c || m == 0;
    var rightOk := Total - m >= Total - c || Total - m == 0;
    (0 <= m <= Total && 0 <= c <= Total) && leftOk && rightOk
  }

  /** Undoing a trip: the same action taken back across returns the
      original state, whenever the boat's side is 0 or 1. */
  lemma {:induction false} ApplyActionTwice(s: State, a: Action)
    requires s.side == 0 || s.side == 1
    ensures ApplyAction(ApplyAction(s, a), a) == s
  {
  }

  /** Every valid state whose boat side is 0 or 1: the states any trip can reach. */
  function ValidStates(): (r: set<State>)
    ensures forall s :: s in r <==> ValidState(s) && (s.side == 0 || s.side == 1)
  {
    set m: int, c: int, side: int | 0 <= m <= Total && 0 <= c <= Total && 0 <= side <= 1
      && ValidState(State(m, c, side)) :: State(m, c, side)
  }

  /** A valid successor always lies in ValidStates. */
  lemma SuccessorInValidStates(s: State, a: Action)
    requires ValidState(ApplyAction(s, a))
    ensures ApplyAction(s, a) in ValidStates()
  {
  }

  /** An injective numbering of the states with counts and side in range. */
  function Key(s: State): int {
    8 * s.m + 2 * s.c + s.side
  }

  predicate Ascending(xs: seq<State>) {
    forall i :: 0 <= i < |xs| - 1 ==> Key(xs[i]) < Key(xs[i + 1])
  }

  /** A list in strictly ascending Key order has no repeated element. */
  lemma {:induction false} AscendingCard(xs: seq<State>)
    requires Ascending(xs)
    ensures |set x | x in xs| == |xs|
    ensures forall x :: x in xs ==> Key(xs[0]) <= Key(x)
  {
    if xs != [] {
      AscendingCard(xs[1..]);
      assert (set x | x in xs) == {xs[0]} + (set x | x in xs[1..]);
    }
  }

  /** The twenty valid states in ascending Key order. */
  function ValidStateList(): seq<State> {
    [State(0, 0, 0), State(0, 0, 1), State(0, 1, 0), State(0, 1, 1), State(0, 2, 0),
     State(0, 2, 1), State(0, 3, 0), State(0, 3, 1), State(1, 1, 0), State(1, 1, 1),
     State(2, 2, 0), State(2, 2, 1), State(3, 0, 0), State(3, 0, 1), State(3, 1, 0),
     State(3, 1, 1), State(3, 2, 0), State(3, 2, 1), State(3, 3, 0), State(3, 3, 1)]
  }

  /** Every valid state is listed. */
  lemma ValidAreListed(s: State)
    requires s in ValidStates()
    ensures s in ValidStateList()
  {
    if s.m == 0 || s.m == Total {
      ListedBank(s);
    } else {
      ListedBalanced(s);
    }
  }

  /** The states with one kind all on one bank are listed. */
  lemma ListedBank(s: State)
    requires s.m == 0 || s.m == Total
    requires 0 <= s.c <= Total && (s.side == 0 || s.side == 1)
    ensures s in ValidStateList()
  {
    if s.m == 0 {
      assert s == ValidStateList()[2 * s.c + s.side];
    } else {
      assert s == ValidStateList()[12 + 2 * s.c + s.side];
    }
  }

  /** The states with both kinds equal and split between the banks are listed. */
  lemma ListedBalanced(s: State)
    requires s.m == s.c && 1 <= s.m <= 2 && (s.side == 0 || s.side == 1)
    ensures s in ValidStateList()
  {
    if s.m == 1 {
      assert s == ValidStateList()[8 + s.side];
    } else {
      assert s == ValidStateList()[10 + s.side];
    }
  }

  /** Every listed state is valid. */
  lemma ListedAreValid(i: int)
    requires 0 <= i < |ValidStateList()|
    ensures ValidStateList()[i] in ValidStates()
  {
  }

  /** The listed states are exactly the valid ones. */
  lemma ValidStateListExact()
    ensures ValidStates() == set x | x in ValidStateList()
  {
    forall s | s in ValidStates() ensures s in ValidStateList() {
      ValidAreListed(s);
    }
    forall i | 0 <= i < |ValidStateList()| ensures ValidStateList()[i] in ValidStates() {
      ListedAreValid(i);
    }
  }

  /** The puzzle has exactly twenty states that a trip can end in. */
  lemma TwentyValidStates()
    ensures |ValidStates()| == 20
  {
    assert Ascending(ValidStateList());
    AscendingCard(ValidStateList());
    ValidStateListExact();
  }

  function Abs(x: int): (r: int)
    ensures r >= 0 && (r == 0 <==> x == 0)
  {
    if x < 0 then -x else x
  }

  /** Greedy heuristic: Manhattan distance to the goal over all three
      components; zero exactly at the goal. */
  function HeuristicGbfs(s: State, goal: State): (h: int)
    ensures h >= 0
    ensures h == 0 <==> s == goal
  {
    Abs(s.m - goal.m) + Abs(s.c - goal.c) + Abs(s.side - goal.side)
  }

  /** A* heuristic: the people still on the starting bank. */
  function HeuristicAStar(s: State): (h: int)
    ensures ValidState(s) ==> 0 <= h <= 2 * Total
    ensures ValidState(s) ==> (h == 0 <==> s.m == 0 && s.c == 0)
  {
    s.m + s.c
  }

  /** HeuristicAStar overestimates: from (1,1,1) a single trip with (1,1)
      reaches (0,0,0), yet the estimate is 2, so it is not admissible. */
  lemma HeuristicAStarOverestimates()
    ensures ApplyAction(State(1, 1, 1), Action(1, 1)) == State(0, 0, 0)
    ensures ValidState(State(0, 0, 0))
    ensures HeuristicAStar(State(1, 1, 1)) == 2
  {
  }
}
