/** The informed searches' frontier and cost table. The frontier holds
    (f, position, state) entries and hands out the one with the least
    (f, position); position is a push counter, so equal priorities leave in
    the order they arrived. The cost table maps a state to the best number of
    trips found so far; an absent key stands for "infinitely far". */
module Frontier {
  import opened RiverCrossing

  datatype Entry = Entry(f: int, position: int, state: State)

  /** x leaves the frontier no later than y. */
  predicate Before(x: Entry, y: Entry) {
    x.f < y.f || (x.f == y.f && x.position <= y.position)
  }

  predicate DistinctPositions(q: seq<Entry>) {
    forall i, j :: 0 <= i < j < |q| ==> q[i].position != q[j].position
  }

  function States(q: seq<Entry>): set<State> {
    set e | e in q :: e.state
  }

  /** Index of the entry with the least (f, position). */
  method MinIndex(q: seq<Entry>) returns (k: nat)
    requires |q| > 0
    ensures k < |q|
    ensures forall i :: 0 <= i < |q| ==> Before(q[k], q[i])
  {
    k := 0;
    var i := 1;
    while i < |q|
      invariant 1 <= i <= |q| && k < i
      invariant forall j :: 0 <= j < i ==> Before(q[k], q[j])
    {
      if !Before(q[k], q[i]) {
        k := i;
      }
      i := i + 1;
    }
  }

  /** Taking out the entry at k: what is left is the rest of the frontier,
      one shorter, with every entry's position still unique. */
  lemma RemoveEntry(q: seq<Entry>, k: nat)
    requires k < |q|
    ensures DistinctPositions(q) ==> DistinctPositions(q[..k] + q[k + 1..])
    ensures multiset(q[..k] + q[k + 1..]) + multiset{q[k]} == multiset(q)
    ensures States(q) == States(q[..k] + q[k + 1..]) + {q[k].state}
    ensures forall e :: e in q[..k] + q[k + 1..] ==> e in q
  {
    var rest := q[..k] + q[k + 1..];
    assert q == q[..k] + [q[k]] + q[k + 1..];
    if DistinctPositions(q) {
      forall i, j | 0 <= i < j < |rest| ensures rest[i].position != rest[j].position {
        var i' := if i < k then i else i + 1;
        var j' := if j < k then j else j + 1;
        assert rest[i] == q[i'] && rest[j] == q[j'];
      }
    }
    forall x | x in q ensures x in rest || x == q[k] {
      var i :| 0 <= i < |q| && q[i] == x;
      if i < k {
        assert rest[i] == x;
      } else if i > k {
        assert rest[i - 1] == x;
      }
    }
  }

  /** The `get` of the priority queue: hands out an entry with the least
      (f, position) and keeps all the others. */
  method Get(q: seq<Entry>) returns (e: Entry, rest: seq<Entry>)
    requires |q| > 0
    ensures e in q && forall x :: x in q ==> Before(e, x)
    ensures multiset(rest) + multiset{e} == multiset(q) && |rest| == |q| - 1
    ensures States(q) == States(rest) + {e.state}
    ensures forall x :: x in rest ==> x in q
    ensures DistinctPositions(q) ==> DistinctPositions(rest)
  {
    var k := MinIndex(q);
    e := q[k];
    rest := q[..k] + q[k + 1..];
    RemoveEntry(q, k);
  }

  /** With distinct positions two entries never tie on the whole key, so the
      entry handed out is the only minimum. */
  lemma {:induction false} MinimumUnique(q: seq<Entry>, x: Entry, y: Entry)
    requires DistinctPositions(q)
    requires x in q && y in q
    requires forall z :: z in q ==> Before(x, z)
    requires forall z :: z in q ==> Before(y, z)
    ensures x == y
  {
    var i :| 0 <= i < |q| && q[i] == x;
    var j :| 0 <= j < |q| && q[j] == y;
    assert Before(x, y) && Before(y, x);
    if i < j {
    } else if j < i {
    }
  }

  /** The strict improvement test: a recorded cost, if any, is beaten. */
  predicate Improves(costs: map<State, nat>, s: State, cost: nat) {
    s !in costs || cost < costs[s]
  }

  /** A state without a recorded cost is improved by any cost, as against
      an infinite default; once cost c is recorded for s, only a strictly
      smaller cost improves it, and the other states are judged as before. */
  lemma ImprovesRecorded(costs: map<State, nat>, s: State, c: nat, t: State, cost: nat)
    ensures s !in costs ==> Improves(costs, s, cost)
    ensures Improves(costs[s := c], s, cost) <==> cost < c
    ensures t != s ==> (Improves(costs[s := c], t, cost) <==> Improves(costs, t, cost))
  {
  }

  /** The two informed searches differ only in the priority they push. */
  datatype Strategy = GreedyBestFirst | AStarSearch

  /** The priority of a successor reached in `cost` trips: the greedy
      search uses the heuristic alone, A* adds the cost to it. */
  function Priority(strategy: Strategy, s: State, goal: State, cost: int): (f: int)
    ensures strategy == GreedyBestFirst ==> f >= 0 && (f == 0 <==> s == goal)
    ensures strategy == AStarSearch && ValidState(s) ==> cost <= f <= cost + 2 * Total
  {
    match strategy
    case GreedyBestFirst => HeuristicGbfs(s, goal)
    case AStarSearch => cost + HeuristicAStar(s)
  }

  /** The (state, k) pairs with k below the state's recorded cost. A strict
      improvement of a recorded cost removes some and adds none. */
  ghost function Below(costs: map<State, nat>): set<(State, nat)> {
    set s, k: nat | s in costs && k < costs[s] :: (s, k)
  }

  /** The measure that makes the informed searches terminate once no new
      state gets a cost. */
  lemma BelowShrinks(costs: map<State, nat>, costs': map<State, nat>, t: State)
    requires costs.Keys == costs'.Keys
    requires forall s :: s in costs ==> costs'[s] <= costs[s]
    requires t in costs && costs'[t] < costs[t]
    ensures Below(costs') < Below(costs)
  {
    assert (t, costs'[t]) in Below(costs);
    assert (t, costs'[t]) !in Below(costs');
  }

  /** Appending entries numbered on from the push counter keeps positions
      unique and within the counter. */
  lemma PushEntries(q: seq<Entry>, pushed: seq<Entry>, position: int)
    requires position >= 0 && DistinctPositions(q)
    requires forall e :: e in q ==> 0 <= e.position <= position
    requires forall j :: 0 <= j < |pushed| ==> pushed[j].position == position + 1 + j
    ensures DistinctPositions(q + pushed)
    ensures forall e :: e in q + pushed ==> 0 <= e.position <= position + |pushed|
    ensures States(q + pushed) == States(q) + States(pushed)
  {
    var r := q + pushed;
    forall i, j | 0 <= i < j < |r| ensures r[i].position != r[j].position {
      if i < |q| {
        assert r[i] in q;
      }
    }
    forall e | e in r ensures 0 <= e.position <= position + |pushed| {
      var i :| 0 <= i < |r| && r[i] == e;
      if i >= |q| {
        assert e == pushed[i - |q|];
      } else {
        assert e in q;
      }
    }
    assert States(r) == States(q) + States(pushed) by {
      forall e | e in r ensures e in q || e in pushed {
        var i :| 0 <= i < |r| && r[i] == e;
        if i >= |q| {
          assert e == pushed[i - |q|];
        }
      }
    }
  }

  lemma StatesAppend(q: seq<Entry>, e: Entry)
    ensures States(q + [e]) == States(q) + {e.state}
    ensures forall x :: x in q + [e] ==> x in q || x == e
  {
    assert e == (q + [e])[|q|];
  }
}
