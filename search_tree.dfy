/** SearchTree: an initial state, a goal state and an ordered list of
    actions, searched by breadth-first, depth-first, greedy best-first and
    A* search. Each search returns whether it reached the goal, together
    with the log of what it drew. */
module Search {
  import opened RiverCrossing
  import opened Reachability
  import opened SearchTrace
  import opened Frontier

  function Elems(q: seq<State>): set<State> {
    set s | s in q
  }

  /** No state occurs twice in q. */
  predicate NoDup(q: seq<State>) {
    forall i, j :: 0 <= i < j < |q| ==> q[i] != q[j]
  }

  /** Every successor of a state in S is in T. */
  ghost predicate SuccessorsIn(actions: seq<Action>, S: set<State>, T: set<State>) {
    forall s, a :: s in S && a in actions && ValidState(ApplyAction(s, a)) ==> ApplyAction(s, a) in T
  }

  /** Appending one state that the queue does not hold yet. */
  lemma AppendOne(q: seq<State>, x: State)
    ensures Elems(q + [x]) == Elems(q) + {x}
    ensures NoDup(q) && x !in Elems(q) ==> NoDup(q + [x])
  {
    var r := q + [x];
    if NoDup(q) && x !in Elems(q) {
      forall i, j | 0 <= i < j < |r| ensures r[i] != r[j] {
        assert r[i] == q[i];
      }
    }
  }

  /** Successors of two sets, each inside a set that grows into T. */
  lemma SuccessorsJoin(actions: seq<Action>, A: set<State>, X: set<State>, B: set<State>, T: set<State>)
    requires SuccessorsIn(actions, A, X) && SuccessorsIn(actions, B, T) && X <= T
    ensures SuccessorsIn(actions, A + B, T)
  {
  }

  /** Taking the head off a queue without repeats that avoids S. */
  lemma PopFront(q: seq<State>, S: set<State>)
    requires q != [] && NoDup(q) && Elems(q) !! S
    ensures q[0] !in S && q[0] !in Elems(q[1..])
    ensures Elems(q) == Elems(q[1..]) + {q[0]}
    ensures NoDup(q[1..]) && Elems(q[1..]) !! S + {q[0]}
  {
    assert q == [q[0]] + q[1..];
    forall i | 0 <= i < |q| - 1 ensures q[1..][i] != q[0] {
      assert q[1..][i] == q[i + 1];
    }
  }

  /** Appending fresh states without repeats to a queue without repeats. */
  lemma AppendFresh(q: seq<State>, added: seq<State>, S: set<State>)
    requires NoDup(q) && NoDup(added) && Elems(q) !! S && Elems(added) !! S + Elems(q)
    ensures NoDup(q + added) && Elems(q + added) !! S
    ensures Elems(q + added) == Elems(q) + Elems(added)
  {
    var r := q + added;
    forall i, j | 0 <= i < j < |r| ensures r[i] != r[j] {
      if j >= |q| {
        assert r[j] == added[j - |q|] && r[j] in Elems(added);
        if i < |q| {
          assert r[i] == q[i] && r[i] in Elems(q);
        } else {
          assert r[i] == added[i - |q|];
        }
      } else {
        assert r[i] == q[i] && r[j] == q[j];
      }
    }
  }

  /** The actions of acts, in order, whose trip from current ends in a
      valid state that is neither in known nor reached by an earlier
      admitted action: the successors bfs appends, in the order it appends
      them. */
  function Admitted(current: State, known: set<State>, acts: seq<Action>): (admitted: seq<Action>)
    ensures forall a :: a in admitted ==> a in acts && ValidState(ApplyAction(current, a))
    decreases |acts|
  {
    if acts == [] then []
    else
      var earlier := Admitted(current, known, acts[..|acts| - 1]);
      var a := acts[|acts| - 1];
      var n := ApplyAction(current, a);
      if ValidState(n) && n !in known + Elems(Targets(current, earlier)) then earlier + [a] else earlier
  }

  /** The states that the actions in chosen lead to from current, in order. */
  function Targets(current: State, chosen: seq<Action>): (r: seq<State>)
    ensures |r| == |chosen| && forall j :: 0 <= j < |chosen| ==> r[j] == ApplyAction(current, chosen[j])
    decreases |chosen|
  {
    if chosen == [] then []
    else Targets(current, chosen[..|chosen| - 1]) + [ApplyAction(current, chosen[|chosen| - 1])]
  }

  /** What bfs draws for the chosen actions: each successor's node followed
      by its unlabelled edge from current, in order. */
  function Discoveries(current: State, chosen: seq<Action>): (r: seq<Event>)
    ensures forall e :: e in r && e.AddEdge? ==> e.from == current && e.to in Targets(current, chosen)
    decreases |chosen|
  {
    if chosen == [] then []
    else
      var a := chosen[|chosen| - 1];
      Discoveries(current, chosen[..|chosen| - 1]) + Discovery(current, ApplyAction(current, a), a, None)
  }

  /** Admitting one more action appends its successor and its drawing. */
  lemma AdmitNext(current: State, trace: seq<Event>, earlier: seq<Action>, a: Action)
    ensures Targets(current, earlier + [a]) == Targets(current, earlier) + [ApplyAction(current, a)]
    ensures trace + Discoveries(current, earlier + [a])
         == trace + Discoveries(current, earlier) + Discovery(current, ApplyAction(current, a), a, None)
  {
    assert (earlier + [a])[..|earlier|] == earlier;
  }

  /** Popping the head of the queue and exploring it keeps the set of known states. */
  lemma PoppedKnown(explored: set<State>, queue: seq<State>, known: set<State>)
    requires queue != [] && known == explored + Elems(queue) && Elems(queue) == Elems(queue[1..]) + {queue[0]}
    ensures explored + {queue[0]} + Elems(queue[1..]) == known
  {
  }

  /** Every admitted successor is a valid trip by one of the actions. */
  lemma AdmittedSteps(current: State, known: set<State>, actions: seq<Action>)
    ensures forall n :: n in Elems(Targets(current, Admitted(current, known, actions))) ==> Step(actions, current, n)
  {
    var adm := Admitted(current, known, actions);
    forall n | n in Elems(Targets(current, adm)) ensures Step(actions, current, n) {
      var j :| 0 <= j < |adm| && Targets(current, adm)[j] == n;
      assert adm[j] in adm;
    }
  }

  /** Levels after an expansion: the new states one level below current. */
  ghost function NextLevels(depth: map<State, nat>, added: seq<State>, level: nat): map<State, nat> {
    map s | s in depth.Keys + Elems(added) :: if s in depth then depth[s] else level
  }

  class SearchTree {
    const initial: State
    const goal: State
    const actions: seq<Action>

    constructor (initial: State, goal: State, actions: seq<Action>)
      ensures this.initial == initial && this.goal == goal && this.actions == actions
    {
      this.initial := initial;
      this.goal := goal;
      this.actions := actions;
    }

    /** Every state a search can hold: the start and the valid states. */
    ghost function Universe(): set<State> {
      ValidStates() + {initial}
    }

    /** What the uninformed searches promise: the goal is found exactly when
        it is reachable, and then the log ends with its goal colour; the log
        draws a tree of valid trips from the initial state, colours only
        drawn nodes, uses the goal colour only last and never colours the
        goal or a node with children as a dead end; and when the goal is not
        found every reachable state is drawn and every drawn node has
        children or is coloured a dead end. */
    ghost predicate TreeSearchOutcome(found: bool, trace: seq<Event>) {
      && (found <==> Reachable(initial, actions, goal))
      && (found <==> Found(trace, goal))
      && TreeDrawn(trace, initial, actions) && MarksOnNodes(trace)
      && GoalMarkLast(trace, goal) && DeadEndsNotGoal(trace, goal) && DeadEndsChildless(trace)
      && (!found ==> Accounted(trace, Nodes(trace)))
      && (!found ==> forall s :: Reachable(initial, actions, s) ==> s in Nodes(trace))
    }

    /** Colouring the drawn goal ends a search with the goal found. */
    lemma GoalOutcome(trace: seq<Event>, explored: set<State>)
      requires TreeDrawn(trace, initial, actions) && goal in Nodes(trace)
      requires explored <= Nodes(trace) && goal !in explored
      requires Settled(trace, explored) && DeadEndsChildless(trace)
      ensures TreeSearchOutcome(true, trace + [Mark(goal, Goal)])
    {
      MarkInDrawing(trace, initial, actions, Mark(goal, Goal));
    }

    /** A search that has explored every drawn node, with every successor
        drawn and without meeting the goal, ends with the goal not found. */
    lemma ExhaustedOutcome(trace: seq<Event>, explored: set<State>)
      requires TreeDrawn(trace, initial, actions) && Nodes(trace) == explored
      requires SuccessorsIn(actions, explored, explored) && goal !in explored
      requires Settled(trace, explored) && DeadEndsChildless(trace) && Accounted(trace, explored)
      ensures TreeSearchOutcome(false, trace)
    {
      assert initial in Nodes(trace) by {
        assert trace[0] in trace;
      }
      forall s | Reachable(initial, actions, s) ensures s in Nodes(trace) {
        ClosedContainsReachable(initial, actions, explored, s);
      }
    }

    //--------------------------------------
    // Breadth-first search

    /** What Bfs keeps true between iterations: the drawing holds exactly the
        explored and the queued states, each once; every successor of an
        explored state is drawn; explored states carry only dead-end colours,
        are the only ones with edges, and each has children or is coloured. */
    ghost predicate BfsInv(queue: seq<State>, explored: set<State>, trace: seq<Event>) {
      && Nodes(trace) == explored + Elems(queue) && Nodes(trace) <= Universe()
      && NoDup(queue) && Elems(queue) !! explored && goal !in explored
      && SuccessorsIn(actions, explored, Nodes(trace))
      && TreeDrawn(trace, initial, actions)
      && Settled(trace, explored) && DeadEndsChildless(trace) && Accounted(trace, explored)
    }

    /** The breadth-first guarantee: a labelling of the drawing gives every
        drawn state as its level the least number of valid trips that reach
        it; by ShortestDrawnPaths every drawn path from the initial state is
        then a shortest one. */
    ghost predicate ShortestLevels(trace: seq<Event>) {
      exists d :: Levelled(trace, initial, d) && forall s :: s in Nodes(trace) ==> s in d && Distance(initial, actions, s, d[s])
    }

    /** On such a drawing, a drawn path from the initial state to a drawn
        state has as few edges as any way of reaching that state. */
    lemma ShortestDrawnPaths(trace: seq<Event>, p: seq<State>)
      requires ShortestLevels(trace) && TreePath(trace, initial, p) && p[|p| - 1] in Nodes(trace)
      ensures Distance(initial, actions, p[|p| - 1], |p| - 1)
    {
      var d :| Levelled(trace, initial, d) && forall s :: s in Nodes(trace) ==> s in d && Distance(initial, actions, s, d[s]);
      LevelIsPathLength(trace, initial, d, p);
    }

    /** What Bfs keeps true about levels: depth labels the drawing with
        shortest trip counts (LevelsDrawn); along the queue the levels never
        decrease and span at most two adjacent values, and explored states
        are no deeper than the head (LevelsQueued); every state reachable
        within the head's level is drawn (LevelsCover). */
    ghost predicate BfsLevels(queue: seq<State>, explored: set<State>, trace: seq<Event>, depth: map<State, nat>) {
      LevelsDrawn(trace, depth) && LevelsQueued(queue, explored, depth) && LevelsCovered(queue, depth)
    }

    /** The labelling kept by Bfs shows that the drawing has shortest levels. */
    lemma LevelsShortest(queue: seq<State>, explored: set<State>, trace: seq<Event>, depth: map<State, nat>)
      requires BfsLevels(queue, explored, trace, depth)
      ensures ShortestLevels(trace)
    {
      assert Levelled(trace, initial, depth);
    }

    /** Colouring a state keeps shortest levels. */
    lemma ShortestLevelsMark(trace: seq<Event>, m: Event)
      requires ShortestLevels(trace) && m.Mark?
      ensures ShortestLevels(trace + [m])
    {
      var d :| Levelled(trace, initial, d) && forall s :: s in Nodes(trace) ==> s in d && Distance(initial, actions, s, d[s]);
      AppendMark(trace, m);
      LevelledMark(trace, initial, d, m);
    }

    ghost predicate LevelsDrawn(trace: seq<Event>, depth: map<State, nat>) {
      && depth.Keys == Nodes(trace) && Levelled(trace, initial, depth)
      && (forall s {:trigger Distance(initial, actions, s, depth[s])} :: s in depth ==> Distance(initial, actions, s, depth[s]))
    }

    ghost predicate LevelsQueued(queue: seq<State>, explored: set<State>, depth: map<State, nat>) {
      && explored <= depth.Keys && (forall i :: 0 <= i < |queue| ==> queue[i] in depth)
      && (forall i, j :: 0 <= i < j < |queue| ==> depth[queue[i]] <= depth[queue[j]])
      && (forall i :: 0 <= i < |queue| ==> depth[queue[i]] <= depth[queue[0]] + 1)
      && (queue != [] ==> forall s :: s in explored ==> depth[s] <= depth[queue[0]])
    }

    ghost predicate LevelsCovered(queue: seq<State>, depth: map<State, nat>)
      requires forall i :: 0 <= i < |queue| ==> queue[i] in depth
    {
      queue != [] ==> forall s, k: nat :: k <= depth[queue[0]] && ReachableIn(initial, actions, s, k) ==> s in depth
    }

    /** Taking the head off the queue and appending its new successors one
        level below it keeps the levels. */
    lemma BfsLevelsStep(queue: seq<State>, explored: set<State>, trace: seq<Event>, depth: map<State, nat>,
                        added: seq<State>, trace': seq<Event>)
      requires queue != [] && BfsLevels(queue, explored, trace, depth)
      requires Nodes(trace) == explored + Elems(queue)
      requires forall n :: n in Elems(added) ==> Step(actions, queue[0], n)
      requires Elems(added) !! Nodes(trace) && Nodes(trace') == Nodes(trace) + Elems(added)
      requires forall e :: e in trace' && e.AddEdge? ==> e in trace || (e.from == queue[0] && e.to in Elems(added))
      requires SuccessorsIn(actions, explored + {queue[0]}, Nodes(trace'))
      ensures BfsLevels(queue[1..] + added, explored + {queue[0]}, trace',
                        NextLevels(depth, added, depth[queue[0]] + 1))
    {
      LevelsLabel(queue, explored, trace, depth, added, trace');
      LevelsQueue(queue, explored, trace, depth, added);
      LevelsCover(queue, explored, trace, depth, added, trace');
    }

    /** The new states get level D + 1, which is their distance, and the
        labelling extends to the new edges. */
    lemma LevelsLabel(queue: seq<State>, explored: set<State>, trace: seq<Event>, depth: map<State, nat>,
                      added: seq<State>, trace': seq<Event>)
      requires queue != [] && BfsLevels(queue, explored, trace, depth)
      requires forall n :: n in Elems(added) ==> Step(actions, queue[0], n)
      requires Elems(added) !! Nodes(trace) && Nodes(trace') == Nodes(trace) + Elems(added)
      requires forall e :: e in trace' && e.AddEdge? ==> e in trace || (e.from == queue[0] && e.to in Elems(added))
      ensures LevelsDrawn(trace', NextLevels(depth, added, depth[queue[0]] + 1))
    {
      var D := depth[queue[0]];
      assert Distance(initial, actions, queue[0], D);
      forall n | n in Elems(added) ensures Distance(initial, actions, n, D + 1) {
        ReachableStepOf(initial, actions, queue[0], n, D);
      }
    }

    /** Along the new queue the levels stay sorted within D and D + 1, and
        no explored state is deeper than D. */
    lemma LevelsQueue(queue: seq<State>, explored: set<State>, trace: seq<Event>, depth: map<State, nat>,
                      added: seq<State>)
      requires queue != [] && LevelsQueued(queue, explored, depth)
      requires Elems(added) !! depth.Keys
      ensures LevelsQueued(queue[1..] + added, explored + {queue[0]}, NextLevels(depth, added, depth[queue[0]] + 1))
      ensures forall i :: 0 <= i < |queue[1..] + added| ==>
                depth[queue[0]] <= NextLevels(depth, added, depth[queue[0]] + 1)[(queue[1..] + added)[i]]
    {
      NextLevelsAt(depth, added, depth[queue[0]] + 1);
      QueueBounds(queue, explored, depth, added);
      QueueSorted(queue, explored, depth, added);
    }

    /** A lookup in NextLevels: old states keep their level, new ones get level. */
    lemma NextLevelsAt(depth: map<State, nat>, added: seq<State>, level: nat)
      ensures NextLevels(depth, added, level).Keys == depth.Keys + Elems(added)
      ensures forall s :: s in depth ==> NextLevels(depth, added, level)[s] == depth[s]
      ensures forall s :: s in Elems(added) && s !in depth ==> NextLevels(depth, added, level)[s] == level
    {
    }

    lemma QueueBounds(queue: seq<State>, explored: set<State>, depth: map<State, nat>, added: seq<State>)
      requires queue != [] && LevelsQueued(queue, explored, depth)
      requires Elems(added) !! depth.Keys
      ensures var depth', queue' := NextLevels(depth, added, depth[queue[0]] + 1), queue[1..] + added;
        forall i :: 0 <= i < |queue'| ==>
          queue'[i] in depth' && depth[queue[0]] <= depth'[queue'[i]] <= depth[queue[0]] + 1
    {
      var D := depth[queue[0]];
      var depth' := NextLevels(depth, added, D + 1);
      NextLevelsAt(depth, added, D + 1);
      var rest := queue[1..];
      var queue' := rest + added;
      forall i | 0 <= i < |queue'| ensures queue'[i] in depth' && D <= depth'[queue'[i]] <= D + 1 {
        if i < |rest| {
          assert queue'[i] == queue[i + 1] && queue'[i] in depth;
        } else {
          assert queue'[i] == added[i - |rest|] && queue'[i] in Elems(added);
        }
      }
    }

    lemma QueueSorted(queue: seq<State>, explored: set<State>, depth: map<State, nat>, added: seq<State>)
      requires queue != [] && LevelsQueued(queue, explored, depth)
      requires Elems(added) !! depth.Keys
      ensures var depth', queue' := NextLevels(depth, added, depth[queue[0]] + 1), queue[1..] + added;
        forall i, j :: 0 <= i < j < |queue'| ==>
          queue'[i] in depth' && queue'[j] in depth' && depth'[queue'[i]] <= depth'[queue'[j]]
    {
      var D := depth[queue[0]];
      var depth' := NextLevels(depth, added, D + 1);
      NextLevelsAt(depth, added, D + 1);
      var rest := queue[1..];
      var queue' := rest + added;
      forall i, j | 0 <= i < j < |queue'|
        ensures queue'[i] in depth' && queue'[j] in depth' && depth'[queue'[i]] <= depth'[queue'[j]]
      {
        if j < |rest| {
          assert queue'[i] == queue[i + 1] && queue'[j] == queue[j + 1];
        } else {
          assert queue'[j] == added[j - |rest|] && queue'[j] in Elems(added);
          if i < |rest| {
            assert queue'[i] == queue[i + 1];
          } else {
            assert queue'[i] == added[i - |rest|] && queue'[i] in Elems(added);
          }
        }
      }
    }

    /** Before the first iteration: the initial state alone, at level 0. */
    lemma BfsLevelsStart()
      ensures BfsLevels([initial], {}, [AddNode(initial)], map[initial := 0])
    {
      var t := [AddNode(initial)];
      assert Nodes(t) == {initial};
      ReachableStart(initial, actions);
      forall s, k: nat | k <= 0 && ReachableIn(initial, actions, s, k) ensures s in map[initial := 0] {
        NoTripsOnlyStart(initial, actions, s);
      }
    }

    /** The levels after one iteration of Bfs that did not meet the goal,
        from what BfsExpand guarantees. */
    lemma BfsLevelsNext(queue: seq<State>, explored: set<State>, trace: seq<Event>, depth: map<State, nat>,
                        known: set<State>, queue': seq<State>, known': set<State>, trace': seq<Event>,
                        anyChild: bool, trace'': seq<Event>)
      returns (depth': map<State, nat>)
      requires queue != [] && BfsLevels(queue, explored, trace, depth)
      requires Nodes(trace) == explored + Elems(queue) && known == Nodes(trace)
      requires Expanded(queue[0], queue[1..], known, trace, queue', known', trace', anyChild)
      requires ExpandedInOrder(queue[0], queue[1..], known, trace, queue', trace')
      requires trace'' == if anyChild then trace' else trace' + [Mark(queue[0], DeadEnd)]
      requires SuccessorsIn(actions, explored + {queue[0]}, Nodes(trace''))
      ensures BfsLevels(queue', explored + {queue[0]}, trace'', depth')
      ensures depth' == NextLevels(depth, queue'[|queue| - 1..], depth[queue[0]] + 1)
    {
      ExpansionAdds(queue, known, trace, queue', known', trace', anyChild, trace'');
      BfsLevelsStep(queue, explored, trace, depth, queue'[|queue| - 1..], trace'');
      depth' := NextLevels(depth, queue'[|queue| - 1..], depth[queue[0]] + 1);
    }

    /** What an iteration of Bfs adds: the new states, each one valid trip
        from the popped state and unknown before, and the edges to them. */
    lemma ExpansionAdds(queue: seq<State>, known: set<State>, trace: seq<Event>,
                        queue': seq<State>, known': set<State>, trace': seq<Event>, anyChild: bool, trace'': seq<Event>)
      requires queue != [] && known == Nodes(trace)
      requires Expanded(queue[0], queue[1..], known, trace, queue', known', trace', anyChild)
      requires ExpandedInOrder(queue[0], queue[1..], known, trace, queue', trace')
      requires trace'' == if anyChild then trace' else trace' + [Mark(queue[0], DeadEnd)]
      ensures queue' == queue[1..] + queue'[|queue| - 1..]
      ensures forall n :: n in Elems(queue'[|queue| - 1..]) ==> Step(actions, queue[0], n)
      ensures Elems(queue'[|queue| - 1..]) !! Nodes(trace)
      ensures Nodes(trace'') == Nodes(trace) + Elems(queue'[|queue| - 1..])
      ensures forall e :: e in trace'' && e.AddEdge? ==>
                e in trace || (e.from == queue[0] && e.to in Elems(queue'[|queue| - 1..]))
    {
      var current := queue[0];
      var added := queue'[|queue| - 1..];
      AdmittedSteps(current, known, actions);
      if !anyChild {
        assert added == [] && Elems(added) == {};
        AppendMark(trace', Mark(current, DeadEnd));
        assert forall e :: e in trace'' ==> e in trace || e == Mark(current, DeadEnd);
      }
    }

    /** Every state reachable within the new head's level is drawn: one
        level further than before, it is a successor of an explored state. */
    lemma LevelsCover(queue: seq<State>, explored: set<State>, trace: seq<Event>, depth: map<State, nat>,
                      added: seq<State>, trace': seq<Event>)
      requires queue != [] && LevelsDrawn(trace, depth) && LevelsQueued(queue, explored, depth)
      requires LevelsCovered(queue, depth)
      requires Nodes(trace) == explored + Elems(queue) && Nodes(trace) <= Nodes(trace')
      requires SuccessorsIn(actions, explored + {queue[0]}, Nodes(trace'))
      requires NextLevels(depth, added, depth[queue[0]] + 1).Keys == Nodes(trace')
      requires LevelsQueued(queue[1..] + added, explored + {queue[0]}, NextLevels(depth, added, depth[queue[0]] + 1))
      requires forall i :: 0 <= i < |queue[1..] + added| ==>
                 depth[queue[0]] <= NextLevels(depth, added, depth[queue[0]] + 1)[(queue[1..] + added)[i]]
      ensures LevelsCovered(queue[1..] + added, NextLevels(depth, added, depth[queue[0]] + 1))
    {
      var D := depth[queue[0]];
      var depth' := NextLevels(depth, added, D + 1);
      var queue' := queue[1..] + added;
      if queue' != [] {
        var D' := depth'[queue'[0]];
        RestDeeper(queue, explored, depth, added);
        forall s, k: nat | k <= D' && ReachableIn(initial, actions, s, k) ensures s in depth' {
          if k > D {
            CoverOne(queue, explored, trace, depth, trace', s);
          }
        }
      }
    }

    /** The states left in the queue are no shallower than the new head. */
    lemma RestDeeper(queue: seq<State>, explored: set<State>, depth: map<State, nat>, added: seq<State>)
      requires queue != [] && queue[1..] + added != [] && forall i :: 0 <= i < |queue| ==> queue[i] in depth
      requires LevelsQueued(queue[1..] + added, explored + {queue[0]}, NextLevels(depth, added, depth[queue[0]] + 1))
      ensures forall s :: s in queue[1..] ==>
                s in depth && NextLevels(depth, added, depth[queue[0]] + 1)[(queue[1..] + added)[0]] <= depth[s]
    {
      var depth' := NextLevels(depth, added, depth[queue[0]] + 1);
      var queue' := queue[1..] + added;
      NextLevelsAt(depth, added, depth[queue[0]] + 1);
      forall s | s in queue[1..] ensures s in depth && depth'[queue'[0]] <= depth[s] {
        var i :| 0 <= i < |queue| - 1 && queue[1..][i] == s;
        assert queue'[i] == s;
        assert s in depth by {
          assert s == queue[i + 1];
        }
      }
    }

    /** A state one trip beyond the head's level, when nothing queued after
        the head is that shallow, is a successor of an explored state. */
    lemma CoverOne(queue: seq<State>, explored: set<State>, trace: seq<Event>, depth: map<State, nat>,
                   trace': seq<Event>, s: State)
      requires queue != [] && queue[0] in depth && LevelsDrawn(trace, depth)
      requires (forall i :: 0 <= i < |queue| ==> queue[i] in depth) && LevelsCovered(queue, depth)
      requires Nodes(trace) == explored + Elems(queue)
      requires forall x :: x in queue[1..] ==> x in depth && depth[queue[0]] < depth[x]
      requires SuccessorsIn(actions, explored + {queue[0]}, Nodes(trace'))
      requires ReachableIn(initial, actions, s, depth[queue[0]] + 1)
      ensures s in Nodes(trace')
    {
      var D := depth[queue[0]];
      ReachablePredecessor(initial, actions, s, D);
      var p :| ReachableIn(initial, actions, p, D) && Step(actions, p, s);
      assert p in depth;
      assert Distance(initial, actions, p, depth[p]);
      assert p !in queue[1..];
      assert p in explored + {queue[0]} by {
        assert p in Elems(queue) ==> p in queue;
        assert queue == [queue[0]] + queue[1..];
      }
      var a :| a in actions && s == ApplyAction(p, a) && ValidState(s);
    }

    /** Breadth-first search with a FIFO queue. A successor is admitted only
        if it is valid and neither explored nor queued, so every state is
        queued and drawn at most once; the goal test is made on dequeue. */
    method Bfs() returns (found: bool, trace: seq<Event>)
      ensures TreeSearchOutcome(found, trace)
      ensures ShortestLevels(trace)
    {
      var queue: seq<State> := [initial];
      var explored: set<State> := {};
      trace := [AddNode(initial)];
      assert Nodes(trace) == {initial};
      ReachableStart(initial, actions);

      ghost var depth: map<State, nat> := map[initial := 0];
      BfsLevelsStart();

      while queue != []
        invariant BfsInv(queue, explored, trace)
        invariant BfsLevels(queue, explored, trace, depth)
        decreases Universe() - Nodes(trace), |queue|
      {
        PopFront(queue, explored);
        var current := queue[0];

        if current == goal {
          GoalOutcome(trace, explored);
          LevelsShortest(queue, explored, trace, depth);
          ShortestLevelsMark(trace, Mark(current, Goal));
          trace := trace + [Mark(current, Goal)];
          found := true;
          return;
        }

        queue, explored, trace, depth := BfsVisit(queue, explored, trace, depth);
      }

      found := false;
      ExhaustedOutcome(trace, explored);
      LevelsShortest(queue, explored, trace, depth);
    }

    /** The body of Bfs's loop for a head that is not the goal: pop it, mark
        it explored, expand it, and draw it as a dead end when none of its
        children was new.  Both loop invariants are kept and the loop's
        measure goes down. */
    method BfsVisit(queue: seq<State>, explored: set<State>, trace: seq<Event>, ghost depth: map<State, nat>)
      returns (queue': seq<State>, explored': set<State>, trace': seq<Event>, ghost depth': map<State, nat>)
      requires BfsInv(queue, explored, trace) && queue != [] && queue[0] != goal
      requires BfsLevels(queue, explored, trace, depth)
      ensures explored' == explored + {queue[0]}
      ensures BfsInv(queue', explored', trace')
      ensures BfsLevels(queue', explored', trace', depth')
      ensures || Universe() - Nodes(trace') < Universe() - Nodes(trace)
              || (Nodes(trace') == Nodes(trace) && |queue'| < |queue|)
    {
      PopFront(queue, explored);
      var current := queue[0];
      queue' := queue[1..];
      explored' := explored + {current};
      var known := explored' + Elems(queue');
      var anyChild;
      queue', known, trace', anyChild := BfsExpand(current, queue', known, trace);
      ghost var expanded := trace';
      if !anyChild {
        trace' := trace' + [Mark(current, DeadEnd)];
      }
      depth' := BfsStep(queue, explored, trace, depth, queue', known, expanded, anyChild, trace');
    }

    /** One iteration of Bfs on a state that is not the goal keeps both loop
        invariants and makes progress: a new state is drawn, or the drawing
        keeps its states and the queue shrinks. */
    lemma BfsStep(queue: seq<State>, explored: set<State>, trace: seq<Event>, depth: map<State, nat>,
                  queue': seq<State>, known': set<State>, trace': seq<Event>, anyChild: bool, trace'': seq<Event>)
      returns (depth': map<State, nat>)
      requires BfsInv(queue, explored, trace) && queue != [] && queue[0] != goal
      requires BfsLevels(queue, explored, trace, depth)
      requires Expanded(queue[0], queue[1..], explored + {queue[0]} + Elems(queue[1..]), trace,
                        queue', known', trace', anyChild)
      requires ExpandedInOrder(queue[0], queue[1..], explored + {queue[0]} + Elems(queue[1..]), trace,
                               queue', trace')
      requires trace'' == if anyChild then trace' else trace' + [Mark(queue[0], DeadEnd)]
      ensures BfsInv(queue', explored + {queue[0]}, trace'')
      ensures BfsLevels(queue', explored + {queue[0]}, trace'', depth')
      ensures || Universe() - Nodes(trace'') < Universe() - Nodes(trace)
              || (Nodes(trace'') == Nodes(trace) && |queue'| < |queue|)
    {
      if anyChild {
        BfsStepExpanded(queue, explored, trace, queue', known', trace');
      } else {
        BfsStepDeadEnd(queue, explored, trace, queue', known', trace');
      }
      PopFront(queue, explored);
      PoppedKnown(explored, queue, Nodes(trace));
      depth' := BfsLevelsNext(queue, explored, trace, depth, explored + {queue[0]} + Elems(queue[1..]),
                              queue', known', trace', anyChild, trace'');
    }

    /** One iteration of Bfs on a state that is not the goal and that gains
        children keeps BfsInv and draws a new state. */
    lemma BfsStepExpanded(queue: seq<State>, explored: set<State>, trace: seq<Event>,
                          queue': seq<State>, known': set<State>, trace': seq<Event>)
      requires BfsInv(queue, explored, trace) && queue != [] && queue[0] != goal
      requires Expanded(queue[0], queue[1..], explored + {queue[0]} + Elems(queue[1..]), trace,
                        queue', known', trace', true)
      ensures BfsInv(queue', explored + {queue[0]}, trace')
      ensures Universe() - Nodes(trace') < Universe() - Nodes(trace)
    {
      var current, rest := queue[0], queue[1..];
      PopFront(queue, explored);
      var explored' := explored + {current};
      AppendFresh(rest, queue'[|rest|..], explored');
      ExpansionSettles(trace, trace', explored', explored, current);
      assert queue'[|queue'| - 1] in Nodes(trace') - Nodes(trace);
    }

    /** One iteration of Bfs on a state that is not the goal and gains no
        children keeps BfsInv once the state is coloured a dead end, and
        shortens the queue. */
    lemma BfsStepDeadEnd(queue: seq<State>, explored: set<State>, trace: seq<Event>,
                         queue': seq<State>, known': set<State>, trace': seq<Event>)
      requires BfsInv(queue, explored, trace) && queue != [] && queue[0] != goal
      requires Expanded(queue[0], queue[1..], explored + {queue[0]} + Elems(queue[1..]), trace,
                        queue', known', trace', false)
      ensures BfsInv(queue', explored + {queue[0]}, trace' + [Mark(queue[0], DeadEnd)])
      ensures Nodes(trace' + [Mark(queue[0], DeadEnd)]) == Nodes(trace) && |queue'| < |queue|
    {
      var current, rest := queue[0], queue[1..];
      PopFront(queue, explored);
      var explored' := explored + {current};
      AppendFresh(rest, queue'[|rest|..], explored');
      ExpansionSettles(trace, trace', explored', explored, current);
      MarkInDrawing(trace', initial, actions, Mark(current, DeadEnd));
      DeadEndSettles(trace', explored', explored, current);
    }

    /** The outcome of expanding current in Bfs: the new states, valid,
        unknown before and without repeats, are appended to the queue, made
        known and drawn with edges from current; every valid successor of
        current is then known; a child is reported exactly when one was
        added, and then the drawing's first new edge leaves current. */
    ghost predicate Expanded(current: State, queue: seq<State>, known: set<State>, trace: seq<Event>,
                             queue': seq<State>, known': set<State>, trace': seq<Event>, anyChild: bool) {
      && |queue| <= |queue'| && queue' == queue + queue'[|queue|..] && ExtendsFrom(trace, trace', current)
      && (anyChild <==> |queue'| > |queue|)
      && (!anyChild ==> trace' == trace)
      && Nodes(trace') == known' && known' == known + Elems(queue'[|queue|..])
      && NoDup(queue'[|queue|..]) && Elems(queue'[|queue|..]) !! known
      && Elems(queue'[|queue|..]) <= ValidStates()
      && (forall a :: a in actions && ValidState(ApplyAction(current, a)) ==> ApplyAction(current, a) in known')
      && TreeDrawn(trace', initial, actions)
      && (anyChild ==> FirstEdgeFrom(trace, trace', current))
    }

    /** ... and in action order: the appended states and the drawing are
        exactly those of the admitted actions. */
    ghost predicate ExpandedInOrder(current: State, queue: seq<State>, known: set<State>, trace: seq<Event>,
                                    queue': seq<State>, trace': seq<Event>) {
      && |queue| <= |queue'|
      && queue'[|queue|..] == Targets(current, Admitted(current, known, actions))
      && trace' == trace + Discoveries(current, Admitted(current, known, actions))
    }

    /** What BfsExpand keeps true after the first i actions. */
    ghost predicate ExpandInv(current: State, known: set<State>, trace: seq<Event>, i: int,
                              children: seq<State>, known': set<State>, trace': seq<Event>) {
      && 0 <= i <= |actions|
      && ExtendsFrom(trace, trace', current)
      && (children == [] ==> trace' == trace)
      && Nodes(trace') == known' && known' == known + Elems(children)
      && NoDup(children) && Elems(children) !! known && Elems(children) <= ValidStates()
      && (forall j :: 0 <= j < i && ValidState(ApplyAction(current, actions[j])) ==>
            ApplyAction(current, actions[j]) in known')
      && TreeDrawn(trace', initial, actions)
      && (children != [] ==> FirstEdgeFrom(trace, trace', current))
    }

    /** Trying action i: a valid successor not yet known is appended to the
        children, made known and drawn; anything else changes nothing. */
    lemma ExpandStep(current: State, known: set<State>, trace: seq<Event>, i: int,
                     children: seq<State>, known': set<State>, trace': seq<Event>)
      requires ExpandInv(current, known, trace, i, children, known', trace') && i < |actions|
      requires current in known
      ensures var n := ApplyAction(current, actions[i]);
        if ValidState(n) && n !in known' then
          ExpandInv(current, known, trace, i + 1, children + [n], known' + {n},
                    trace' + Discovery(current, n, actions[i], None))
        else
          ExpandInv(current, known, trace, i + 1, children, known', trace')
    {
      var a := actions[i];
      var n := ApplyAction(current, a);
      if ValidState(n) && n !in known' {
        DiscoverInTree(trace, trace', initial, actions, current, a);
        SuccessorInValidStates(current, a);
        AppendOne(children, n);
      }
    }

    /** The `for action in self.actions` loop of bfs: in action order, each
        valid successor of current that is not yet known is queued, made
        known and drawn with its edge. */
    method BfsExpand(current: State, queue: seq<State>, known: set<State>, trace: seq<Event>)
      returns (queue': seq<State>, known': set<State>, trace': seq<Event>, anyChild: bool)
      requires Nodes(trace) == known && current in known
      requires TreeDrawn(trace, initial, actions)
      ensures Expanded(current, queue, known, trace, queue', known', trace', anyChild)
      ensures ExpandedInOrder(current, queue, known, trace, queue', trace')
    {
      // The states queued by this expansion, in the order they are appended.
      var children: seq<State> := [];
      ghost var admitted: seq<Action> := [];
      known', trace' := known, trace;
      for i := 0 to |actions|
        invariant ExpandInv(current, known, trace, i, children, known', trace')
        invariant admitted == Admitted(current, known, actions[..i])
        invariant children == Targets(current, admitted) && trace' == trace + Discoveries(current, admitted)
      {
        ExpandStep(current, known, trace, i, children, known', trace');
        var action := actions[i];
        var newState := ApplyAction(current, action);
        assert actions[..i + 1][..i] == actions[..i] && actions[..i + 1][i] == action;
        if ValidState(newState) && newState !in known' {
          children := children + [newState];
          known' := known' + {newState};
          trace' := trace' + Discovery(current, newState, action, None);
          AdmitNext(current, trace, admitted, action);
          admitted := admitted + [action];
        }
      }
      assert actions[..|actions|] == actions;
      forall a | a in actions && ValidState(ApplyAction(current, a)) ensures ApplyAction(current, a) in known' {
        var j :| 0 <= j < |actions| && actions[j] == a;
      }
      queue' := queue + children;
      anyChild := children != [];
      assert queue'[|queue|..] == children;
    }
  
    //--------------------------------------
    // Depth-first search

    /** What a call of the inner recursion may assume: the state is new and
        in range, the drawing holds exactly the explored states, and below
        the root the parent is explored, uncoloured and one valid trip away. */
    ghost predicate DfsEntry(state: State, parent: Option<(State, Action)>, explored: set<State>, trace: seq<Event>) {
      && explored <= Universe() && state in Universe() && state !in explored && goal !in explored
      && Nodes(trace) == explored
      && (parent.None? ==> trace == [] && state == initial)
      && (parent.Some? ==>
            && TreeDrawn(trace, initial, actions)
            && parent.value.0 in explored && Mark(parent.value.0, DeadEnd) !in trace
            && parent.value.1 in actions
            && state == ApplyAction(parent.value.0, parent.value.1) && ValidState(state))
      && Settled(trace, explored) && DeadEndsChildless(trace)
    }

    /** What a call of the inner recursion that did not find the goal
        guarantees: the states it explored are drawn, closed under valid
        trips and each has children or a dead-end colour; the log only grew,
        with no new colour on a state explored before; and the parent has
        children. */
    ghost predicate DfsDone(state: State, parent: Option<(State, Action)>, explored: set<State>, trace: seq<Event>,
                            explored': set<State>, trace': seq<Event>) {
      && Nodes(trace') == explored' && explored + {state} <= explored' && explored' <= Universe()
      && goal !in explored'
      && SuccessorsIn(actions, explored' - explored, explored')
      && Accounted(trace', explored' - explored)
      && TreeDrawn(trace', initial, actions) && Settled(trace', explored') && DeadEndsChildless(trace')
      && trace <= trace' && NoNewMarksOn(trace, trace', explored)
      && (parent.Some? ==> HasChild(trace', parent.value.0))
    }

    /** What the loop over the actions of one call keeps true after the
        first i actions, against the explored set and log it was entered
        with. */
    ghost predicate DfsLoopInv(state: State, parent: Option<(State, Action)>, explored0: set<State>, trace0: seq<Event>,
                               i: int, explored: set<State>, trace: seq<Event>, anyChild: bool) {
      && 0 <= i <= |actions|
      && state !in explored0
      && Nodes(trace) == explored && explored0 + {state} <= explored && explored <= Universe()
      && goal !in explored
      && SuccessorsIn(actions, explored - explored0 - {state}, explored)
      && (forall j :: 0 <= j < i && ValidState(ApplyAction(state, actions[j])) ==>
            ApplyAction(state, actions[j]) in explored)
      && Accounted(trace, explored - explored0 - {state})
      && TreeDrawn(trace, initial, actions) && Settled(trace, explored) && DeadEndsChildless(trace)
      && trace0 <= trace && NoNewMarksOn(trace0, trace, explored0) && Mark(state, DeadEnd) !in trace
      && (parent.Some? ==> HasChild(trace, parent.value.0))
      && !HasChild(Drawing(state, parent, trace0), state)
      && (!anyChild ==> trace == Drawing(state, parent, trace0))
      && (anyChild ==> HasChild(trace, state))
    }

    /** Drawing the entered state keeps a tree whose explored states are
        settled; the new node has no children yet, and below the root the
        parent now has one. */
    lemma DrawEntered(state: State, parent: Option<(State, Action)>, explored: set<State>, trace: seq<Event>)
      requires DfsEntry(state, parent, explored, trace)
      ensures var d := Drawing(state, parent, trace);
        && TreeDrawn(d, initial, actions) && Nodes(d) == explored + {state}
        && Settled(d, explored) && DeadEndsChildless(d) && !HasChild(d, state)
        && trace <= d && (forall e :: e in d && e.Mark? ==> e in trace) && Mark(state, DeadEnd) !in d
        && (parent.Some? ==> HasChild(d, parent.value.0))
    {
      var d := Drawing(state, parent, trace);
      match parent {
        case None =>
          assert d == [AddNode(state)];
          ReachableStart(initial, actions);
        case Some(pa) =>
          var (p, a) := pa;
          assert d == trace + Discovery(p, state, a, None);
          DiscoverInTree(trace, trace, initial, actions, p, a);
          ExpansionSettles(trace, d, explored, {}, p);
          ExtendsFromChildren(trace, d, p);
      }
    }

    /** Entering a state: at the goal the search ends found; otherwise the
        state joins the explored set and the loop over the actions starts. */
    lemma DfsDraw(state: State, parent: Option<(State, Action)>, explored: set<State>, trace: seq<Event>)
      requires DfsEntry(state, parent, explored, trace)
      ensures state == goal ==> TreeSearchOutcome(true, Drawing(state, parent, trace) + [Mark(state, Goal)])
      ensures state != goal ==>
        DfsLoopInv(state, parent, explored, trace, 0, explored + {state}, Drawing(state, parent, trace), false)
    {
      var d := Drawing(state, parent, trace);
      DrawEntered(state, parent, explored, trace);
      if state == goal {
        GoalOutcome(d, explored);
      }
    }

    /** A valid successor not yet explored may be entered as a child, and
        entering it is a smaller problem. */
    lemma DfsChild(state: State, parent: Option<(State, Action)>, explored0: set<State>, trace0: seq<Event>,
                   i: int, explored: set<State>, trace: seq<Event>, anyChild: bool)
      requires DfsLoopInv(state, parent, explored0, trace0, i, explored, trace, anyChild) && i < |actions|
      requires ValidState(ApplyAction(state, actions[i])) && ApplyAction(state, actions[i]) !in explored
      ensures DfsEntry(ApplyAction(state, actions[i]), Some((state, actions[i])), explored, trace)
      ensures Universe() - explored < Universe() - explored0
    {
      SuccessorInValidStates(state, actions[i]);
      assert state in (Universe() - explored0) - (Universe() - explored);
    }

    /** After a child returns without the goal, the loop moves on to the
        next action with the child's explored set and log. */
    lemma DfsAfterChild(state: State, parent: Option<(State, Action)>, explored0: set<State>, trace0: seq<Event>,
                        i: int, explored: set<State>, trace: seq<Event>, anyChild: bool,
                        explored': set<State>, trace': seq<Event>)
      requires DfsLoopInv(state, parent, explored0, trace0, i, explored, trace, anyChild) && i < |actions|
      requires DfsDone(ApplyAction(state, actions[i]), Some((state, actions[i])), explored, trace, explored', trace')
      ensures DfsLoopInv(state, parent, explored0, trace0, i + 1, explored', trace', true)
    {
      var before := explored - explored0 - {state};
      assert explored' - explored0 - {state} == before + (explored' - explored);
      SuccessorsJoin(actions, before, explored, explored' - explored, explored');
      AccountedGrows(trace, trace', before, explored' - explored);
      NoNewMarksTrans(trace0, trace, trace', explored0, explored);
      PrefixKeeps(trace, trace');
      PrefixTrans(trace0, trace, trace');
    }

    /** An action that gives no new valid successor changes nothing. */
    lemma DfsSkip(state: State, parent: Option<(State, Action)>, explored0: set<State>, trace0: seq<Event>,
                  i: int, explored: set<State>, trace: seq<Event>, anyChild: bool)
      requires DfsLoopInv(state, parent, explored0, trace0, i, explored, trace, anyChild) && i < |actions|
      requires !(ValidState(ApplyAction(state, actions[i])) && ApplyAction(state, actions[i]) !in explored)
      ensures DfsLoopInv(state, parent, explored0, trace0, i + 1, explored, trace, anyChild)
    {
    }

    /** After the last action every valid successor of the state, and so of
        every state this call explored, is explored. */
    lemma DfsClosed(state: State, parent: Option<(State, Action)>, explored0: set<State>, trace0: seq<Event>,
                    explored: set<State>, trace: seq<Event>, anyChild: bool)
      requires DfsLoopInv(state, parent, explored0, trace0, |actions|, explored, trace, anyChild)
      ensures SuccessorsIn(actions, explored - explored0, explored)
    {
      var before := explored - explored0 - {state};
      forall a | a in actions && ValidState(ApplyAction(state, a)) ensures ApplyAction(state, a) in explored {
        var j :| 0 <= j < |actions| && actions[j] == a;
      }
      SuccessorsJoin(actions, before, explored, {state}, explored);
      assert explored - explored0 == before + {state};
    }

    /** After the last action, a state that entered a child ends the call
        as it is. */
    lemma DfsFinishExpanded(state: State, parent: Option<(State, Action)>, explored0: set<State>, trace0: seq<Event>,
                            explored: set<State>, trace: seq<Event>)
      requires DfsLoopInv(state, parent, explored0, trace0, |actions|, explored, trace, true)
      ensures DfsDone(state, parent, explored0, trace0, explored, trace)
    {
      DfsClosed(state, parent, explored0, trace0, explored, trace, true);
      assert explored - explored0 == (explored - explored0 - {state}) + {state};
    }

    /** After the last action, a state that entered no child is coloured a
        dead end. */
    lemma DfsFinishDeadEnd(state: State, parent: Option<(State, Action)>, explored0: set<State>, trace0: seq<Event>,
                           explored: set<State>, trace: seq<Event>)
      requires DfsLoopInv(state, parent, explored0, trace0, |actions|, explored, trace, false)
      ensures DfsDone(state, parent, explored0, trace0, explored, trace + [Mark(state, DeadEnd)])
    {
      var m := Mark(state, DeadEnd);
      DfsClosed(state, parent, explored0, trace0, explored, trace, false);
      assert explored - explored0 == (explored - explored0 - {state}) + {state};
      MarkInDrawing(trace, initial, actions, m);
      DeadEndSettles(trace, explored, explored - explored0 - {state}, state);
      assert trace <= trace + [m];
      PrefixTrans(trace0, trace, trace + [m]);
      PrefixKeeps(trace, trace + [m]);
      assert NoNewMarksOn(trace, trace + [m], explored0);
      NoNewMarksTrans(trace0, trace, trace + [m], explored0, explored0);
    }

    /** The inner recursion of dfs: draw the state and the edge from its
        parent; stop at the goal; otherwise explore it and, in action order,
        enter every valid successor not yet explored, returning at once when
        one of them finds the goal; a state that entered no child is
        coloured a dead end. */
    method Recursion(state: State, parent: Option<(State, Action)>, explored: set<State>, trace: seq<Event>)
      returns (found: bool, explored': set<State>, trace': seq<Event>)
      requires DfsEntry(state, parent, explored, trace)
      ensures found ==> TreeSearchOutcome(true, trace')
      ensures !found ==> DfsDone(state, parent, explored, trace, explored', trace')
      decreases Universe() - explored
    {
      DfsDraw(state, parent, explored, trace);
      trace' := Drawing(state, parent, trace);

      if state == goal {
        trace' := trace' + [Mark(state, Goal)];
        return true, explored, trace';
      }

      explored' := explored + {state};
      var anyChild := false;
      for i := 0 to |actions|
        invariant DfsLoopInv(state, parent, explored, trace, i, explored', trace', anyChild)
      {
        var action := actions[i];
        var newState := ApplyAction(state, action);
        if ValidState(newState) && newState !in explored' {
          DfsChild(state, parent, explored, trace, i, explored', trace', anyChild);
          ghost var exploredBefore, traceBefore, anyBefore := explored', trace', anyChild;
          anyChild := true;
          var childFound;
          childFound, explored', trace' := Recursion(newState, Some((state, action)), explored', trace');
          if childFound {
            return true, explored', trace';
          }
          DfsAfterChild(state, parent, explored, trace, i, exploredBefore, traceBefore, anyBefore, explored', trace');
        } else {
          DfsSkip(state, parent, explored, trace, i, explored', trace', anyChild);
        }
      }

      if anyChild {
        DfsFinishExpanded(state, parent, explored, trace, explored', trace');
      } else {
        DfsFinishDeadEnd(state, parent, explored, trace, explored', trace');
        trace' := trace' + [Mark(state, DeadEnd)];
      }
      found := false;
    }

    /** Depth-first search: the inner recursion entered at the initial
        state with nothing explored and nothing drawn. */
    method Dfs() returns (found: bool, trace: seq<Event>)
      ensures TreeSearchOutcome(found, trace)
    {
      var explored;
      found, explored, trace := Recursion(initial, None, {}, []);
      if !found {
        ExhaustedOutcome(trace, explored);
      }
    }

    //--------------------------------------
    // Greedy best-first and A* search

    /** Every recorded cost is the length of a valid path to its state. */
    ghost predicate CostsReached(costs: map<State, nat>) {
      forall s :: s in costs ==> ReachableIn(initial, actions, s, costs[s])
    }

    /** An edge of an informed search carries the priority its target was
        pushed with: the greedy heuristic, or for A* a number of trips along
        a valid path to the target plus the A* heuristic. */
    ghost predicate LabelOk(strategy: Strategy, e: Event)
      requires e.AddEdge?
    {
      && e.cost.Some?
      && match strategy
         case GreedyBestFirst => e.cost.value == HeuristicGbfs(e.to, goal)
         case AStarSearch =>
           var g := e.cost.value - HeuristicAStar(e.to);
           g >= 1 && ReachableIn(initial, actions, e.to, g)
    }

    ghost predicate Labelled(strategy: Strategy, t: seq<Event>) {
      forall e :: e in t && e.AddEdge? ==> LabelOk(strategy, e)
    }

    /** What the informed searches promise: the goal is found exactly when it
        is reachable, and then the log ends with its goal colour; the log
        draws nodes reached by valid trips from the initial state, with every
        edge labelled by its priority; colours fall on drawn nodes only, the
        goal colour only last, a dead-end colour never on the goal; and when
        the goal is not found every reachable state is drawn and every drawn
        node has children or is coloured a dead end. A state may be drawn
        more than once. */
    ghost predicate BestFirstOutcome(strategy: Strategy, found: bool, trace: seq<Event>) {
      && (found <==> Reachable(initial, actions, goal))
      && (found <==> Found(trace, goal))
      && Drawn(trace, initial, actions) && Labelled(strategy, trace) && MarksOnNodes(trace)
      && GoalMarkLast(trace, goal) && DeadEndsNotGoal(trace, goal)
      && (!found ==> Accounted(trace, Nodes(trace)))
      && (!found ==> forall s :: Reachable(initial, actions, s) ==> s in Nodes(trace))
    }

    /** What BestFirst keeps true between iterations: BestQueued about the
        queue and the cost table, BestDrawn about the drawing. */
    ghost predicate BestInv(strategy: Strategy, queue: seq<Entry>, position: int, costs: map<State, nat>,
                            expanded: set<State>, trace: seq<Event>) {
      BestQueued(queue, position, costs, expanded) && BestDrawn(strategy, costs, expanded, trace)
    }

    /** The recorded states are exactly the expanded ones and the queued
        ones; each recorded cost is the length of a valid path, and the
        initial state's is 0; queue
        positions are unique and at most the push counter; the goal was not
        expanded; every successor of an expanded state has a cost. */
    ghost predicate BestQueued(queue: seq<Entry>, position: int, costs: map<State, nat>, expanded: set<State>) {
      && costs.Keys == expanded + States(queue) && costs.Keys <= Universe() && CostsReached(costs)
      && initial in costs && costs[initial] == 0
      && position >= 0 && DistinctPositions(queue) && (forall e :: e in queue ==> 0 <= e.position <= position)
      && goal !in expanded
      && SuccessorsIn(actions, expanded, costs.Keys)
    }

    /** The drawn states are exactly the recorded ones, with edges labelled
        by their priorities; expanded states carry only dead-end colours, are
        the only ones with edges, and each has children or is coloured. */
    ghost predicate BestDrawn(strategy: Strategy, costs: map<State, nat>, expanded: set<State>, trace: seq<Event>) {
      && Nodes(trace) == costs.Keys
      && Drawn(trace, initial, actions) && Labelled(strategy, trace)
      && Settled(trace, expanded) && Accounted(trace, expanded)
    }

    /** The start of both informed searches: the initial state queued with
        priority 0 at position 0, with cost 0, and drawn. */
    lemma BestStart(strategy: Strategy)
      ensures BestInv(strategy, [Entry(0, 0, initial)], 0, map[initial := 0], {}, [AddNode(initial)])
    {
      var t := [AddNode(initial)];
      assert Nodes(t) == {initial};
      assert States([Entry(0, 0, initial)]) == {initial};
      ReachableStart(initial, actions);
    }

    /** Colouring the goal, which has a cost, ends the search with the goal
        found. */
    lemma BestGoal(strategy: Strategy, queue: seq<Entry>, position: int, costs: map<State, nat>,
                   expanded: set<State>, trace: seq<Event>)
      requires BestInv(strategy, queue, position, costs, expanded, trace) && goal in costs
      ensures BestFirstOutcome(strategy, true, trace + [Mark(goal, Goal)])
    {
      MarkInDrawing(trace, initial, actions, Mark(goal, Goal));
      GoalMarked(trace, expanded, goal);
      MarkLabelled(strategy, trace, Mark(goal, Goal));
      assert ReachableIn(initial, actions, goal, costs[goal]);
    }

    /** A colour never breaks the edge labels. */
    lemma MarkLabelled(strategy: Strategy, t: seq<Event>, m: Event)
      requires Labelled(strategy, t) && m.Mark?
      ensures Labelled(strategy, t + [m])
    {
      assert forall e :: e in t + [m] ==> e in t || e == m;
    }

    /** An empty queue ends the search with the goal not found. */
    lemma BestExhausted(strategy: Strategy, position: int, costs: map<State, nat>,
                        expanded: set<State>, trace: seq<Event>)
      requires BestInv(strategy, [], position, costs, expanded, trace)
      ensures BestFirstOutcome(strategy, false, trace)
    {
      assert States([]) == {};
      assert initial in Nodes(trace) by {
        assert trace[0] in trace;
      }
      forall s | Reachable(initial, actions, s) ensures s in expanded {
        ClosedContainsReachable(initial, actions, expanded, s);
      }
      assert trace[|trace| - 1] in trace;
    }

    /** The informed searches: take out the queued entry with the least
        (priority, position); stop at the goal; otherwise try the actions in
        order and, for each valid successor whose cost through the current
        state beats its recorded cost, record that cost, push it with the
        next position and draw it with an edge labelled by its priority; a
        state that pushed nothing is coloured a dead end. An entry whose cost
        was later improved is not skipped: its state is expanded again. */
    method BestFirst(strategy: Strategy) returns (found: bool, trace: seq<Event>)
      ensures BestFirstOutcome(strategy, found, trace)
    {
      var queue := [Entry(0, 0, initial)];
      var position := 0;
      var costs: map<State, nat> := map[initial := 0];
      ghost var expanded: set<State> := {};
      trace := [AddNode(initial)];
      BestStart(strategy);

      while queue != []
        invariant BestInv(strategy, queue, position, costs, expanded, trace)
        decreases Universe() - costs.Keys, Below(costs), |queue|
      {
        ghost var queue0, position0, costs0, trace0 := queue, position, costs, trace;
        var entry, rest := Get(queue);
        var current := entry.state;

        if current == goal {
          BestGoal(strategy, queue, position, costs, expanded, trace);
          trace := trace + [Mark(current, Goal)];
          found := true;
          return;
        }

        var anyChild;
        queue, position, costs, trace, anyChild := BestExpand(strategy, current, rest, position, costs, trace);
        if anyChild {
          QueuedExpanded(strategy, queue0, position0, costs0, expanded, trace0, entry, rest,
                         queue, position, costs, trace);
          BestProgress(strategy, current, costs0, position0, trace0, queue[|rest|..], costs, trace);
          DrawnExpanded(strategy, current, rest, position0, costs0, expanded, trace0, queue, position, costs, trace);
        } else {
          QueuedDeadEnd(strategy, queue0, position0, costs0, expanded, trace0, entry, rest,
                        queue, position, costs, trace);
          DrawnDeadEnd(strategy, current, rest, position0, costs0, expanded, trace0, queue, position, costs, trace);
          trace := trace + [Mark(current, DeadEnd)];
        }
        expanded := expanded + {current};
      }

      found := false;
      BestExhausted(strategy, position, costs, expanded, trace);
    }

    /** The queue and cost table after one iteration on a state that is not
        the goal and pushed successors: BestQueued holds again. */
    lemma QueuedExpanded(strategy: Strategy, queue: seq<Entry>, position: int, costs: map<State, nat>,
                         expanded: set<State>, trace: seq<Event>, e: Entry, rest: seq<Entry>,
                         queue': seq<Entry>, position': int, costs': map<State, nat>, trace': seq<Event>)
      requires BestQueued(queue, position, costs, expanded)
      requires e in queue && e.state != goal && States(queue) == States(rest) + {e.state}
      requires DistinctPositions(rest) && forall x :: x in rest ==> x in queue
      requires BestExpanded(strategy, e.state, rest, position, costs, trace, queue', position', costs', trace', true)
      ensures BestQueued(queue', position', costs', expanded + {e.state})
    {
      var pushed := queue'[|rest|..];
      assert queue' == rest + pushed;
      BestClosed(strategy, e.state, costs, position, trace, pushed, costs', trace');
      forall s | s in States(pushed) ensures s in Universe() {
        var x :| x in pushed && x.state == s;
      }
      ExpansionCosts(strategy, e.state, costs, position, trace, pushed, costs', trace');
      PushEntries(rest, pushed, position);
      KeysAfter(costs.Keys, expanded, States(queue), States(rest), e.state, States(pushed), costs'.Keys);
      SuccessorsJoin(actions, expanded, costs.Keys, {e.state}, costs'.Keys);
    }

    /** The drawing after one iteration that pushed successors of current:
        BestDrawn holds again with current expanded. */
    lemma DrawnExpanded(strategy: Strategy, current: State, queue: seq<Entry>, position: int,
                        costs: map<State, nat>, expanded: set<State>, trace: seq<Event>,
                        queue': seq<Entry>, position': int, costs': map<State, nat>, trace': seq<Event>)
      requires BestDrawn(strategy, costs, expanded, trace)
      requires BestExpanded(strategy, current, queue, position, costs, trace, queue', position', costs', trace', true)
      ensures BestDrawn(strategy, costs', expanded + {current}, trace')
    {
      ExtensionSettles(trace, trace', expanded, current);
    }

    /** The bookkeeping of recorded states across one expansion. */
    lemma KeysAfter(keys: set<State>, expanded: set<State>, queued: set<State>, rest: set<State>,
                    current: State, pushed: set<State>, keys': set<State>)
      requires keys == expanded + queued && queued == rest + {current} && keys' == keys + pushed
      ensures keys' == expanded + {current} + (rest + pushed)
    {
    }

    /** An expansion that pushed nothing changed nothing, and every
        successor of current already has a cost. */
    lemma DeadEndSummary(strategy: Strategy, current: State, queue: seq<Entry>, position: int,
                         costs: map<State, nat>, trace: seq<Event>,
                         queue': seq<Entry>, position': int, costs': map<State, nat>, trace': seq<Event>)
      requires BestExpanded(strategy, current, queue, position, costs, trace, queue', position', costs', trace', false)
      ensures queue' == queue && position' == position && costs' == costs && trace' == trace
      ensures SuccessorsIn(actions, {current}, costs.Keys)
    {
      BestClosed(strategy, current, costs, position, trace, [], costs', trace');
    }

    /** The queue and cost table after one iteration on a state that is not
        the goal and pushed nothing: BestQueued holds again, the costs are
        unchanged and the queue is shorter. */
    lemma QueuedDeadEnd(strategy: Strategy, queue: seq<Entry>, position: int, costs: map<State, nat>,
                        expanded: set<State>, trace: seq<Event>, e: Entry, rest: seq<Entry>,
                        queue': seq<Entry>, position': int, costs': map<State, nat>, trace': seq<Event>)
      requires BestQueued(queue, position, costs, expanded)
      requires e in queue && e.state != goal && States(queue) == States(rest) + {e.state}
      requires DistinctPositions(rest) && forall x :: x in rest ==> x in queue
      requires |rest| < |queue|
      requires BestExpanded(strategy, e.state, rest, position, costs, trace, queue', position', costs', trace', false)
      ensures BestQueued(queue', position', costs', expanded + {e.state})
      ensures costs' == costs && |queue'| < |queue|
    {
      DeadEndSummary(strategy, e.state, rest, position, costs, trace, queue', position', costs', trace');
      SuccessorsJoin(actions, expanded, costs.Keys, {e.state}, costs.Keys);
    }

    /** The drawing after one iteration that pushed nothing: BestDrawn holds
        again once current is coloured a dead end. */
    lemma DrawnDeadEnd(strategy: Strategy, current: State, queue: seq<Entry>, position: int,
                       costs: map<State, nat>, expanded: set<State>, trace: seq<Event>,
                       queue': seq<Entry>, position': int, costs': map<State, nat>, trace': seq<Event>)
      requires BestDrawn(strategy, costs, expanded, trace)
      requires BestExpanded(strategy, current, queue, position, costs, trace, queue', position', costs', trace', false)
      ensures BestDrawn(strategy, costs', expanded + {current}, trace' + [Mark(current, DeadEnd)])
    {
      DeadEndSummary(strategy, current, queue, position, costs, trace, queue', position', costs', trace');
      MarkInDrawing(trace, initial, actions, Mark(current, DeadEnd));
      MarkSettles(trace, expanded, current);
      MarkLabelled(strategy, trace, Mark(current, DeadEnd));
    }

    /** The outcome of expanding current with costs recorded in `costs`:
        the queue gains the pushed entries, numbered on from the push counter,
        which is advanced past them; the entries, costs and drawing are as
        BestExpandInv describes after the last action; a child is reported
        exactly when an entry was pushed. */
    ghost predicate BestExpanded(strategy: Strategy, current: State, queue: seq<Entry>, position: int,
                                 costs: map<State, nat>, trace: seq<Event>,
                                 queue': seq<Entry>, position': int, costs': map<State, nat>, trace': seq<Event>,
                                 anyChild: bool) {
      && |queue| <= |queue'| && queue' == queue + queue'[|queue|..]
      && position' == position + |queue'| - |queue|
      && BestExpandInv(strategy, current, costs, position, trace, |actions|, queue'[|queue|..], costs', trace')
      && (anyChild <==> |queue'| > |queue|)
    }

    /** What the loop over the actions keeps true after the first i actions:
        the pushed entries and costs are as PushedOk says and the drawing as
        DrawnOk says. */
    ghost predicate BestExpandInv(strategy: Strategy, current: State, costs: map<State, nat>, position: int,
                                  trace: seq<Event>, i: int, pushed: seq<Entry>, costs': map<State, nat>,
                                  trace': seq<Event>) {
      && current in costs && current in costs' && costs'[current] == costs[current]
      && PushedOk(strategy, current, costs, position, i, pushed, costs')
      && DrawnOk(strategy, current, trace, pushed, costs', trace')
    }

    /** The pushed entries and the cost table after the first i actions. */
    ghost predicate PushedOk(strategy: Strategy, current: State, costs: map<State, nat>, position: int,
                             i: int, pushed: seq<Entry>, costs': map<State, nat>) {
      && 0 <= i <= |actions| && current in costs
      && EntriesOk(strategy, current, costs, position, pushed, costs')
      && TableOk(current, costs, pushed, costs')
      && Covered(current, costs, i, costs')
      && CostsReached(costs')
    }

    /** With g the current state's cost plus one, each pushed entry holds a
        valid state other than current whose recorded cost g beats its cost
        before the expansion, with its priority and the next position. */
    ghost predicate EntriesOk(strategy: Strategy, current: State, costs: map<State, nat>, position: int,
                              pushed: seq<Entry>, costs': map<State, nat>)
      requires current in costs
    {
      var g := costs[current] + 1;
      && (forall j :: 0 <= j < |pushed| ==> pushed[j].position == position + 1 + j)
      && (forall e :: e in pushed ==>
            && e.state in ValidStates() && e.state != current && Improves(costs, e.state, g)
            && e.state in costs' && costs'[e.state] == g && e.f == Priority(strategy, e.state, goal, g))
    }

    /** The cost table gained the pushed states and changed no other cost,
        the current state's among them. */
    ghost predicate TableOk(current: State, costs: map<State, nat>, pushed: seq<Entry>, costs': map<State, nat>)
      requires current in costs
    {
      && current in costs' && costs'[current] == costs[current]
      && costs'.Keys == costs.Keys + States(pushed)
      && (forall s :: s in costs && s !in States(pushed) ==> costs'[s] == costs[s])
      && (pushed == [] ==> costs' == costs)
    }

    /** Every valid successor by the first i actions has a cost of at most
        the current state's plus one. */
    ghost predicate Covered(current: State, costs: map<State, nat>, i: int, costs': map<State, nat>)
      requires current in costs && 0 <= i <= |actions|
    {
      forall j :: 0 <= j < i && ValidState(ApplyAction(current, actions[j])) ==>
        ApplyAction(current, actions[j]) in costs' && costs'[ApplyAction(current, actions[j])] <= costs[current] + 1
    }

    /** The drawing gained exactly the pushed states, with edges from
        current labelled by their priorities. */
    ghost predicate DrawnOk(strategy: Strategy, current: State, trace: seq<Event>, pushed: seq<Entry>,
                            costs': map<State, nat>, trace': seq<Event>) {
      && Nodes(trace') == costs'.Keys
      && ExtendsFrom(trace, trace', current) && Drawn(trace', initial, actions) && Labelled(strategy, trace')
      && (pushed == [] ==> trace' == trace)
      && (pushed != [] ==> FirstEdgeFrom(trace, trace', current))
    }

    /** One successful improvement: the state reached by the action at i is
        pushed, costed and drawn. */
    lemma BestPush(strategy: Strategy, current: State, costs: map<State, nat>, position: int,
                   trace: seq<Event>, i: int, pushed: seq<Entry>, costs': map<State, nat>, trace': seq<Event>,
                   n: State, g: nat, f: int, p: int,
                   pushed'': seq<Entry>, costs'': map<State, nat>, trace'': seq<Event>)
      requires 0 <= i < |actions|
      requires BestExpandInv(strategy, current, costs, position, trace, i, pushed, costs', trace')
      requires n == ApplyAction(current, actions[i]) && g == costs'[current] + 1
      requires ValidState(n) && Improves(costs', n, g)
      requires f == Priority(strategy, n, goal, g) && p == position + |pushed| + 1
      requires pushed'' == pushed + [Entry(f, p, n)] && costs'' == costs'[n := g]
      requires trace'' == trace' + Discovery(current, n, actions[i], Some(f))
      ensures BestExpandInv(strategy, current, costs, position, trace, i + 1, pushed'', costs'', trace'')
    {
      PushCosts(strategy, current, costs, position, i, pushed, costs', n, g, f, p, pushed'', costs'');
      PushDrawing(strategy, current, costs, trace, i, pushed, costs', trace', n, g, f, pushed'', costs'', trace'');
    }

    /** Pushing an improved successor keeps the entries and the cost table
        as PushedOk describes, one action further on. */
    lemma PushCosts(strategy: Strategy, current: State, costs: map<State, nat>, position: int,
                    i: int, pushed: seq<Entry>, costs': map<State, nat>,
                    n: State, g: nat, f: int, p: int, pushed'': seq<Entry>, costs'': map<State, nat>)
      requires PushedOk(strategy, current, costs, position, i, pushed, costs') && i < |actions|
      requires n == ApplyAction(current, actions[i]) && g == costs[current] + 1
      requires ValidState(n) && Improves(costs', n, g)
      requires f == Priority(strategy, n, goal, g) && p == position + |pushed| + 1
      requires pushed'' == pushed + [Entry(f, p, n)] && costs'' == costs'[n := g]
      ensures PushedOk(strategy, current, costs, position, i + 1, pushed'', costs'')
    {
      var a := actions[i];
      var e := Entry(f, p, n);
      SuccessorInValidStates(current, a);
      PushFresh(strategy, current, costs, position, pushed, costs', n);
      PushEntry(strategy, current, costs, position, pushed, costs', e);
      PushTable(current, costs, pushed, costs', e);
      PushCovered(current, costs, i, costs');
      PushReached(current, costs, costs', a);
    }

    /** A state whose cost is improved has not been pushed yet in this
        expansion, and so beats its cost from before the expansion. */
    lemma PushFresh(strategy: Strategy, current: State, costs: map<State, nat>, position: int,
                    pushed: seq<Entry>, costs': map<State, nat>, n: State)
      requires current in costs && EntriesOk(strategy, current, costs, position, pushed, costs')
      requires TableOk(current, costs, pushed, costs') && Improves(costs', n, costs[current] + 1)
      ensures n !in States(pushed) && Improves(costs, n, costs[current] + 1)
    {
    }

    /** The new entry, with the next position and its priority. */
    lemma PushEntry(strategy: Strategy, current: State, costs: map<State, nat>, position: int,
                    pushed: seq<Entry>, costs': map<State, nat>, e: Entry)
      requires current in costs && EntriesOk(strategy, current, costs, position, pushed, costs')
      requires e.state in ValidStates() && e.state != current && e.state !in States(pushed)
      requires Improves(costs, e.state, costs[current] + 1)
      requires e.position == position + |pushed| + 1 && e.f == Priority(strategy, e.state, goal, costs[current] + 1)
      ensures EntriesOk(strategy, current, costs, position, pushed + [e], costs'[e.state := costs[current] + 1])
    {
      var pushed', costs'' := pushed + [e], costs'[e.state := costs[current] + 1];
      forall j | 0 <= j < |pushed'| ensures pushed'[j].position == position + 1 + j {
        if j < |pushed| {
          assert pushed'[j] == pushed[j];
        }
      }
      StatesAppend(pushed, e);
    }

    /** The new cost is recorded and no other cost changes. */
    lemma PushTable(current: State, costs: map<State, nat>, pushed: seq<Entry>, costs': map<State, nat>, e: Entry)
      requires current in costs && TableOk(current, costs, pushed, costs')
      requires e.state != current && e.state !in States(pushed)
      ensures TableOk(current, costs, pushed + [e], costs'[e.state := costs[current] + 1])
    {
      StatesAppend(pushed, e);
    }

    /** The successor by action i now has a cost of at most g. */
    lemma PushCovered(current: State, costs: map<State, nat>, i: int, costs': map<State, nat>)
      requires current in costs && 0 <= i < |actions| && Covered(current, costs, i, costs')
      requires Improves(costs', ApplyAction(current, actions[i]), costs[current] + 1)
      ensures Covered(current, costs, i + 1, costs'[ApplyAction(current, actions[i]) := costs[current] + 1])
    {
    }

    /** The new cost is the length of a valid path. */
    lemma PushReached(current: State, costs: map<State, nat>, costs': map<State, nat>, a: Action)
      requires current in costs && current in costs' && costs'[current] == costs[current] && CostsReached(costs')
      requires a in actions && ValidState(ApplyAction(current, a))
      ensures CostsReached(costs'[ApplyAction(current, a) := costs[current] + 1])
    {
      ReachableStep(initial, actions, current, a, costs[current]);
    }

    /** Drawing the improved successor with its labelled edge keeps the
        drawing as DrawnOk describes. */
    lemma PushDrawing(strategy: Strategy, current: State, costs: map<State, nat>, trace: seq<Event>,
                      i: int, pushed: seq<Entry>, costs': map<State, nat>, trace': seq<Event>,
                      n: State, g: nat, f: int, pushed'': seq<Entry>, costs'': map<State, nat>, trace'': seq<Event>)
      requires DrawnOk(strategy, current, trace, pushed, costs', trace') && 0 <= i < |actions|
      requires current in costs && current in costs' && CostsReached(costs') && costs'[current] == costs[current]
      requires n == ApplyAction(current, actions[i]) && g == costs[current] + 1 && ValidState(n)
      requires f == Priority(strategy, n, goal, g)
      requires pushed'' != [] && costs'' == costs'[n := g]
      requires trace'' == trace' + Discovery(current, n, actions[i], Some(f))
      ensures DrawnOk(strategy, current, trace, pushed'', costs'', trace'')
    {
      var a := actions[i];
      DiscoverInDrawing(trace, trace', initial, actions, current, a, Some(f));
      ReachableStep(initial, actions, current, a, costs[current]);
      PushLabelled(strategy, trace', current, n, a, g);
    }

    /** An edge labelled with the priority of a state reached in g >= 1
        trips keeps the log labelled. */
    lemma PushLabelled(strategy: Strategy, t: seq<Event>, current: State, n: State, a: Action, g: int)
      requires Labelled(strategy, t) && g >= 1 && ReachableIn(initial, actions, n, g)
      ensures Labelled(strategy, t + Discovery(current, n, a, Some(Priority(strategy, n, goal, g))))
    {
      var e := AddEdge(current, n, a, Some(Priority(strategy, n, goal, g)));
      assert LabelOk(strategy, e);
      forall x | x in t + Discovery(current, n, a, e.cost) ensures x in t || x == AddNode(n) || x == e {
      }
    }

    /** An action whose state is invalid or not improved changes nothing. */
    lemma BestSkip(strategy: Strategy, current: State, costs: map<State, nat>, position: int,
                   trace: seq<Event>, i: int, pushed: seq<Entry>, costs': map<State, nat>, trace': seq<Event>)
      requires 0 <= i < |actions|
      requires BestExpandInv(strategy, current, costs, position, trace, i, pushed, costs', trace')
      requires !(ValidState(ApplyAction(current, actions[i]))
                 && Improves(costs', ApplyAction(current, actions[i]), costs'[current] + 1))
      ensures BestExpandInv(strategy, current, costs, position, trace, i + 1, pushed, costs', trace')
    {
    }

    /** After the last action every valid successor of current has a cost. */
    lemma BestClosed(strategy: Strategy, current: State, costs: map<State, nat>, position: int,
                     trace: seq<Event>, pushed: seq<Entry>, costs': map<State, nat>, trace': seq<Event>)
      requires BestExpandInv(strategy, current, costs, position, trace, |actions|, pushed, costs', trace')
      ensures SuccessorsIn(actions, {current}, costs'.Keys)
    {
      forall a | a in actions && ValidState(ApplyAction(current, a)) ensures ApplyAction(current, a) in costs' {
        var j :| 0 <= j < |actions| && actions[j] == a;
      }
    }

    /** An expansion never forgets a state nor raises a recorded cost, and
        records a new state at the current state's cost plus one; so the
        initial state keeps cost 0. */
    lemma ExpansionCosts(strategy: Strategy, current: State, costs: map<State, nat>, position: int,
                         trace: seq<Event>, pushed: seq<Entry>, costs': map<State, nat>, trace': seq<Event>)
      requires BestExpandInv(strategy, current, costs, position, trace, |actions|, pushed, costs', trace')
      ensures forall s :: s in costs ==> s in costs' && costs'[s] <= costs[s]
      ensures forall s :: s in costs' && s !in costs ==> costs'[s] == costs[current] + 1
      ensures initial in costs && costs[initial] == 0 ==> costs'[initial] == 0
    {
      forall s | s in costs' && s in States(pushed) ensures costs'[s] == costs[current] + 1 && Improves(costs, s, costs'[s]) {
        var e :| e in pushed && e.state == s;
      }
    }

    /** Between iterations of the informed searches the initial state has
        cost 0 and every other recorded state cost at least 1. */
    lemma RecordedCosts(queue: seq<Entry>, position: int, costs: map<State, nat>, expanded: set<State>)
      requires BestQueued(queue, position, costs, expanded)
      ensures initial in costs && costs[initial] == 0
      ensures forall s :: s in costs && s != initial ==> costs[s] >= 1
    {
      forall s | s in costs && s != initial ensures costs[s] >= 1 {
        NoTripsOnlyStart(initial, actions, s);
      }
    }

    /** An expansion that pushed something recorded a new state or lowered a
        recorded cost, and lowered no cost it did not push. */
    lemma BestProgress(strategy: Strategy, current: State, costs: map<State, nat>, position: int,
                       trace: seq<Event>, pushed: seq<Entry>, costs': map<State, nat>, trace': seq<Event>)
      requires BestExpandInv(strategy, current, costs, position, trace, |actions|, pushed, costs', trace')
      requires pushed != [] && costs.Keys <= Universe()
      ensures || Universe() - costs'.Keys < Universe() - costs.Keys
              || (Universe() - costs'.Keys == Universe() - costs.Keys && Below(costs') < Below(costs))
    {
      var s := pushed[0].state;
      assert s in States(pushed);
      if costs'.Keys == costs.Keys {
        forall t | t in costs ensures costs'[t] <= costs[t] {
          if t in States(pushed) {
            var e :| e in pushed && e.state == t;
          }
        }
        BelowShrinks(costs, costs', s);
      } else {
        var t :| t in costs'.Keys && t !in costs.Keys;
        var e :| e in pushed && e.state == t;
        assert t in Universe();
      }
    }

    /** The entries, cost table and drawing after gbfs and a_star have tried
        the first i actions on current, every successor costing g: a valid
        successor whose cost g beats its recorded cost is pushed with its
        priority and the next position, costed and drawn; any other
        successor changes nothing. */
    function Relax(strategy: Strategy, current: State, g: nat, position: int,
                   costs: map<State, nat>, trace: seq<Event>, i: int): (r: (seq<Entry>, map<State, nat>, seq<Event>))
      requires 0 <= i <= |actions|
      ensures |r.0| <= i
      ensures forall j :: 0 <= j < |r.0| ==> r.0[j].position == position + 1 + j
      ensures forall j :: 0 <= j < |r.0| ==>
                exists k :: 0 <= k < i && r.0[j].state == ApplyAction(current, actions[k])
    {
      if i == 0 then ([], costs, trace)
      else
        var (pushed, costs', trace') := Relax(strategy, current, g, position, costs, trace, i - 1);
        var n := ApplyAction(current, actions[i - 1]);
        if ValidState(n) && Improves(costs', n, g) then
          var f := Priority(strategy, n, goal, g);
          (pushed + [Entry(f, position + |pushed| + 1, n)], costs'[n := g],
           trace' + Discovery(current, n, actions[i - 1], Some(f)))
        else
          (pushed, costs', trace')
    }

    /** Trying action i after the first i, when its successor n is valid
        and improved: Relax pushes, costs and draws n. */
    lemma RelaxPush(strategy: Strategy, current: State, g: nat, position: int, costs: map<State, nat>,
                    trace: seq<Event>, i: int, pushed: seq<Entry>, costs': map<State, nat>, trace': seq<Event>,
                    n: State, f: int, p: int)
      requires 0 <= i < |actions| && n == ApplyAction(current, actions[i])
      requires (pushed, costs', trace') == Relax(strategy, current, g, position, costs, trace, i)
      requires ValidState(n) && Improves(costs', n, g)
      requires f == Priority(strategy, n, goal, g) && p == position + |pushed| + 1
      ensures Relax(strategy, current, g, position, costs, trace, i + 1)
              == (pushed + [Entry(f, p, n)], costs'[n := g], trace' + Discovery(current, n, actions[i], Some(f)))
    {
    }

    /** Trying action i after the first i, when its successor is invalid or
        not improved: Relax changes nothing. */
    lemma RelaxSkip(strategy: Strategy, current: State, g: nat, position: int, costs: map<State, nat>,
                    trace: seq<Event>, i: int, pushed: seq<Entry>, costs': map<State, nat>, trace': seq<Event>)
      requires 0 <= i < |actions|
      requires (pushed, costs', trace') == Relax(strategy, current, g, position, costs, trace, i)
      requires !(ValidState(ApplyAction(current, actions[i])) && Improves(costs', ApplyAction(current, actions[i]), g))
      ensures Relax(strategy, current, g, position, costs, trace, i + 1) == (pushed, costs', trace')
    {
    }

    /** The `for action in self.actions` loop of gbfs and a_star. */
    method BestExpand(strategy: Strategy, current: State, queue: seq<Entry>, position: int,
                      costs: map<State, nat>, trace: seq<Event>)
      returns (queue': seq<Entry>, position': int, costs': map<State, nat>, trace': seq<Event>, anyChild: bool)
      requires current in costs && Nodes(trace) == costs.Keys && CostsReached(costs)
      requires Drawn(trace, initial, actions) && Labelled(strategy, trace)
      ensures BestExpanded(strategy, current, queue, position, costs, trace, queue', position', costs', trace', anyChild)
      ensures (queue'[|queue|..], costs', trace') == Relax(strategy, current, costs[current] + 1, position, costs, trace, |actions|)
    {
      // The entries pushed by this expansion, in the order they are pushed.
      var pushed: seq<Entry> := [];
      position', costs', trace' := position, costs, trace;
      BestExpandStart(strategy, current, costs, position, trace);
      for i := 0 to |actions|
        invariant BestExpandInv(strategy, current, costs, position, trace, i, pushed, costs', trace')
        invariant position' == position + |pushed|
        invariant (pushed, costs', trace') == Relax(strategy, current, costs[current] + 1, position, costs, trace, i)
      {
        pushed, position', costs', trace' := TryAction(strategy, current, costs, position, trace, i, pushed, position', costs', trace');
      }
      queue' := queue + pushed;
      assert queue'[|queue|..] == pushed;
      anyChild := pushed != [];
      BestExpandEnd(strategy, current, queue, position, costs, trace, pushed, costs', trace');
    }

    /** One pass of the loop body: the successor by action i is pushed,
        costed and drawn when it is valid and its cost through current beats
        the recorded one; otherwise nothing changes. */
    method TryAction(strategy: Strategy, current: State, costs: map<State, nat>, position: int, trace: seq<Event>,
                     i: int, pushed: seq<Entry>, position': int, costs': map<State, nat>, trace': seq<Event>)
      returns (pushed'': seq<Entry>, position'': int, costs'': map<State, nat>, trace'': seq<Event>)
      requires 0 <= i < |actions| && BestExpandInv(strategy, current, costs, position, trace, i, pushed, costs', trace')
      requires position' == position + |pushed|
      requires (pushed, costs', trace') == Relax(strategy, current, costs[current] + 1, position, costs, trace, i)
      ensures BestExpandInv(strategy, current, costs, position, trace, i + 1, pushed'', costs'', trace'')
      ensures (pushed'', costs'', trace'') == Relax(strategy, current, costs[current] + 1, position, costs, trace, i + 1)
      ensures position'' == position + |pushed''|
      ensures var n, g := ApplyAction(current, actions[i]), costs[current] + 1;
        if ValidState(n) && Improves(costs', n, g) then
          && pushed'' == pushed + [Entry(Priority(strategy, n, goal, g), position'', n)]
          && costs'' == costs'[n := g]
          && trace'' == trace' + Discovery(current, n, actions[i], Some(Priority(strategy, n, goal, g)))
        else
          pushed'' == pushed && costs'' == costs' && trace'' == trace'
    {
      pushed'', position'', costs'', trace'' := pushed, position', costs', trace';
      var action := actions[i];
      var newState := ApplyAction(current, action);
      var newCost := costs''[current] + 1;
      assert newCost == costs[current] + 1;
      if ValidState(newState) && Improves(costs'', newState, newCost) {
        costs'' := costs''[newState := newCost];
        var f := Priority(strategy, newState, goal, newCost);
        position'' := position'' + 1;
        pushed'' := pushed'' + [Entry(f, position'', newState)];
        trace'' := trace'' + Discovery(current, newState, action, Some(f));
        RelaxPush(strategy, current, newCost, position, costs, trace, i, pushed, costs', trace', newState, f, position'');
        BestPush(strategy, current, costs, position, trace, i, pushed, costs', trace', newState, newCost, f, position'',
                 pushed'', costs'', trace'');
      } else {
        BestSkip(strategy, current, costs, position, trace, i, pushed, costs', trace');
        RelaxSkip(strategy, current, newCost, position, costs, trace, i, pushed, costs', trace');
      }
    }

    /** Before the first action nothing has been pushed. */
    lemma BestExpandStart(strategy: Strategy, current: State, costs: map<State, nat>, position: int, trace: seq<Event>)
      requires current in costs && Nodes(trace) == costs.Keys && CostsReached(costs)
      requires Drawn(trace, initial, actions) && Labelled(strategy, trace)
      ensures BestExpandInv(strategy, current, costs, position, trace, 0, [], costs, trace)
    {
      assert States([]) == {};
      assert trace[..|trace|] == trace;
    }

    /** After the last action the loop's outcome is BestExpanded. */
    lemma BestExpandEnd(strategy: Strategy, current: State, queue: seq<Entry>, position: int, costs: map<State, nat>,
                        trace: seq<Event>, pushed: seq<Entry>, costs': map<State, nat>, trace': seq<Event>)
      requires BestExpandInv(strategy, current, costs, position, trace, |actions|, pushed, costs', trace')
      ensures BestExpanded(strategy, current, queue, position, costs, trace,
                           queue + pushed, position + |pushed|, costs', trace', pushed != [])
    {
      assert (queue + pushed)[|queue|..] == pushed;
    }

    /** Greedy best-first search: priorities are the greedy heuristic. */
    method Gbfs() returns (found: bool, trace: seq<Event>)
      ensures BestFirstOutcome(GreedyBestFirst, found, trace)
    {
      found, trace := BestFirst(GreedyBestFirst);
    }

    /** A* search: priorities are the cost plus the A* heuristic. */
    method AStar() returns (found: bool, trace: seq<Event>)
      ensures BestFirstOutcome(AStarSearch, found, trace)
    {
      found, trace := BestFirst(AStarSearch);
    }
  }
}
