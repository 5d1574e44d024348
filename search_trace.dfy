/** The search graph a run draws, as the ordered log of what it tells the
    drawing: nodes keyed by state value, edges labelled with the action (and,
    for the informed searches, the priority), and colour marks for the goal
    and for dead ends. */
module SearchTrace {
  import opened RiverCrossing
  import opened Reachability

  datatype Option<T> = None | Some(value: T)

  datatype Status = Goal | DeadEnd

  datatype Event =
    | AddNode(node: State)
    | AddEdge(from: State, to: State, action: Action, cost: Option<int>)
    | Mark(marked: State, status: Status)

  /** The states drawn as nodes. */
  function Nodes(t: seq<Event>): set<State> {
    set e | e in t && e.AddNode? :: e.node
  }

  /** The run drew the initial state first. */
  predicate Rooted(t: seq<Event>, root: State) {
    |t| > 0 && t[0] == AddNode(root)
  }

  /** No state is drawn twice. */
  predicate DistinctNodes(t: seq<Event>) {
    forall i, j :: 0 <= i < j < |t| && t[i].AddNode? && t[j].AddNode? ==> t[i].node != t[j].node
  }

  /** Every node after the first is drawn together with the edge that
      discovered it, and every edge leaves a drawn node and enters a node
      other than the first. */
  predicate EdgesPaired(t: seq<Event>) {
    (forall i :: 0 <= i < |t| && t[i].AddEdge? ==>
       2 <= i && t[i - 1] == AddNode(t[i].to) && t[i].from in Nodes(t))
    && (forall i :: 1 <= i < |t| && t[i].AddNode? ==>
       i + 1 < |t| && t[i + 1].AddEdge? && t[i + 1].to == t[i].node)
  }

  /** Every edge is a trip by one of the actions that ends in a valid state. */
  ghost predicate EdgesAreMoves(t: seq<Event>, actions: seq<Action>) {
    forall e :: e in t && e.AddEdge? ==>
      e.action in actions && e.to == ApplyAction(e.from, e.action) && ValidState(e.to)
  }

  /** Every drawn node can be reached from the root by valid trips. */
  ghost predicate NodesReached(t: seq<Event>, root: State, actions: seq<Action>) {
    forall s :: s in Nodes(t) ==> Reachable(root, actions, s)
  }

  predicate MarksOnNodes(t: seq<Event>) {
    forall e :: e in t && e.Mark? ==> e.marked in Nodes(t)
  }

  /** The goal colour is used at most once, on the goal, as the last event. */
  predicate GoalMarkLast(t: seq<Event>, goal: State) {
    forall i :: 0 <= i < |t| && t[i].Mark? && t[i].status == Goal ==> i == |t| - 1 && t[i].marked == goal
  }

  predicate DeadEndsNotGoal(t: seq<Event>, goal: State) {
    forall e :: e in t && e.Mark? && e.status == DeadEnd ==> e.marked != goal
  }

  /** The run ended by colouring the goal. */
  predicate Found(t: seq<Event>, goal: State) {
    |t| > 0 && t[|t| - 1] == Mark(goal, Goal)
  }

  /** s has at least one outgoing edge. */
  predicate HasChild(t: seq<Event>, s: State) {
    exists e :: e in t && e.AddEdge? && e.from == s
  }

  /** A state coloured as a dead end has no outgoing edge. */
  predicate DeadEndsChildless(t: seq<Event>) {
    forall e :: e in t && e.Mark? && e.status == DeadEnd ==> !HasChild(t, e.marked)
  }

  predicate Unlabelled(t: seq<Event>) {
    forall e :: e in t && e.AddEdge? ==> e.cost == None
  }

  function IncomingEdges(t: seq<Event>, n: State): set<int> {
    set i | 0 <= i < |t| && t[i].AddEdge? && t[i].to == n
  }

  /** In a trace without repeated nodes the drawing is a tree: the initial
      state has no incoming edge and every other node exactly one. */
  lemma OneIncomingEdge(t: seq<Event>, root: State, n: State)
    requires Rooted(t, root) && DistinctNodes(t) && EdgesPaired(t) && n in Nodes(t)
    ensures |IncomingEdges(t, n)| == if n == root then 0 else 1
  {
    var e :| e in t && e.AddNode? && e.node == n;
    var k :| 0 <= k < |t| && t[k] == e;
    forall i | i in IncomingEdges(t, n) ensures i == k + 1 && k > 0 {
      assert t[i - 1] == AddNode(n);
      assert i - 1 == k;
    }
    if n == root {
      assert k == 0;
      assert IncomingEdges(t, n) == {};
    } else {
      assert k > 0;
      assert IncomingEdges(t, n) == {k + 1};
    }
  }

  /** A node is never coloured both goal and dead end. */
  lemma StatusExclusive(t: seq<Event>, goal: State, s: State)
    requires GoalMarkLast(t, goal) && DeadEndsNotGoal(t, goal)
    ensures !(Mark(s, Goal) in t && Mark(s, DeadEnd) in t)
  {
    if Mark(s, Goal) in t {
      var i :| 0 <= i < |t| && t[i] == Mark(s, Goal);
      assert s == goal;
    }
  }

  /** The two events that draw a newly discovered state n, reached from
      f by action a. */
  function Discovery(f: State, n: State, a: Action, cost: Option<int>): seq<Event> {
    [AddNode(n), AddEdge(f, n, a, cost)]
  }

  /** Drawing a discovery keeps the shape of the log. */
  lemma AppendDiscovery(t: seq<Event>, f: State, n: State, a: Action, cost: Option<int>)
    requires EdgesPaired(t) && f in Nodes(t) && |t| > 0
    ensures EdgesPaired(t + Discovery(f, n, a, cost))
    ensures Nodes(t + Discovery(f, n, a, cost)) == Nodes(t) + {n}
    ensures (t + Discovery(f, n, a, cost))[0] == t[0]
  {
    var t' := t + Discovery(f, n, a, cost);
    assert t'[|t|] == AddNode(n) && t'[|t| + 1] == AddEdge(f, n, a, cost);
    assert Nodes(t') == Nodes(t) + {n} by {
      forall e | e in t' ensures e in t || e == t'[|t|] || e == t'[|t| + 1] {}
    }
  }

  /** Drawing a state not drawn before keeps every node drawn once. */
  lemma AppendDistinct(t: seq<Event>, f: State, n: State, a: Action, cost: Option<int>)
    requires DistinctNodes(t) && n !in Nodes(t)
    ensures DistinctNodes(t + Discovery(f, n, a, cost))
  {
    var t' := t + Discovery(f, n, a, cost);
    forall i, j | 0 <= i < j < |t'| && t'[i].AddNode? && t'[j].AddNode? ensures t'[i].node != t'[j].node {
      if j == |t| {
        assert t[i] in t;
      }
    }
  }

  /** Colouring a node adds no node and no edge. */
  lemma AppendMark(t: seq<Event>, m: Event)
    requires m.Mark?
    ensures Nodes(t + [m]) == Nodes(t)
    ensures EdgesPaired(t) ==> EdgesPaired(t + [m])
    ensures DistinctNodes(t) ==> DistinctNodes(t + [m])
    ensures forall s :: HasChild(t + [m], s) <==> HasChild(t, s)
    ensures forall r :: Rooted(t, r) ==> Rooted(t + [m], r)
  {
    var t' := t + [m];
    assert t'[..|t|] == t;
    assert Nodes(t') == Nodes(t) by {
      forall e | e in t' ensures e in t || e == m {}
    }
    forall s | HasChild(t', s) ensures HasChild(t, s) {
      var e :| e in t' && e.AddEdge? && e.from == s;
      assert e in t;
    }
  }

  /** A discovery by a valid trip keeps every edge a move; an unlabelled
      one keeps the log unlabelled. */
  lemma AppendMove(t: seq<Event>, actions: seq<Action>, f: State, a: Action, cost: Option<int>)
    requires EdgesAreMoves(t, actions)
    requires a in actions && ValidState(ApplyAction(f, a))
    ensures EdgesAreMoves(t + Discovery(f, ApplyAction(f, a), a, cost), actions)
    ensures Unlabelled(t) && cost == None ==> Unlabelled(t + Discovery(f, ApplyAction(f, a), a, cost))
    ensures forall e :: e in t + Discovery(f, ApplyAction(f, a), a, cost) ==>
      e in t || e == AddNode(ApplyAction(f, a)) || e == AddEdge(f, ApplyAction(f, a), a, cost)
  {
  }

  lemma AppendMarkMoves(t: seq<Event>, actions: seq<Action>, m: Event)
    requires m.Mark?
    ensures EdgesAreMoves(t, actions) ==> EdgesAreMoves(t + [m], actions)
    ensures Unlabelled(t) ==> Unlabelled(t + [m])
    ensures forall e :: e in t + [m] ==> e in t || e == m
  {
  }

  /** t' extends t only by drawing nodes and edges out of f. */
  predicate ExtendsFrom(t: seq<Event>, t': seq<Event>, f: State) {
    |t| <= |t'| && t'[..|t|] == t
    && forall i :: |t| <= i < |t'| ==> t'[i].AddNode? || (t'[i].AddEdge? && t'[i].from == f)
  }

  /** The first event after t in t' is an edge out of f. */
  predicate FirstEdgeFrom(t: seq<Event>, t': seq<Event>, f: State) {
    |t| + 2 <= |t'| && t'[|t| + 1].AddEdge? && t'[|t| + 1].from == f
  }

  /** Such an extension gives f children and leaves every other state's
      children as they were. */
  lemma ExtendsFromChildren(t: seq<Event>, t': seq<Event>, f: State)
    requires ExtendsFrom(t, t', f)
    ensures forall s :: s != f ==> (HasChild(t', s) <==> HasChild(t, s))
    ensures HasChild(t, f) ==> HasChild(t', f)
    ensures FirstEdgeFrom(t, t', f) ==> HasChild(t', f)
    ensures forall e :: e in t ==> e in t'
    ensures forall e :: e in t' && e.Mark? ==> e in t
  {
    forall e | e in t ensures e in t' {
      var i :| 0 <= i < |t| && t[i] == e;
      assert t'[i] == e;
    }
    forall e | e in t' && e.Mark? ensures e in t {
      var i :| 0 <= i < |t'| && t'[i] == e;
      assert i < |t|;
      assert t[i] == e;
    }
    forall s | s != f && HasChild(t', s) ensures HasChild(t, s) {
      var e :| e in t' && e.AddEdge? && e.from == s;
      var i :| 0 <= i < |t'| && t'[i] == e;
      assert i < |t|;
      assert t[i] == e;
    }
    if FirstEdgeFrom(t, t', f) {
      assert t'[|t| + 1] in t';
    }
  }

  /** The log draws a graph grown from the root by valid trips. */
  ghost predicate Drawn(t: seq<Event>, root: State, actions: seq<Action>) {
    Rooted(t, root) && EdgesPaired(t) && EdgesAreMoves(t, actions) && NodesReached(t, root, actions)
  }

  /** ... and, as in the uninformed searches, a tree without cost labels. */
  ghost predicate TreeDrawn(t: seq<Event>, root: State, actions: seq<Action>) {
    Drawn(t, root, actions) && DistinctNodes(t) && Unlabelled(t)
  }

  /** Discovering a new state by a valid trip from a drawn node keeps a
      tree a tree. */
  lemma DiscoverInTree(t0: seq<Event>, t: seq<Event>, root: State, actions: seq<Action>, f: State, a: Action)
    requires TreeDrawn(t, root, actions) && ExtendsFrom(t0, t, f) && f in Nodes(t)
    requires a in actions && ValidState(ApplyAction(f, a)) && ApplyAction(f, a) !in Nodes(t)
    ensures TreeDrawn(t + Discovery(f, ApplyAction(f, a), a, None), root, actions)
    ensures ExtendsFrom(t0, t + Discovery(f, ApplyAction(f, a), a, None), f)
    ensures Nodes(t + Discovery(f, ApplyAction(f, a), a, None)) == Nodes(t) + {ApplyAction(f, a)}
    ensures t == t0 ==> FirstEdgeFrom(t0, t + Discovery(f, ApplyAction(f, a), a, None), f)
    ensures FirstEdgeFrom(t0, t, f) ==> FirstEdgeFrom(t0, t + Discovery(f, ApplyAction(f, a), a, None), f)
  {
    var n := ApplyAction(f, a);
    var t' := t + Discovery(f, n, a, None);
    assert t'[..|t0|] == t0 by {
      assert t'[..|t|] == t;
    }
    AppendDiscovery(t, f, n, a, None);
    AppendDistinct(t, f, n, a, None);
    AppendMove(t, actions, f, a, None);
    ReachableSuccessor(root, actions, f, a);
  }

  /** Colouring a node keeps what has been drawn. */
  lemma MarkInDrawing(t: seq<Event>, root: State, actions: seq<Action>, m: Event)
    requires m.Mark?
    ensures Nodes(t + [m]) == Nodes(t)
    ensures Drawn(t, root, actions) ==> Drawn(t + [m], root, actions)
    ensures TreeDrawn(t, root, actions) ==> TreeDrawn(t + [m], root, actions)
    ensures forall s :: HasChild(t + [m], s) <==> HasChild(t, s)
    ensures forall e :: e in t + [m] ==> e in t || e == m
  {
    AppendMark(t, m);
    AppendMarkMoves(t, actions, m);
  }

  /** Every colour so far is a dead end on a state of S, and every edge
      leaves a state of S. */
  predicate Settled(t: seq<Event>, S: set<State>) {
    forall e :: e in t ==>
      (e.Mark? ==> e.status == DeadEnd && e.marked in S) && (e.AddEdge? ==> e.from in S)
  }

  /** Every state of S has been given children or coloured as a dead end. */
  predicate Accounted(t: seq<Event>, S: set<State>) {
    forall s :: s in S ==> HasChild(t, s) || Mark(s, DeadEnd) in t
  }

  /** Expanding f, which is not coloured yet, keeps the colours and edges
      settled, keeps dead ends childless and keeps every state accounted for. */
  lemma ExpansionSettles(t: seq<Event>, t': seq<Event>, S: set<State>, A: set<State>, f: State)
    requires ExtendsFrom(t, t', f) && f in S && Settled(t, S) && DeadEndsChildless(t)
    requires Mark(f, DeadEnd) !in t
    ensures Settled(t', S) && DeadEndsChildless(t')
    ensures Accounted(t, A) ==> Accounted(t', A)
    ensures FirstEdgeFrom(t, t', f) ==> HasChild(t', f)
    ensures Mark(f, DeadEnd) !in t'
  {
    ExtendsFromChildren(t, t', f);
  }

  /** Colouring a childless state of S as a dead end. */
  lemma DeadEndSettles(t: seq<Event>, S: set<State>, A: set<State>, f: State)
    requires Settled(t, S) && DeadEndsChildless(t) && f in S && !HasChild(t, f)
    ensures Settled(t + [Mark(f, DeadEnd)], S) && DeadEndsChildless(t + [Mark(f, DeadEnd)])
    ensures Accounted(t, A) ==> Accounted(t + [Mark(f, DeadEnd)], A + {f})
  {
    AppendMark(t, Mark(f, DeadEnd));
    assert Mark(f, DeadEnd) in t + [Mark(f, DeadEnd)];
    if Accounted(t, A) {
      forall s | s in A ensures Mark(s, DeadEnd) in t ==> Mark(s, DeadEnd) in t + [Mark(f, DeadEnd)] {
      }
    }
  }

  /** No state of S gains a dead-end colour between t and t'. */
  predicate NoNewMarksOn(t: seq<Event>, t': seq<Event>, S: set<State>) {
    forall s :: s in S && Mark(s, DeadEnd) in t' ==> Mark(s, DeadEnd) in t
  }

  /** Extending a log keeps its events and so its children. */
  lemma PrefixKeeps(t: seq<Event>, t': seq<Event>)
    requires t <= t'
    ensures forall e :: e in t ==> e in t'
    ensures forall s :: HasChild(t, s) ==> HasChild(t', s)
  {
    forall e | e in t ensures e in t' {
      var i :| 0 <= i < |t| && t[i] == e;
      assert t'[i] == e;
    }
  }

  /** What depth-first search draws on entering a state: its node and, below
      the root, the edge from its parent. */
  function Drawing(state: State, parent: Option<(State, Action)>, t: seq<Event>): seq<Event> {
    match parent
    case None => t + [AddNode(state)]
    case Some(pa) => t + [AddNode(state)] + [AddEdge(pa.0, state, pa.1, None)]
  }

  /** Growing a log keeps every state accounted for. */
  lemma AccountedGrows(t: seq<Event>, t': seq<Event>, A: set<State>, B: set<State>)
    requires t <= t' && Accounted(t, A) && Accounted(t', B)
    ensures Accounted(t', A + B)
  {
    PrefixKeeps(t, t');
  }

  lemma NoNewMarksTrans(t: seq<Event>, t': seq<Event>, t'': seq<Event>, S: set<State>, S': set<State>)
    requires NoNewMarksOn(t, t', S) && NoNewMarksOn(t', t'', S') && S <= S'
    ensures NoNewMarksOn(t, t'', S)
  {
  }

  lemma PrefixTrans(t: seq<Event>, t': seq<Event>, t'': seq<Event>)
    requires t <= t' && t' <= t''
    ensures t <= t''
  {
    assert t''[..|t'|][..|t|] == t;
  }

  /** Discovering a state by a valid trip from a drawn node, with any
      label, keeps a drawing a drawing. */
  lemma DiscoverInDrawing(t0: seq<Event>, t: seq<Event>, root: State, actions: seq<Action>,
                          f: State, a: Action, cost: Option<int>)
    requires Drawn(t, root, actions) && ExtendsFrom(t0, t, f) && f in Nodes(t)
    requires a in actions && ValidState(ApplyAction(f, a))
    ensures var t' := t + Discovery(f, ApplyAction(f, a), a, cost);
      && Drawn(t', root, actions) && ExtendsFrom(t0, t', f)
      && Nodes(t') == Nodes(t) + {ApplyAction(f, a)}
      && (t == t0 ==> FirstEdgeFrom(t0, t', f))
      && (FirstEdgeFrom(t0, t, f) ==> FirstEdgeFrom(t0, t', f))
      && (forall e :: e in t' ==> e in t || e == AddNode(ApplyAction(f, a)) || e == AddEdge(f, ApplyAction(f, a), a, cost))
  {
    var n := ApplyAction(f, a);
    var t' := t + Discovery(f, n, a, cost);
    assert t'[..|t0|] == t0 by {
      assert t'[..|t|] == t;
    }
    AppendDiscovery(t, f, n, a, cost);
    AppendMove(t, actions, f, a, cost);
    ReachableSuccessor(root, actions, f, a);
  }

  /** Expanding f, a state of S, keeps the colours and edges settled and
      every state accounted for, whether or not f was coloured before. */
  lemma ExtensionSettles(t: seq<Event>, t': seq<Event>, S: set<State>, f: State)
    requires ExtendsFrom(t, t', f) && Settled(t, S)
    ensures Settled(t', S + {f})
    ensures Accounted(t, S) && FirstEdgeFrom(t, t', f) ==> Accounted(t', S + {f})
  {
    SettledGrows(t, S, f);
    ExtendsFromChildren(t, t', f);
  }

  /** Colouring a state of S as a dead end, children or not. */
  lemma MarkSettles(t: seq<Event>, S: set<State>, f: State)
    requires Settled(t, S)
    ensures Settled(t + [Mark(f, DeadEnd)], S + {f})
    ensures Accounted(t, S) ==> Accounted(t + [Mark(f, DeadEnd)], S + {f})
  {
    SettledGrows(t, S, f);
    AppendMark(t, Mark(f, DeadEnd));
    assert Mark(f, DeadEnd) in t + [Mark(f, DeadEnd)];
    if Accounted(t, S) {
      forall s | s in S ensures Mark(s, DeadEnd) in t ==> Mark(s, DeadEnd) in t + [Mark(f, DeadEnd)] {
      }
    }
  }

  /** Colouring the goal, a drawn state outside S, after a settled log:
      the log ends with the goal found, every colour is on a drawn node,
      the goal colour comes last and no dead-end colour is on the goal. */
  lemma GoalMarked(t: seq<Event>, S: set<State>, goal: State)
    requires Settled(t, S) && S <= Nodes(t) && goal in Nodes(t) && goal !in S
    ensures Found(t + [Mark(goal, Goal)], goal)
    ensures MarksOnNodes(t + [Mark(goal, Goal)])
    ensures GoalMarkLast(t + [Mark(goal, Goal)], goal)
    ensures DeadEndsNotGoal(t + [Mark(goal, Goal)], goal)
  {
    var t' := t + [Mark(goal, Goal)];
    AppendMark(t, Mark(goal, Goal));
    AppendMarkMoves(t, [], Mark(goal, Goal));
    forall i | 0 <= i < |t| ensures t'[i] == t[i] && t[i] in t {
    }
  }

  /** Settling is kept when the set grows. */
  lemma SettledGrows(t: seq<Event>, S: set<State>, f: State)
    requires Settled(t, S)
    ensures Settled(t, S + {f})
  {
  }

  /** d gives every drawn node a level: the root 0, and the target of every
      edge one more than its source. */
  predicate Levelled(t: seq<Event>, root: State, d: map<State, nat>) {
    && Nodes(t) <= d.Keys && root in d && d[root] == 0
    && forall e :: e in t && e.AddEdge? ==> e.from in d && e.to in d && d[e.to] == d[e.from] + 1
  }

  /** p starts at the root and follows drawn edges. */
  predicate TreePath(t: seq<Event>, root: State, p: seq<State>) {
    |p| > 0 && p[0] == root
    && forall i :: 0 <= i < |p| - 1 ==> exists e :: e in t && e.AddEdge? && e.from == p[i] && e.to == p[i + 1]
  }

  /** Under such a labelling the level of a node is the number of edges on
      any drawn path from the root to it. */
  lemma {:induction false} LevelIsPathLength(t: seq<Event>, root: State, d: map<State, nat>, p: seq<State>)
    requires Levelled(t, root, d) && TreePath(t, root, p)
    ensures p[|p| - 1] in d && d[p[|p| - 1]] == |p| - 1
  {
    if |p| > 1 {
      var q := p[..|p| - 1];
      assert TreePath(t, root, q) by {
        forall i | 0 <= i < |q| - 1
          ensures exists e :: e in t && e.AddEdge? && e.from == q[i] && e.to == q[i + 1]
        {
          assert q[i] == p[i] && q[i + 1] == p[i + 1];
        }
      }
      LevelIsPathLength(t, root, d, q);
      assert q[|q| - 1] == p[|p| - 2];
      var e :| e in t && e.AddEdge? && e.from == p[|p| - 2] && e.to == p[|p| - 1];
    }
  }

  /** A colour keeps a labelling. */
  lemma LevelledMark(t: seq<Event>, root: State, d: map<State, nat>, m: Event)
    requires Levelled(t, root, d) && m.Mark?
    ensures Levelled(t + [m], root, d)
  {
    AppendMark(t, m);
    assert forall e :: e in t + [m] ==> e in t || e == m;
  }
}
