# SearchTree: uninformed and informed search over the river-crossing puzzle

This project models the `SearchTree` class of `searchtree.py` in Dafny and
proves what its four searches promise. A `SearchTree` holds an initial state,
a goal state and an ordered list of actions. A state `(m, c, side)` counts the
two kinds of people still on the starting bank, and `side` says which bank
the boat is on. An action `(m, c)` moves that many people across in one trip.

The searches are:

- breadth-first (`bfs`), with a FIFO list and an explored set;
- depth-first (`dfs`), an inner recursion that shares one explored set;
- greedy best-first (`gbfs`) and A* (`a_star`), with a priority queue of
  `(f, position, state)` entries and a cost table.

Each search returns whether it reached the goal, together with the graph it
drew. The model replaces the drawn graph with a log of drawing events:

- `AddNode(s)`;
- `AddEdge(from, to, action, cost)`, where the cost is the priority `f` in
  the informed searches and absent in the uninformed ones;
- `Mark(s, Goal | DeadEnd)`, for the green and red fills.

Modules:

- `RiverCrossing` (river_crossing.dfy): the state and action datatypes,
  `_apply_action`, `_valid_state` and both heuristics, as functions with
  lemmas.
- `Reachability` (reachability.dfy): what "the goal can be reached by valid
  trips" means.
- `SearchTrace` (search_trace.dfy): the drawing log and the shape
  properties of a drawing.
- `Frontier` (frontier.dfy): the priority queue as a sequence of entries,
  its `get`, priorities, and the termination measure for the cost table.
- `Search` (search_tree.dfy): `class SearchTree` with the constructor and
  the four searches as methods with loops. Each search is proved against an
  outcome predicate:
  - the goal is found exactly when it is reachable;
  - when found, the log ends with the goal colour;
  - the log draws only valid trips from the initial state;
  - when the goal is not found, every reachable state is drawn, and every
    drawn node has children or is coloured a dead end.

  The uninformed searches also draw a tree: every state at most once, and
  every node after the first has exactly one incoming edge. Breadth-first
  search draws it level by level: every drawn path from the initial state
  is a shortest way of reaching its last state.

The informed searches do not skip an entry whose cost was improved after it
was pushed: its state is expanded again with its current best cost. The model
does the same. So in those searches a state can be drawn more than once, and
can be coloured a dead end after it already has children. Termination rests
on two facts:

- every recorded state is one of the 20 valid states or the initial state;
- every push adds a state or strictly lowers a recorded cost.

## Model

| member | source | states |
|---|---|---|
| RiverCrossing.ApplyAction | searchtree.py:198-202 | the boat ends on side 0 or 1, opposite to where it started (any non-zero side counts as the starting bank), and the state always changes |
| RiverCrossing.ApplyActionTwice | searchtree.py:198-202 | taking the same action twice returns the original state whenever its side is 0 or 1 |
| RiverCrossing.ValidState | searchtree.py:189-195 | a state is valid exactly when both counts are in [0, 3] and m is 0, 3 or equal to c; the side plays no part |
| RiverCrossing.ValidStates | searchtree.py:189-195 | the set holds exactly the valid states with side 0 or 1 |
| RiverCrossing.SuccessorInValidStates | searchtree.py:198-202 | a valid successor always lies in that set |
| RiverCrossing.TwentyValidStates | searchtree.py:189-195 | there are exactly 20 such states |
| RiverCrossing.HeuristicGbfs | searchtree.py:180-181 | the Manhattan distance is non-negative and zero exactly at the goal |
| RiverCrossing.HeuristicAStar | searchtree.py:184-186 | m + c is within [0, 6] on valid states and zero exactly when both counts are 0 |
| RiverCrossing.HeuristicAStarOverestimates | searchtree.py:184-186 | the A* heuristic is not admissible: (1,1,1) reaches (0,0,0) in one trip, yet its estimate is 2 |
| Reachability.NoTripsOnlyStart | searchtree.py:99-100 | only the initial state is reached in zero trips |
| Reachability.ReachablePredecessor | searchtree.py:35-39 | a state reached in n + 1 trips is one valid trip from a state reached in n trips |
| SearchTrace.LevelIsPathLength | searchtree.py:42-45 | when every drawn edge goes one level down from the root's level 0, a node's level is the number of edges on any drawn path from the root to it |
| SearchTrace.OneIncomingEdge | searchtree.py:42-45 | in a log without repeated nodes the initial state has no incoming edge and every other node exactly one |
| SearchTrace.StatusExclusive | searchtree.py:26-29 | no node is coloured both goal and dead end |
| SearchTrace.GoalMarked | searchtree.py:109-112 | colouring the goal after a settled log ends it found, with the goal colour last and on a drawn node |
| Frontier.MinIndex | searchtree.py:105 | returns the index of an entry no later than any other in (f, position) order |
| Frontier.Get | searchtree.py:105 | the entry handed out is least in (f, position) order; the rest is the queue without it, as a multiset and as a set of states; unique positions stay unique |
| Frontier.MinimumUnique | searchtree.py:121-122 | with unique positions two entries never tie on the whole key, so the least entry is unique |
| Frontier.Priority | searchtree.py:164 | greedy priorities are non-negative and zero exactly at the goal; an A* priority of a valid state lies between its cost and its cost plus 6 |
| Frontier.ImprovesRecorded | searchtree.py:118-119 | a state without a recorded cost is improved by any cost, as against the infinite default; once cost c is recorded, only a strictly smaller cost improves it, and other states are unaffected |
| Frontier.BelowShrinks | searchtree.py:118-119 | lowering one recorded cost, and raising none, strictly shrinks the termination measure |
| Frontier.PushEntries | searchtree.py:121-122 | entries numbered on from the push counter keep positions unique and within the counter |
| Search.SearchTree.constructor | searchtree.py:9-12 | the three fields hold the given initial state, goal and actions |
| Search.SearchTree.Bfs | searchtree.py:16-51 | found exactly when the goal is reachable, and then the log ends with the goal colour; the log is a tree of valid trips from the initial state; without the goal, every reachable state is drawn and every drawn node has children or is a dead end; the drawing has shortest levels: each drawn state has as level its least number of trips from the start, and the root level 0 |
| Search.SearchTree.ShortestDrawnPaths | searchtree.py:16-51 | on a drawing with shortest levels, every drawn path from the initial state to a drawn state is a shortest way of reaching it |
| Search.SearchTree.BfsLevelsStart | searchtree.py:18-20 | the initial state alone in the queue and the drawing, at level 0, meets the level invariant |
| Search.SearchTree.BfsVisit | searchtree.py:22-49 | an iteration whose head is not the goal explores the head, keeps the loop invariant and the level invariant, and draws a new state or shortens the queue |
| Search.SearchTree.BfsStep | searchtree.py:31-49 | from BfsExpand's outcome, the state after the iteration keeps both invariants and the loop's measure goes down |
| Search.SearchTree.BfsLevelsStep | searchtree.py:22-45 | taking the head off and appending its new successors one level below it keeps the drawing labelled with shortest trip counts, the queue's levels sorted within two adjacent values, and every state reachable within the head's level drawn |
| Search.SearchTree.LevelsLabel | searchtree.py:38-45 | the new states get the head's level plus one, which is their least number of trips, and the new edges respect the labelling |
| Search.SearchTree.LevelsQueue | searchtree.py:23-39 | along the new queue the levels stay sorted and within the head's level and the next one, and no explored state is deeper than the head |
| Search.SearchTree.LevelsCover | searchtree.py:23-39 | every state reachable within the new head's level is drawn |
| Search.SearchTree.CoverOne | searchtree.py:35-39 | a state one trip beyond the head's level, when nothing queued after the head is that shallow, is a drawn successor of an explored state |
| Search.SearchTree.LevelsShortest | searchtree.py:16-51 | the labelling kept by the loop shows that the drawing has shortest levels |
| Search.SearchTree.ShortestLevelsMark | searchtree.py:26-29 | colouring a node keeps shortest levels |
| Search.SearchTree.ExpansionAdds | searchtree.py:35-45 | the states an iteration appends are each one valid trip from the popped state and were not drawn, and its only new edges lead from the popped state to them |
| Search.AdmittedSteps | searchtree.py:35-39 | every state bfs appends for an expansion is one valid trip from the state expanded |
| Search.Admitted | searchtree.py:35-39 | every admitted action is one of the actions and its successor is valid |
| Search.SearchTree.BfsExpand | searchtree.py:35-45 | the queue gains exactly the successors of the admitted actions, in action order: each valid and neither known nor already admitted; the drawing gains exactly their nodes and unlabelled edges from current, in the same order; afterwards every valid successor is known; a child is reported exactly when one was queued |
| Search.SearchTree.ExpandStep | searchtree.py:36-45 | one action admits its successor exactly when it is valid and not known |
| Search.SearchTree.BfsStepExpanded | searchtree.py:31-45 | an iteration that queues children keeps the loop invariant and draws a new state |
| Search.SearchTree.BfsStepDeadEnd | searchtree.py:47-49 | an iteration without children keeps the invariant once the state is coloured a dead end, and shortens the queue |
| Search.SearchTree.GoalOutcome | searchtree.py:26-29 | dequeuing the goal ends the search found |
| Search.SearchTree.ExhaustedOutcome | searchtree.py:51 | when every drawn state is explored and has all its successors drawn, every state reachable from the start is drawn, the goal is not reachable, and every drawn node has children or is a dead end |
| Search.SearchTree.Dfs | searchtree.py:87-92 | the same outcome as Bfs: found exactly when reachable, a tree of valid trips; without the goal every reachable state is drawn and every drawn node has children or is a dead end |
| Search.SearchTree.Recursion | searchtree.py:57-85 | a call that finds the goal ends the whole search with the goal coloured last; a call that does not find it leaves its explored states closed under valid trips and accounted for, and does not recolour states explored before |
| Search.SearchTree.DrawEntered | searchtree.py:58-63 | drawing the entered state and its parent edge keeps a tree whose parent now has a child |
| Search.SearchTree.DfsDraw | searchtree.py:65-70 | at the goal the search ends found; otherwise the state is explored before its successors |
| Search.SearchTree.DfsChild | searchtree.py:76-78 | a valid successor not yet explored may be entered, and entering it is a smaller problem |
| Search.SearchTree.DfsAfterChild | searchtree.py:78-79 | a child that returns without the goal leaves the loop invariant true for the next action |
| Search.SearchTree.DfsSkip | searchtree.py:76 | an action whose successor is invalid or explored changes nothing |
| Search.SearchTree.DfsClosed | searchtree.py:73-79 | after the last action every valid successor of every state the call explored is explored |
| Search.SearchTree.DfsFinishExpanded | searchtree.py:81-85 | a call whose state entered a child returns without colouring it, meeting the call's post-condition |
| Search.SearchTree.DfsFinishDeadEnd | searchtree.py:81-85 | a call whose state entered no child meets the call's post-condition once the state is coloured a dead end |
| Search.SearchTree.Gbfs | searchtree.py:96-133 | found exactly when the goal is reachable, then coloured last; every edge is a valid trip labelled with the greedy heuristic of its target; without the goal, every reachable state is drawn and every drawn node has children or is a dead end |
| Search.SearchTree.AStar | searchtree.py:137-177 | the same, with every edge labelled by a valid path length to its target plus the A* heuristic |
| Search.SearchTree.BestFirst | searchtree.py:104-133 | the outcome above, for either priority |
| Search.SearchTree.BestStart | searchtree.py:97-102 | the start state queued at position 0 with cost 0, and drawn, satisfies the loop invariant |
| Search.SearchTree.BestGoal | searchtree.py:109-112 | popping the goal ends the search found |
| Search.SearchTree.BestExhausted | searchtree.py:133 | an empty queue means every state reachable from the start is drawn, so the goal is unreachable, and every drawn node has children or is a dead end |
| Search.SearchTree.RecordedCosts | searchtree.py:100 | between iterations the initial state has cost 0 and every other recorded state cost at least 1 |
| Search.SearchTree.QueuedExpanded | searchtree.py:114-122 | an expansion that pushed entries keeps the queue and cost-table invariant |
| Search.SearchTree.DrawnExpanded | searchtree.py:124-127 | and keeps the drawing invariant |
| Search.SearchTree.QueuedDeadEnd | searchtree.py:129-131 | an expansion that pushed nothing leaves the costs unchanged, keeps the invariant and shortens the queue |
| Search.SearchTree.DrawnDeadEnd | searchtree.py:129-131 | and keeps the drawing invariant once the state is coloured a dead end |
| Search.SearchTree.DeadEndSummary | searchtree.py:129-131 | an expansion that pushed nothing changed nothing, and every valid successor already had a cost no better |
| Search.SearchTree.BestExpand | searchtree.py:114-127 | the queue only grows, by entries numbered on from the push counter; each pushed entry holds a valid successor, other than current, whose cost through current beats its recorded cost, with that cost recorded and its priority; afterwards every valid successor has a cost at most current's plus one; no other cost changes; the drawing gains exactly the pushed states with labelled edges from current; a child is reported exactly when an entry was pushed; the pushed entries, the cost table and the drawing are exactly Relax's fold over all the actions |
| Search.SearchTree.Relax | searchtree.py:114-127 | after the first i actions, at most one entry per action was pushed, each numbered on from the push counter and holding the successor by one of those actions |
| Search.SearchTree.TryAction | searchtree.py:115-127 | when the successor by the action is valid and its cost through current strictly beats the recorded one, that cost is recorded, an entry with its priority and the next position is pushed, and the node and labelled edge are drawn; otherwise nothing changes; the expansion invariant holds one action further on, and the result is Relax's fold one action further on |
| Search.SearchTree.BestPush | searchtree.py:118-127 | a successful improvement keeps the expansion invariant one action further on |
| Search.SearchTree.BestSkip | searchtree.py:118 | an invalid or not improved successor changes nothing |
| Search.SearchTree.PushCosts | searchtree.py:116-122 | the new entry carries the next position and its priority, the table records the new cost, every recorded cost is a valid path length |
| Search.SearchTree.PushDrawing | searchtree.py:124-127 | the successor is drawn with an edge from current labelled by its priority |
| Search.SearchTree.PushLabelled | searchtree.py:127 | that label is the greedy heuristic, or a valid path length plus the A* heuristic |
| Search.SearchTree.BestClosed | searchtree.py:114-119 | after the last action every valid successor of current has a cost |
| Search.SearchTree.ExpansionCosts | searchtree.py:116-119 | an expansion never forgets a state nor raises a cost, records new states at the current cost plus one, and keeps the initial state's cost 0 |
| Search.SearchTree.BestProgress | searchtree.py:118-122 | an expansion that pushed something recorded a new state or lowered a recorded cost |

## Left out

- The pydot graph, the SVG display and the `types.MethodType` patch in `_new_graph` (searchtree.py:205-212) and the imports of lines 1-4. These are a foreign drawing library. They become the event log above.
- Node lookup by the quoted string of a state (searchtree.py:24, 106, 148). Nodes are keyed by state value. When an informed search draws a state twice, the log holds both nodes, and the model does not say which one a later colour is attached to.
- Edge label text: the label `f"{action} cost: {f}"` and the action's string form are not modelled. Only the action and the number `f` are kept.
- `float('inf')` as the default cost (searchtree.py:118, 161) is modelled as a key absent from the cost table.
- `queue.PriorityQueue` is modelled as a sequence with a linear minimum scan. Its locking is not modelled. Whole tuples are compared in the source, but positions are unique, so states are never compared.
- The shared `explored` set of `dfs` is passed into each call and returned from it, instead of being shared by aliasing. The Python recursion-depth limit is not modelled.
- `_valid_state`'s `total` parameter is fixed at its default 3, the only value the class uses. States and actions are triples and pairs of unbounded integers, not arbitrary-length tuples.
- A* optimality is not stated: the A* heuristic is not admissible (see HeuristicAStarOverestimates), so no optimality holds for it. The greedy search promises no path length either. For breadth-first search the shortest-level guarantee is proved (Bfs, ShortestDrawnPaths); depth-first search promises nothing about length.
- Search.SearchTree.AStar: the outcome states each edge label as the length of some valid path to its target plus the heuristic, not as the exact cost recorded when it was pushed. Within one expansion, BestExpand states the exact cost, through EntriesOk and the Relax fold.
