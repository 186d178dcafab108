# Uniform cost search with a lazy-deletion priority queue

This project models the search core of `Code/wavy_line_ai/util.py` in Dafny and proves properties of the model. The core has three parts:

- **`SearchProblem`.** It is modelled as the datatype `Search.Problem`, with a start state and two total functions: an end-state test, and `succAndCost`, which lists the `(action, newState, cost)` edges out of a state. Walks through the graph these functions describe, and their costs and actions, are defined in `search.dfy`.
- **`PriorityQueue`.** It is the class `PriorityQueues.PriorityQueue`, with two fields that its methods update in place:
  - `priorities` maps each state to its best priority so far, or to `DONE = -100000` once `removeMin` has returned it;
  - `heap` holds the pushed `(priority, state)` entries, stale ones included.

  The heap is a multiset; `heappop` picks some entry of minimal priority. What `update` and `removeMin` promise is stated as two predicates on the queue before and after a call, `Updated` and `Removed`.
- **`UniformCostSearch.solve`.** It is `UniformCost.UniformCostSearch.Solve`, which runs the loop in `RunSearch`:
  - it removes the cheapest live state;
  - it stops at the first end state, rebuilding the path from the backpointers;
  - otherwise it offers every successor to the frontier, writing a backpointer exactly when `update` returns true (`Expand`).

  Its outcome is stated by `SolveOutcome`:
  - the actions and the total cost are both set or both None;
  - they are None exactly when no action sequence leads from the start state to an end state;
  - when set, the actions label such a sequence, its cost is the total cost, and no such sequence costs less;
  - with no solution, `numStatesExplored` is the number of reachable states.

The proof of `Solve` carries three ghost maps alongside the real state:
- `dist`: the settled cost of each removed state;
- `rank`: the order of removal, which makes the backpointer walk terminate;
- `via`: the `succAndCost` edge each backpointer stands for.

`Frontier` is Dijkstra's frontier argument. It gives both optimality and the no-solution case.

Termination needs a finite set `U` of states. `U` holds the start state, is closed under `succAndCost`, and every edge out of it costs at least zero (`Search.Closed`). It is a ghost parameter of `Solve`.

`scenarios.dfy` contains three concrete runs:
- the `update`/`removeMin` sequence on state `"x"`;
- a four-state graph where the cheapest route is not the one with the fewest edges;
- the same graph with no end state.

## Model

| member | source | states |
|---|---|---|
| PriorityQueues.PriorityQueue.constructor | Code/wavy_line_ai/util.py:168-171 | a new queue has an empty heap and no recorded priorities, and satisfies the queue invariant |
| PriorityQueues.PriorityQueue.Update | Code/wavy_line_ai/util.py:177-183 | returns true iff the state has no recorded priority or the new one is strictly lower; on true the new priority is recorded and the heap gains exactly one (p, state) entry; on false neither heap nor priorities change; a DONE state is never reopened; the queue invariant is kept |
| PriorityQueues.PriorityQueue.PopMin | Code/wavy_line_ai/util.py:189 | heappop returns an entry of minimal priority and removes exactly one copy of it from the heap |
| PriorityQueues.PriorityQueue.RemoveMin | Code/wavy_line_ai/util.py:187-193 | the queue invariant is kept, and the call satisfies `Removed`. None: every heap entry belonged to a DONE state, the heap is now empty and the priorities are unchanged. Some((s, p)): s was live with recorded priority p and no live state had a lower one; only s changes, to DONE; (p, s) and some DONE entries no higher than p leave the heap; every remaining entry is at least p |
| PriorityQueues.LiveExit | Code/wavy_line_ai/util.py:188-192 | popping a minimal entry whose state is not DONE returns that state at its recorded priority, the lowest live one; marking it DONE keeps the invariant; the entries skipped before it were all DONE |
| PriorityQueues.Exhausted | Code/wavy_line_ai/util.py:188-193 | when the loop runs out of heap, every entry it popped belonged to a DONE state, so the (None, None) result is justified |
| PriorityQueues.DropStale | Code/wavy_line_ai/util.py:189-190 | skipping a minimal entry of a DONE state keeps the loop invariant: the skipped entries are DONE and no higher than what remains |
| PriorityQueues.TakeLive | Code/wavy_line_ai/util.py:189-191 | a minimal heap entry of a live state carries exactly its recorded priority, which is the lowest of all live states, and marking the state DONE keeps the queue invariant |
| PriorityQueues.RemovedNone | Code/wavy_line_ai/util.py:187-193 | removeMin returns None if and only if every heap entry belongs to a DONE state, and then every recorded priority is DONE |
| PriorityQueues.StaysDone | Code/wavy_line_ai/util.py:179-191 | over any run of update (with priorities at least DONE) and removeMin calls, a DONE state stays DONE |
| PriorityQueues.NoStateReturnedTwice | Code/wavy_line_ai/util.py:169-193 | in any such run, two removeMin calls that both return a state return different states |
| PriorityQueues.MinEntryExists | Code/wavy_line_ai/util.py:189 | a non-empty heap has an entry of minimal priority, so heappop is defined |
| UniformCost.UniformCostSearch.Solve | Code/wavy_line_ai/util.py:116-164 | the three result fields satisfy `SolveOutcome`: both set or both None; None iff no action sequence reaches an end state; when set, the actions label a walk from the start state to an end state whose cost is `totalCost`, and no such walk costs less (Dijkstra optimality); `numStatesExplored` is the number of reachable states on None, and between 1 and that number otherwise |
| UniformCost.RunSearch | Code/wavy_line_ai/util.py:119-162 | the search loop, with the fields as out-parameters, satisfies `SolveOutcome`; it terminates because every removal settles a new state of the finite universe |
| UniformCost.FollowBackpointers | Code/wavy_line_ai/util.py:141-148 | the backpointer walk from a removed state terminates at the start state; the returned actions, in start-to-end order, label a walk along `succAndCost` edges from the start state to that state; the walk's cost is the state's settled priority |
| UniformCost.ReverseInPlace | Code/wavy_line_ai/util.py:147 | list.reverse: the array afterwards is the reverse of the array before |
| UniformCost.ReverseList | Code/wavy_line_ai/util.py:142-147 | the actions list, collected end-to-start and reversed in place, comes out as the reverse of the collected sequence |
| UniformCost.Reversed | Code/wavy_line_ai/util.py:147 | the reversal has the input's length and its i-th element is the input's element at length - 1 - i |
| UniformCost.ReversedSnoc | Code/wavy_line_ai/util.py:145-147 | appending an action at the back of the collected list puts it at the front of the reversed path |
| UniformCost.Expand | Code/wavy_line_ai/util.py:155-162 | offers every edge of the removed state to the frontier at pastCost plus the edge cost, and satisfies `Offered`: afterwards every successor's priority is at most pastCost plus its edge cost; no priority goes up; every state whose priority changed is the newState of an edge e of the removed state, with priority pastCost + e.cost and backpointer (e.action, state); every other backpointer and priority is unchanged; the heap only gains entries of changed states, none below their priority. Every edge out of every removed state is relaxed and the search frame is kept |
| UniformCost.OfferEdge | Code/wavy_line_ai/util.py:156-162 | one turn of the expansion loop: update is called with pastCost plus the edge cost, the backpointer and its edge are written exactly when it returns true, and the loop invariant (`Offered` over one more edge, relaxation, frame) holds again |
| UniformCost.ExpandStep | Code/wavy_line_ai/util.py:157-162 | whichever way update answers for edge i, the expansion invariant over edges 0..i holds over edges 0..i+1 |
| UniformCost.ExpandDone | Code/wavy_line_ai/util.py:155-162 | once every edge has been offered, the search frame holds, every removed state is fully relaxed, and `Offered` holds over all edges of the removed state |
| UniformCost.Offer | Code/wavy_line_ai/util.py:157-162 | offering edge i keeps `Offered`: on true the successor takes pastCost + e.cost and backpointer (e.action, state); on false the successor already had a priority no higher, and nothing changes |
| UniformCost.OfferBacks | Code/wavy_line_ai/util.py:160-162 | when update lowers a successor's priority, writing its backpointer keeps the rule that exactly the changed states have new backpointers, each from an edge whose cost gives its priority |
| UniformCost.OfferHeap | Code/wavy_line_ai/util.py:181 | the entry update pushes belongs to a changed state and is no lower than its new priority, so the heap grows only by such entries |
| UniformCost.UniformCostSearch.constructor | Code/wavy_line_ai/util.py:113-114 | a new searcher has no actions, no total cost and no states explored |
| UniformCost.Relax | Code/wavy_line_ai/util.py:157-162 | one turn of the expansion loop: whichever way update answers, the edge is relaxed and the frame is kept |
| UniformCost.RelaxLowered | Code/wavy_line_ai/util.py:160-162 | when update lowers (or first records) a successor's priority, the new backpointer names the removed state and the edge, and its cost adds up to the new priority |
| UniformCost.RelaxKept | Code/wavy_line_ai/util.py:160 | when update returns false the edge is still relaxed: the successor's best known cost (its settled cost if DONE) is at most pastCost plus the edge cost |
| UniformCost.Extract | Code/wavy_line_ai/util.py:134-136 | the state removeMin returns settles at its priority, and that priority is at most the cost of every action sequence from the start state to an end state |
| UniformCost.Settle | Code/wavy_line_ai/util.py:134-136 | removing the lowest live state keeps the frame, and no settled cost exceeds the new one |
| UniformCost.SettleFrame | Code/wavy_line_ai/util.py:134-136 | removing the lowest live state keeps every removed state's cost, every backpointer, and the start state first in removal order |
| UniformCost.Frontier | Code/wavy_line_ai/util.py:131-134 | with non-negative costs, every walk from the start state ends at a removed state settled at no more than its cost, or some live state's priority is at most its cost |
| UniformCost.MinLiveIsOptimal | Code/wavy_line_ai/util.py:132-134 | the lowest live priority is at most the cost of every action sequence from the start state to an end state |
| UniformCost.NothingLeft | Code/wavy_line_ai/util.py:131-135 | once no live state is left, the removed states are exactly the reachable states, and the problem has no solution |
| UniformCost.NoSolution | Code/wavy_line_ai/util.py:119-121 | when the frontier empties, actions and totalCost are left None, and numStatesExplored counts every reachable state |
| UniformCost.Found | Code/wavy_line_ai/util.py:141-148 | when an end state is removed, its rebuilt path and its priority make a correct and optimal outcome |
| UniformCost.StepBack | Code/wavy_line_ai/util.py:143-146 | following one backpointer reaches a state removed earlier, and prepends to the rebuilt walk the succAndCost edge the backpointer stands for, with its action and cost |
| UniformCost.SettledCount | Code/wavy_line_ai/util.py:136 | the removed states are reachable states of the universe, so numStatesExplored never exceeds the number of reachable states |
| UniformCost.Continue | Code/wavy_line_ai/util.py:131-162 | after expanding a state that is not an end state, the main loop's invariant holds again with one more state explored |
| UniformCost.ExpandedAll | Code/wavy_line_ai/util.py:157-162 | once the expansion loop has covered every edge, every removed state is fully relaxed |
| Search.WalkStaysInside | Code/wavy_line_ai/util.py:13-15 | a walk along succAndCost edges from inside a closed universe stays inside it and costs at least zero |
| Search.WalkAppend | Code/wavy_line_ai/util.py:13-15 | extending a walk by an edge out of its last state adds that edge's cost and action |
| Search.WalkInit | Code/wavy_line_ai/util.py:13-15 | a non-empty walk is a shorter walk followed by one edge out of the state it reaches |
| Scenarios.QueueScenario | Code/wavy_line_ai/util.py:177-193 | update("x", 5) returns true; update("x", 7) returns false and the priority stays 5; update("x", 2) returns true; removeMin returns ("x", 2); the next removeMin returns None |
| Scenarios.UpdateSteps | Code/wavy_line_ai/util.py:177-183 | the three updates of that sequence, from an empty queue, answer true, false, true and leave "x" at priority 2 |
| Scenarios.RemoveSteps | Code/wavy_line_ai/util.py:187-193 | the two removals from that queue return ("x", 2) and then None |
| Scenarios.SearchScenario | Code/wavy_line_ai/util.py:116-164 | on a four-state graph, solve returns the actions a, c, e at total cost 3, the cheapest, though other routes use fewer edges |
| Scenarios.NoGoalScenario | Code/wavy_line_ai/util.py:116-164 | on the same graph with no end state, solve leaves actions and totalCost None, and explores all four states |

## Left out

- `DepthFirstSearchIterativeDeepening` (util.py:29-102) is not modelled, because it cannot run as written:
  - it calls `recurse` unqualified;
  - it reads the undefined `self.bestSolution` and `cost`;
  - its `while True` loop has no exit.
- The `SearchAlgorithm` interface (util.py:17-24) has no member of its own. Its promise about `actions` and `totalCost` is what `SolveOutcome` states.
- The `verbose` output of `solve` and the unused imports are left out. The output has no effect on results.
- `heapq`'s array layout is not modelled. Nor is its tie-breaking, which compares the states themselves when priorities are equal. The heap is a multiset, and among entries of equal priority `PopMin` may return any one.
- PriorityQueues.PriorityQueue.Update: requires `newPriority >= DONE`. Below `DONE`, util.py:179 reopens a removed state, so `removeMin` can return it again, and a stale entry can end up below the recorded priority, which breaks the queue invariant. For example, start from a queue where state 0 is DONE and the heap is empty. Then `update(0, DONE-10)` reopens state 0, `update(0, DONE-11)` lowers it, `removeMin` returns `(0, DONE-11)` and marks it DONE, and `update(0, DONE-5)` reopens it again. This leaves `priorities = map[0 := DONE-5]` with heap entries `(DONE-10, 0)` and `(DONE-5, 0)`. With non-negative costs `solve` never makes such a call.
- UniformCost.UniformCostSearch.constructor: `__init__` (util.py:113-114) stores only `verbose`; `actions`, `totalCost` and `numStatesExplored` are first assigned by `solve` (util.py:119-121). Dafny fields need a value, so the constructor sets them to the same None, None and 0 that `solve` starts from, and `verbose` is left out with the output it controls.
- UniformCost.UniformCostSearch.Solve: requires a finite universe closed under `succAndCost` with integer edge costs of at least zero. Without that, the loop need not terminate and the result need not be optimal. Float costs and a real priority equal to -100000 colliding with `DONE` are outside the model.
- UniformCost.UniformCostSearch.Solve: with a solution, `numStatesExplored` is only bounded, between 1 and the number of reachable states. Its exact value depends on tie-breaking in the heap.
- UniformCost.RunSearch counts removed states in an out-parameter, and `Solve` stores the three results in its fields once the loop ends. The source updates `self.numStatesExplored` as it goes. The two differ only while `solve` is still running.
- The problem is a start state and two total functions of the state, `isEnd` and `succAndCost`. A `SearchProblem` whose `succAndCost` answers differently on different calls is not modelled, and neither is a concrete subclass.
- The `state == None` test that ends the loop (util.py:135) is modelled by `removeMin` returning an `Option`. A problem that uses `None` itself as a state is not modelled.
- `backpointers[state]` at util.py:144 cannot fail in the model. The backpointer invariant proves that every removed state other than the start state has a backpointer.
