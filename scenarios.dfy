/**
 * Concrete runs of the priority queue and of uniform cost search on a small
 * graph, stated as facts about their results.
 */
module Scenarios {
  import opened Wrappers
  import opened Search
  import opened PriorityQueues
  import opened UniformCost

  /**
   * update("x", 5), update("x", 7), update("x", 2), then removeMin twice:
   * the second update changes nothing, the third lowers the priority, the
   * first removal returns ("x", 2) and the second finds only a stale entry.
   */
  method QueueScenario() returns (u5: bool, u7: bool, after7: int, u2: bool,
                                  first: Option<(string, int)>, second: Option<(string, int)>)
    ensures u5 && !u7 && after7 == 5 && u2
    ensures first == Some(("x", 2)) && second == None
  {
    var q := new PriorityQueue<string>();
    u5 := q.Update("x", 5);
    ghost var pr1, h1 := q.priorities, q.heap;
    u7 := q.Update("x", 7);
    ghost var pr2, h2 := q.priorities, q.heap;
    after7 := q.priorities["x"];
    u2 := q.Update("x", 2);
    ghost var pr3, h3 := q.priorities, q.heap;
    UpdateSteps(pr1, h1, u5, pr2, h2, u7, pr3, h3, u2);
    first := q.RemoveMin();
    ghost var pr4, h4 := q.priorities, q.heap;
    second := q.RemoveMin();
    RemoveSteps(pr3, h3, pr4, h4, first, q.priorities, q.heap, second);
  }

  /** The three updates of QueueScenario, from an empty queue. */
  lemma UpdateSteps(pr1: map<string, int>, h1: multiset<(int, string)>, u5: bool,
                    pr2: map<string, int>, h2: multiset<(int, string)>, u7: bool,
                    pr3: map<string, int>, h3: multiset<(int, string)>, u2: bool)
    requires Updated(map[], multiset{}, "x", 5, pr1, h1, u5)
    requires Updated(pr1, h1, "x", 7, pr2, h2, u7)
    requires Updated(pr2, h2, "x", 2, pr3, h3, u2)
    ensures u5 && !u7 && "x" in pr2 && pr2["x"] == 5 && u2
    ensures pr3 == map["x" := 2] && (2, "x") in h3
  {
  }

  /** The two removals of QueueScenario, from the queue the updates leave. */
  lemma RemoveSteps(pr3: map<string, int>, h3: multiset<(int, string)>,
                    pr4: map<string, int>, h4: multiset<(int, string)>, first: Option<(string, int)>,
                    pr5: map<string, int>, h5: multiset<(int, string)>, second: Option<(string, int)>)
    requires pr3 == map["x" := 2] && (2, "x") in h3 && QueueInv(pr3, h3)
    requires Removed(pr3, h3, pr4, h4, first)
    requires Removed(pr4, h4, pr5, h5, second)
    ensures first == Some(("x", 2)) && second == None
  {
    RemovedNone(pr3, h3, pr4, h4, first);
    assert first.Some?;
    assert pr4 == map["x" := DONE];
  }

  /**
   * The edges of a four-state graph: 0 -a/1-> 1, 0 -b/4-> 2, 1 -c/1-> 2,
   * 1 -d/5-> 3, 2 -e/1-> 3; state 3 has no edges and nor does any other state.
   */
  function Edges(s: int): seq<Edge<int, string>>
  {
    if s == 0 then [Edge("a", 1, 1), Edge("b", 2, 4)]
    else if s == 1 then [Edge("c", 2, 1), Edge("d", 3, 5)]
    else if s == 2 then [Edge("e", 3, 1)]
    else []
  }

  /** The graph above searched from 0, with an end-state test given by `goal`. */
  function Graph(goal: int -> bool): Problem<int, string>
  {
    Problem(0, goal, Edges)
  }

  /** The states of the graph: closed under its edges, all costs positive. */
  lemma GraphClosed(goal: int -> bool)
    ensures Closed(Graph(goal), {0, 1, 2, 3})
  {
  }

  /** The cheapest cost from each state to state 3. */
  function ToGoal(s: int): int
  {
    if s == 0 then 3 else if s == 1 then 2 else if s == 2 then 1 else 0
  }

  /** The only action sequence from each state to state 3 that costs ToGoal. */
  function Tight(s: int): seq<string>
  {
    if s == 0 then ["a", "c", "e"] else if s == 1 then ["c", "e"] else if s == 2 then ["e"] else []
  }

  /**
   * Every walk from a state of the graph to state 3 costs at least ToGoal of
   * its start, and one that costs exactly that takes the actions Tight.
   */
  lemma {:induction false} CheapestToGoal(goal: int -> bool, s: int, es: seq<Edge<int, string>>)
    requires s in {0, 1, 2, 3} && IsWalk(Graph(goal), s, es) && End(s, es) == 3
    ensures Cost(es) >= ToGoal(s)
    ensures Cost(es) == ToGoal(s) ==> Actions(es) == Tight(s)
    decreases |es|
  {
    if es != [] {
      var e, rest := es[0], es[1..];
      assert e in Edges(s);
      assert End(s, es) == End(e.newState, rest);
      CheapestToGoal(goal, e.newState, rest);
      assert Actions(es) == [e.action] + Actions(rest);
    }
  }

  /** The walk a, c, e from 0 reaches 3 at cost 3. */
  lemma TightWalk(goal: int -> bool) returns (es: seq<Edge<int, string>>)
    ensures IsWalk(Graph(goal), 0, es) && End(0, es) == 3 && Cost(es) == 3
  {
    var p := Graph(goal);
    es := [Edge("a", 1, 1), Edge("c", 2, 1), Edge("e", 3, 1)];
    assert IsWalk(p, 3, es[3..]);
    assert IsWalk(p, 2, es[2..]);
    assert IsWalk(p, 1, es[1..]);
  }

  /**
   * Searching the graph for state 3 finds the actions a, c, e at total cost
   * 3, although the route through b and the one through d are shorter in
   * edges.
   */
  method SearchScenario() returns (actions: Option<seq<string>>, totalCost: Option<int>)
    ensures actions == Some(["a", "c", "e"]) && totalCost == Some(3)
  {
    var goal := (s: int) => s == 3;
    var p := Graph(goal);
    GraphClosed(goal);
    var ucs := new UniformCostSearch<int, string>();
    ucs.Solve(p, {0, 1, 2, 3});
    actions, totalCost := ucs.actions, ucs.totalCost;
    ghost var cheapest := TightWalk(goal);
    assert IsSolution(p, cheapest);
    ghost var es :| IsSolution(p, es) && Actions(es) == actions.value && Cost(es) == totalCost.value;
    WalkStaysInside(p, {0, 1, 2, 3}, 0, es);
    CheapestToGoal(goal, 0, es);
  }

  /** Every state of the graph is reachable from 0. */
  lemma AllReachable(goal: int -> bool)
    ensures ReachableStates(Graph(goal), {0, 1, 2, 3}) == {0, 1, 2, 3}
  {
    var p := Graph(goal);
    var ea, ec, ee := Edge("a", 1, 1), Edge("c", 2, 1), Edge("e", 3, 1);
    var noEdges: seq<Edge<int, string>> := [];
    assert IsWalk(p, 0, noEdges) && End(0, noEdges) == 0;
    WalkCons(p, 0, ea, noEdges);
    assert [ea] + noEdges == [ea];
    WalkCons(p, 1, ec, noEdges);
    assert [ec] + noEdges == [ec];
    WalkCons(p, 0, ea, [ec]);
    assert [ea] + [ec] == [ea, ec];
    WalkCons(p, 2, ee, noEdges);
    assert [ee] + noEdges == [ee];
    WalkCons(p, 1, ec, [ee]);
    WalkCons(p, 0, ea, [ec, ee]);
    assert [ea] + [ec, ee] == [ea, ec, ee];
  }

  /**
   * With no end state the search reports no solution and removes each of
   * the four states exactly once.
   */
  method NoGoalScenario() returns (actions: Option<seq<string>>, totalCost: Option<int>, explored: nat)
    ensures actions == None && totalCost == None && explored == 4
  {
    var goal := (s: int) => false;
    var p := Graph(goal);
    GraphClosed(goal);
    var ucs := new UniformCostSearch<int, string>();
    ucs.Solve(p, {0, 1, 2, 3});
    actions, totalCost, explored := ucs.actions, ucs.totalCost, ucs.numStatesExplored;
    AllReachable(goal);
  }
}
