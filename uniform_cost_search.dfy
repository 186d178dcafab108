/**
 * Uniform cost search (UniformCostSearch in util.py): Dijkstra's algorithm
 * over the implicit graph of a search problem, with the lazy-deletion
 * priority queue as its frontier and a backpointer map from which the
 * cheapest action sequence is rebuilt once an end state is removed.
 *
 * The ghost state carried through the search is
 *   dist  the cost of every removed (DONE) state, fixed when it is removed;
 *   rank  the order in which the states were removed, which makes the
 *         backpointer walk terminate;
 *   via   the succAndCost edge each backpointer stands for.
 */
module UniformCost {
  import opened Wrappers
  import opened Search
  import opened PriorityQueues

  /** The list reversal that puts the rebuilt actions in start-to-end order. */
  function Reversed<X>(xs: seq<X>): (r: seq<X>)
    ensures |r| == |xs|
    ensures forall i | 0 <= i < |xs| :: r[i] == xs[|xs| - 1 - i]
  {
    if xs == [] then [] else [xs[|xs| - 1]] + Reversed(xs[..|xs| - 1])
  }

  /** list.reverse: reverses the elements of `a` in place. */
  method ReverseInPlace<X>(a: array<X>)
    modifies a
    ensures a[..] == Reversed(old(a[..]))
  {
    var i, j := 0, a.Length - 1;
    while i < j
      invariant 0 <= i <= a.Length && -1 <= j < a.Length && i + j == a.Length - 1
      invariant forall k | 0 <= k < i :: a[k] == old(a[a.Length - 1 - k])
      invariant forall k | j < k < a.Length :: a[k] == old(a[a.Length - 1 - k])
      invariant forall k | i <= k <= j :: a[k] == old(a[k])
    {
      a[i], a[j] := a[j], a[i];
      i, j := i + 1, j - 1;
    }
  }

  /** The actions list of solve reversed in place: a fresh array holding `xs`, reversed. */
  method ReverseList<X>(xs: seq<X>) returns (r: seq<X>)
    ensures r == Reversed(xs)
  {
    var list := new X[|xs|](k requires 0 <= k < |xs| => xs[k]);
    assert list[..] == xs;
    ReverseInPlace(list);
    r := list[..];
  }

  /** Appending at the back of a sequence prepends at the front of its reverse. */
  lemma ReversedSnoc<X>(xs: seq<X>, x: X)
    ensures Reversed(xs + [x]) == [x] + Reversed(xs)
  {
  }

  /**
   * The best known cost of `t`: fixed in `dist` once `t` is DONE, otherwise
   * its recorded priority in the frontier.
   */
  ghost function CostOf<S>(pr: map<S, int>, dist: map<S, int>, t: S): int
  {
    if t in dist then dist[t] else if t in pr then pr[t] else 0
  }

  /**
   * The backpointer of `t` names a removed predecessor and an edge of
   * succAndCost from it to `t` whose cost brings the predecessor's cost to
   * `t`'s best known cost; a removed `t` was removed after its predecessor.
   */
  ghost predicate BackOk<S, A>(p: Problem<S, A>, pr: map<S, int>, dist: map<S, int>, rank: map<S, nat>,
                               bp: map<S, (A, S)>, via: map<S, Edge<S, A>>, t: S)
  {
    t in bp && t in via && bp[t].1 in dist && bp[t].1 in rank &&
    via[t] in p.succAndCost(bp[t].1) &&
    via[t] == Edge(bp[t].0, t, via[t].cost) &&
    dist[bp[t].1] + via[t].cost == CostOf(pr, dist, t) &&
    (t in dist ==> t in rank && rank[bp[t].1] < rank[t])
  }

  /**
   * The removed states are exactly the DONE ones, each with a settled cost
   * and a rank below the number `n` of states removed so far.
   */
  ghost predicate SettledInv<S>(pr: map<S, int>, dist: map<S, int>, rank: map<S, nat>, n: nat)
  {
    (forall t | t in dist :: t in pr && pr[t] == DONE && t in rank && rank[t] < n) &&
    (forall t | t in pr && pr[t] == DONE :: t in dist) &&
    |dist| == n
  }

  /** Every state the frontier has seen lies in `U` and is reachable from the start state. */
  ghost predicate SeenInv<S(!new), A(!new)>(p: Problem<S, A>, U: set<S>, pr: map<S, int>)
  {
    (forall t | t in pr :: t in U) &&
    (forall t {:trigger Reachable(p, t)} | t in pr :: Reachable(p, t))
  }

  /** The start state has been seen at cost 0, and is the first state removed. */
  ghost predicate StartInv<S, A>(p: Problem<S, A>, pr: map<S, int>, dist: map<S, int>, n: nat)
  {
    p.startState in pr && CostOf(pr, dist, p.startState) == 0 &&
    (n > 0 ==> p.startState in dist)
  }

  /** Live priorities are non-negative and no settled cost exceeds a live priority. */
  ghost predicate OrderInv<S>(pr: map<S, int>, dist: map<S, int>)
  {
    (forall t | t in pr && pr[t] != DONE :: 0 <= pr[t]) &&
    (forall u, t | u in dist && t in pr && pr[t] != DONE :: dist[u] <= pr[t])
  }

  /** Every seen state other than the start state has a backpointer as BackOk describes. */
  ghost predicate BackInv<S, A>(p: Problem<S, A>, pr: map<S, int>, dist: map<S, int>, rank: map<S, nat>,
                                bp: map<S, (A, S)>, via: map<S, Edge<S, A>>)
  {
    forall t {:trigger BackOk(p, pr, dist, rank, bp, via, t)} | t in pr && t != p.startState ::
      BackOk(p, pr, dist, rank, bp, via, t)
  }

  /**
   * What the search keeps true of its frontier priorities `pr`, the settled
   * costs and the backpointers, with `n` states removed so far. It holds at
   * every step, whether or not the latest removed state is fully expanded.
   */
  ghost predicate Frame<S(!new), A(!new)>(p: Problem<S, A>, U: set<S>, pr: map<S, int>, dist: map<S, int>,
                                          rank: map<S, nat>, bp: map<S, (A, S)>,
                                          via: map<S, Edge<S, A>>, n: nat)
  {
    SettledInv(pr, dist, rank, n) && SeenInv(p, U, pr) && StartInv(p, pr, dist, n) &&
    OrderInv(pr, dist) && BackInv(p, pr, dist, rank, bp, via)
  }

  /** Every edge in `es`, leaving a state of cost `d`, leads to a state whose best known cost is at most `d` plus the edge cost. */
  ghost predicate Relaxed<S, A>(pr: map<S, int>, dist: map<S, int>, d: int, es: seq<Edge<S, A>>)
  {
    forall e | e in es :: e.newState in pr && CostOf(pr, dist, e.newState) <= d + e.cost
  }

  /** Every removed state other than `cur` has had all its edges relaxed. */
  ghost predicate RelaxedExcept<S, A>(p: Problem<S, A>, pr: map<S, int>, dist: map<S, int>, cur: S)
  {
    forall u | u in dist && u != cur :: Relaxed(pr, dist, dist[u], p.succAndCost(u))
  }

  /** Every removed state has had all its edges relaxed. */
  ghost predicate AllRelaxed<S, A>(p: Problem<S, A>, pr: map<S, int>, dist: map<S, int>)
  {
    forall u | u in dist :: Relaxed(pr, dist, dist[u], p.succAndCost(u))
  }

  /** No removed state is an end state (the search stops at the first one). */
  ghost predicate NoEndSettled<S, A>(p: Problem<S, A>, dist: map<S, int>)
  {
    forall u | u in dist :: !p.isEnd(u)
  }

  /**
   * The state of the search while it expands the removed state `cur`, whose
   * settled cost is `d` (the highest so far) and whose first `i` edges have
   * been relaxed.
   */
  ghost predicate Expanding<S(!new), A(!new)>(p: Problem<S, A>, U: set<S>, pr: map<S, int>, dist: map<S, int>,
                                              rank: map<S, nat>, bp: map<S, (A, S)>,
                                              via: map<S, Edge<S, A>>, n: nat,
                                              cur: S, d: int, edges: seq<Edge<S, A>>, i: nat)
  {
    Frame(p, U, pr, dist, rank, bp, via, n) &&
    cur in dist && dist[cur] == d && 0 <= d && (forall u | u in dist :: dist[u] <= d) &&
    RelaxedExcept(p, pr, dist, cur) &&
    edges == p.succAndCost(cur) && i <= |edges| && Relaxed(pr, dist, d, edges[..i])
  }

  /** Once every edge of `cur` is relaxed, every removed state is. */
  lemma ExpandedAll<S(!new), A(!new)>(p: Problem<S, A>, U: set<S>, pr: map<S, int>, dist: map<S, int>,
                                      rank: map<S, nat>, bp: map<S, (A, S)>, via: map<S, Edge<S, A>>, n: nat,
                                      cur: S, d: int, edges: seq<Edge<S, A>>)
    requires Expanding(p, U, pr, dist, rank, bp, via, n, cur, d, edges, |edges|)
    ensures Frame(p, U, pr, dist, rank, bp, via, n) && AllRelaxed(p, pr, dist)
  {
    assert edges[..|edges|] == edges;
  }

  /** The invariant of the main loop of solve. */
  ghost predicate Searching<S(!new), A(!new)>(p: Problem<S, A>, U: set<S>, pr: map<S, int>, dist: map<S, int>,
                                              rank: map<S, nat>, bp: map<S, (A, S)>,
                                              via: map<S, Edge<S, A>>, n: nat)
  {
    Closed(p, U) && Frame(p, U, pr, dist, rank, bp, via, n) && AllRelaxed(p, pr, dist) &&
    NoEndSettled(p, dist) && n <= |U|
  }

  /**
   * Dijkstra's frontier property: a walk from the start state either ends in
   * a removed state whose cost is at most the walk's, or some live state has
   * a recorded priority at most the walk's cost.
   */
  lemma {:induction false} Frontier<S(!new), A(!new)>(p: Problem<S, A>, U: set<S>, pr: map<S, int>,
                                                      dist: map<S, int>, rank: map<S, nat>,
                                                      bp: map<S, (A, S)>, via: map<S, Edge<S, A>>,
                                                      n: nat, es: seq<Edge<S, A>>)
    requires Closed(p, U) && Frame(p, U, pr, dist, rank, bp, via, n) && AllRelaxed(p, pr, dist)
    requires IsWalk(p, p.startState, es)
    ensures (End(p.startState, es) in dist && dist[End(p.startState, es)] <= Cost(es)) ||
            (exists v :: v in pr && pr[v] != DONE && pr[v] <= Cost(es))
    decreases |es|
  {
    var s := p.startState;
    if es == [] {
      if s !in dist {
        assert pr[s] != DONE && pr[s] <= Cost(es);
      }
    } else {
      var init, e := es[..|es| - 1], es[|es| - 1];
      WalkInit(p, s, es);
      Frontier(p, U, pr, dist, rank, bp, via, n, init);
      var u := End(s, init);
      WalkStaysInside(p, U, s, init);
      assert e.cost >= 0;
      if u in dist && dist[u] <= Cost(init) {
        assert e in p.succAndCost(u);
        var w := e.newState;
        assert w in pr && CostOf(pr, dist, w) <= dist[u] + e.cost;
        if w !in dist {
          assert pr[w] != DONE && pr[w] <= Cost(es);
        }
      } else {
        var v :| v in pr && pr[v] != DONE && pr[v] <= Cost(init);
        assert pr[v] <= Cost(es);
      }
    }
  }

  /**
   * The state removed next, carrying the lowest live priority, costs no more
   * than any action sequence from the start state to an end state.
   */
  lemma MinLiveIsOptimal<S(!new), A(!new)>(p: Problem<S, A>, U: set<S>, pr: map<S, int>, dist: map<S, int>,
                                           rank: map<S, nat>, bp: map<S, (A, S)>,
                                           via: map<S, Edge<S, A>>, n: nat, t: S)
    requires Closed(p, U) && Frame(p, U, pr, dist, rank, bp, via, n) && AllRelaxed(p, pr, dist)
    requires NoEndSettled(p, dist)
    requires t in pr && IsMinLive(pr, t, pr[t])
    ensures forall es | IsSolution(p, es) :: pr[t] <= Cost(es)
  {
    forall es | IsSolution(p, es)
      ensures pr[t] <= Cost(es)
    {
      Frontier(p, U, pr, dist, rank, bp, via, n, es);
    }
  }

  /**
   * Once no live state is left, the removed states are exactly the states
   * reachable from the start state, and none of them is an end state: the
   * problem has no solution.
   */
  lemma NothingLeft<S(!new), A(!new)>(p: Problem<S, A>, U: set<S>, pr: map<S, int>, dist: map<S, int>,
                                      rank: map<S, nat>, bp: map<S, (A, S)>,
                                      via: map<S, Edge<S, A>>, n: nat)
    requires Closed(p, U) && Frame(p, U, pr, dist, rank, bp, via, n) && AllRelaxed(p, pr, dist)
    requires NoEndSettled(p, dist)
    requires AllDone(pr)
    ensures !exists es :: IsSolution(p, es)
    ensures ReachableStates(p, U) == dist.Keys
  {
    forall es | IsWalk(p, p.startState, es)
      ensures End(p.startState, es) in dist
    {
      Frontier(p, U, pr, dist, rank, bp, via, n, es);
    }
    forall t | t in ReachableStates(p, U)
      ensures t in dist
    {
      var es :| IsWalk(p, p.startState, es) && End(p.startState, es) == t;
    }
  }

  /**
   * What solve promises about its results: `actions` and `totalCost` are
   * both set or both None; they are None exactly when no action sequence
   * leads from the start state to an end state; when set, `actions` labels
   * such a sequence whose cost is `totalCost`, and no such sequence costs
   * less. `explored` states were removed: all the reachable ones when there
   * is no solution, at least one and at most all of them otherwise.
   */
  ghost predicate SolveOutcome<S(!new), A(!new)>(p: Problem<S, A>, U: set<S>, actions: Option<seq<A>>,
                                                 totalCost: Option<int>, explored: nat)
  {
    (actions.Some? <==> totalCost.Some?) &&
    (actions.None? <==> !exists es :: IsSolution(p, es)) &&
    (actions.Some? ==>
       exists es :: IsSolution(p, es) && Actions(es) == actions.value && Cost(es) == totalCost.value) &&
    (totalCost.Some? ==> forall es | IsSolution(p, es) :: totalCost.value <= Cost(es)) &&
    (actions.None? ==> explored == |ReachableStates(p, U)|) &&
    (actions.Some? ==> 1 <= explored <= |ReachableStates(p, U)|)
  }

  /** The frontier ran empty: solve reports no solution, having removed every reachable state. */
  lemma NoSolution<S(!new), A(!new)>(p: Problem<S, A>, U: set<S>, pr: map<S, int>, dist: map<S, int>,
                                     rank: map<S, nat>, bp: map<S, (A, S)>,
                                     via: map<S, Edge<S, A>>, n: nat)
    requires Closed(p, U) && Frame(p, U, pr, dist, rank, bp, via, n) && AllRelaxed(p, pr, dist)
    requires NoEndSettled(p, dist)
    requires AllDone(pr)
    ensures SolveOutcome(p, U, None, None, n)
  {
    NothingLeft(p, U, pr, dist, rank, bp, via, n);
    assert |dist| == |dist.Keys|;
  }

  /**
   * An end state `goal` was removed at cost `c`, which no solution undercuts,
   * and `path` labels a walk to it of that cost: solve reports `path` and `c`.
   */
  lemma Found<S(!new), A(!new)>(p: Problem<S, A>, U: set<S>, pr: map<S, int>, dist: map<S, int>,
                                rank: map<S, nat>, bp: map<S, (A, S)>, via: map<S, Edge<S, A>>, n: nat,
                                goal: S, c: int, path: seq<A>)
    requires Frame(p, U, pr, dist, rank, bp, via, n) && goal in dist && dist[goal] == c && p.isEnd(goal)
    requires forall es | IsSolution(p, es) :: c <= Cost(es)
    requires exists es :: IsWalk(p, p.startState, es) && End(p.startState, es) == goal &&
                          Actions(es) == path && Cost(es) == c
    ensures SolveOutcome(p, U, Some(path), Some(c), n)
  {
    SettledCount(p, U, pr, dist, rank, bp, via, n);
    var es :| IsWalk(p, p.startState, es) && End(p.startState, es) == goal && Actions(es) == path && Cost(es) == c;
    assert IsSolution(p, es);
    assert goal in dist.Keys;
  }

  /**
   * One removal of the main loop: removeMin returned `t` at priority `c`.
   * Then `c` is the cheapest cost of any solution, `t` is settled at `c`, and
   * the expansion of `t` can begin.
   */
  lemma Extract<S(!new), A(!new)>(p: Problem<S, A>, U: set<S>, pr0: map<S, int>, heap0: multiset<(int, S)>,
                                  pr: map<S, int>, heap: multiset<(int, S)>, dist: map<S, int>,
                                  rank: map<S, nat>, bp: map<S, (A, S)>, via: map<S, Edge<S, A>>, n: nat,
                                  t: S, c: int)
    requires Searching(p, U, pr0, dist, rank, bp, via, n)
    requires Removed(pr0, heap0, pr, heap, Some((t, c)))
    ensures forall es | IsSolution(p, es) :: c <= Cost(es)
    ensures Expanding(p, U, pr, dist[t := c], rank[t := n], bp, via, n + 1, t, c, p.succAndCost(t), 0)
    ensures Frame(p, U, pr, dist[t := c], rank[t := n], bp, via, n + 1)
    ensures t in dist[t := c] && dist[t := c][t] == c
  {
    Settle(p, U, pr0, dist, rank, bp, via, n, t);
    MinLiveIsOptimal(p, U, pr0, dist, rank, bp, via, n, t);
  }

  /** After expanding a state that is not an end state, the main loop's invariant holds again. */
  lemma Continue<S(!new), A(!new)>(p: Problem<S, A>, U: set<S>, pr: map<S, int>, dist: map<S, int>,
                                   rank: map<S, nat>, bp: map<S, (A, S)>, via: map<S, Edge<S, A>>, n: nat,
                                   t: S, c: int)
    requires Closed(p, U) && NoEndSettled(p, dist) && !p.isEnd(t)
    requires Frame(p, U, pr, dist[t := c], rank, bp, via, n) && AllRelaxed(p, pr, dist[t := c])
    ensures Searching(p, U, pr, dist[t := c], rank, bp, via, n)
  {
    SettledCount(p, U, pr, dist[t := c], rank, bp, via, n);
  }

  /**
   * Removing the live state `t` of lowest priority settles its cost at that
   * priority and keeps the frame; every other removed state stays relaxed,
   * and no settled cost exceeds the new one.
   */
  lemma Settle<S(!new), A(!new)>(p: Problem<S, A>, U: set<S>, pr: map<S, int>, dist: map<S, int>,
                                 rank: map<S, nat>, bp: map<S, (A, S)>,
                                 via: map<S, Edge<S, A>>, n: nat, t: S)
    requires Frame(p, U, pr, dist, rank, bp, via, n) && AllRelaxed(p, pr, dist)
    requires t in pr && IsMinLive(pr, t, pr[t])
    ensures Expanding(p, U, pr[t := DONE], dist[t := pr[t]], rank[t := n], bp, via, n + 1,
                      t, pr[t], p.succAndCost(t), 0)
  {
    var pr', dist' := pr[t := DONE], dist[t := pr[t]];
    SettleFrame(p, U, pr, dist, rank, bp, via, n, t);
    SettleKeepsCosts(pr, dist, t);
    forall u | u in dist' && u != t
      ensures Relaxed(pr', dist', dist'[u], p.succAndCost(u))
    {
      assert Relaxed(pr, dist, dist[u], p.succAndCost(u));
    }
    assert 0 <= pr[t] && forall u | u in dist' :: dist'[u] <= pr[t];
    assert p.succAndCost(t)[..0] == [];
  }

  /** Removing the live state `t` of lowest priority keeps the frame. */
  lemma SettleFrame<S(!new), A(!new)>(p: Problem<S, A>, U: set<S>, pr: map<S, int>, dist: map<S, int>,
                                      rank: map<S, nat>, bp: map<S, (A, S)>,
                                      via: map<S, Edge<S, A>>, n: nat, t: S)
    requires Frame(p, U, pr, dist, rank, bp, via, n)
    requires t in pr && IsMinLive(pr, t, pr[t])
    ensures Frame(p, U, pr[t := DONE], dist[t := pr[t]], rank[t := n], bp, via, n + 1)
  {
    var pr', dist', rank' := pr[t := DONE], dist[t := pr[t]], rank[t := n];
    assert t !in dist;
    SettleKeepsBacks(p, pr, dist, rank, bp, via, n, t);
    assert SettledInv(pr', dist', rank', n + 1);
    if t != p.startState {
      assert BackOk(p, pr, dist, rank, bp, via, t);
      assert bp[t].1 in dist.Keys;
    }
    assert SeenInv(p, U, pr');
    assert StartInv(p, pr', dist', n + 1);
  }

  /** Settling `t` at its priority leaves every best known cost as it was. */
  lemma SettleKeepsCosts<S>(pr: map<S, int>, dist: map<S, int>, t: S)
    requires t in pr && t !in dist
    ensures forall x | x in pr :: CostOf(pr[t := DONE], dist[t := pr[t]], x) == CostOf(pr, dist, x)
  {
  }

  /** Settling `t` keeps every backpointer valid. */
  lemma SettleKeepsBacks<S, A>(p: Problem<S, A>, pr: map<S, int>, dist: map<S, int>, rank: map<S, nat>,
                               bp: map<S, (A, S)>, via: map<S, Edge<S, A>>, n: nat, t: S)
    requires SettledInv(pr, dist, rank, n) && BackInv(p, pr, dist, rank, bp, via)
    requires t in pr && t !in dist
    ensures BackInv(p, pr[t := DONE], dist[t := pr[t]], rank[t := n], bp, via)
  {
    var pr', dist', rank' := pr[t := DONE], dist[t := pr[t]], rank[t := n];
    SettleKeepsCosts(pr, dist, t);
    forall x | x in pr' && x != p.startState
      ensures BackOk(p, pr', dist', rank', bp, via, x)
    {
      assert BackOk(p, pr, dist, rank, bp, via, x);
    }
  }

  /**
   * One turn of the expansion loop: update was called for edge `i` of `cur`
   * with the cost through `cur`, and returned `updated`; when it did, the
   * backpointer and the edge behind it were recorded. The search state is
   * then one relaxed edge further on.
   */
  lemma Relax<S(!new), A(!new)>(p: Problem<S, A>, U: set<S>, pr: map<S, int>, dist: map<S, int>,
                                rank: map<S, nat>, bp: map<S, (A, S)>, via: map<S, Edge<S, A>>, n: nat,
                                cur: S, d: int, edges: seq<Edge<S, A>>, i: nat, updated: bool,
                                heap: multiset<(int, S)>, pr': map<S, int>, heap': multiset<(int, S)>,
                                bp': map<S, (A, S)>, via': map<S, Edge<S, A>>)
    requires Closed(p, U) && Expanding(p, U, pr, dist, rank, bp, via, n, cur, d, edges, i) && i < |edges|
    requires Updated(pr, heap, edges[i].newState, d + edges[i].cost, pr', heap', updated)
    requires updated ==> bp' == bp[edges[i].newState := (edges[i].action, cur)] &&
                         via' == via[edges[i].newState := edges[i]]
    requires !updated ==> bp' == bp && via' == via
    ensures Expanding(p, U, pr', dist, rank, bp', via', n, cur, d, edges, i + 1)
  {
    var e := edges[i];
    assert cur in U && e in p.succAndCost(cur);
    assert e.newState in U && e.cost >= 0;
    if updated {
      RelaxLowered(p, U, pr, dist, rank, bp, via, n, cur, d, edges, i);
    } else {
      RelaxKept(p, U, pr, dist, rank, bp, via, n, cur, i);
    }
  }

  /** Relaxing edge `i` of `cur` when update lowered (or first recorded) the priority of its target. */
  lemma RelaxLowered<S(!new), A(!new)>(p: Problem<S, A>, U: set<S>, pr: map<S, int>, dist: map<S, int>,
                                       rank: map<S, nat>, bp: map<S, (A, S)>, via: map<S, Edge<S, A>>, n: nat,
                                       cur: S, d: int, edges: seq<Edge<S, A>>, i: nat)
    requires Closed(p, U) && Expanding(p, U, pr, dist, rank, bp, via, n, cur, d, edges, i) && i < |edges|
    requires edges[i].newState !in pr || (pr[edges[i].newState] != DONE && d + edges[i].cost < pr[edges[i].newState])
    ensures Expanding(p, U, pr[edges[i].newState := d + edges[i].cost], dist, rank,
                      bp[edges[i].newState := (edges[i].action, cur)], via[edges[i].newState := edges[i]], n,
                      cur, d, edges, i + 1)
  {
    var e := edges[i];
    var w, c := e.newState, d + e.cost;
    var pr' := pr[w := c];
    assert e in p.succAndCost(cur);
    LowerKeepsSeen(p, U, pr, cur, e, c);
    LowerKeepsBacks(p, pr, dist, rank, bp, via, n, cur, e);
    LowerKeepsRelaxed(p, pr, dist, cur, i);
    assert SettledInv(pr', dist, rank, n);
    assert OrderInv(pr', dist);
  }

  /** The target of an edge out of a seen state is in `U` and reachable, so recording it keeps SeenInv. */
  lemma LowerKeepsSeen<S(!new), A(!new)>(p: Problem<S, A>, U: set<S>, pr: map<S, int>, cur: S, e: Edge<S, A>,
                                         c: int)
    requires Closed(p, U) && SeenInv(p, U, pr) && cur in pr && e in p.succAndCost(cur)
    ensures SeenInv(p, U, pr[e.newState := c])
  {
    assert cur in U && Reachable(p, cur);
    var es :| IsWalk(p, p.startState, es) && End(p.startState, es) == cur;
    WalkAppend(p, p.startState, es, e);
    assert Reachable(p, e.newState);
  }

  /** Lowering (or first recording) a live priority only lowers best known costs. */
  lemma LowerCosts<S>(pr: map<S, int>, dist: map<S, int>, w: S, c: int)
    requires w !in dist && (w in pr ==> c < pr[w])
    ensures forall x | x in pr :: CostOf(pr[w := c], dist, x) <= CostOf(pr, dist, x)
    ensures CostOf(pr[w := c], dist, w) == c
  {
  }

  /** The backpointer written for the target of edge `e` out of `cur` is valid, and the others stay valid. */
  lemma LowerKeepsBacks<S, A>(p: Problem<S, A>, pr: map<S, int>, dist: map<S, int>, rank: map<S, nat>,
                              bp: map<S, (A, S)>, via: map<S, Edge<S, A>>, n: nat, cur: S, e: Edge<S, A>)
    requires SettledInv(pr, dist, rank, n) && StartInv(p, pr, dist, n) && BackInv(p, pr, dist, rank, bp, via)
    requires cur in dist && e in p.succAndCost(cur)
    requires e.newState !in pr || (pr[e.newState] != DONE && dist[cur] + e.cost < pr[e.newState])
    ensures BackInv(p, pr[e.newState := dist[cur] + e.cost], dist, rank,
                    bp[e.newState := (e.action, cur)], via[e.newState := e])
  {
    var w, c := e.newState, dist[cur] + e.cost;
    var pr', bp', via' := pr[w := c], bp[w := (e.action, cur)], via[w := e];
    assert w !in dist;
    LowerCosts(pr, dist, w, c);
    forall x | x in pr' && x != p.startState
      ensures BackOk(p, pr', dist, rank, bp', via', x)
    {
      if x != w {
        assert BackOk(p, pr, dist, rank, bp, via, x);
      }
    }
  }

  /** Lowering the target of edge `i` of `cur` keeps every relaxed edge relaxed and relaxes edge `i`. */
  lemma LowerKeepsRelaxed<S, A>(p: Problem<S, A>, pr: map<S, int>, dist: map<S, int>, cur: S, i: nat)
    requires cur in dist && RelaxedExcept(p, pr, dist, cur)
    requires i < |p.succAndCost(cur)| && Relaxed(pr, dist, dist[cur], p.succAndCost(cur)[..i])
    requires var e := p.succAndCost(cur)[i];
      e.newState !in dist && (e.newState in pr ==> dist[cur] + e.cost < pr[e.newState])
    ensures var e := p.succAndCost(cur)[i];
      var pr' := pr[e.newState := dist[cur] + e.cost];
      RelaxedExcept(p, pr', dist, cur) && Relaxed(pr', dist, dist[cur], p.succAndCost(cur)[..i + 1])
  {
    var e := p.succAndCost(cur)[i];
    var w, c := e.newState, dist[cur] + e.cost;
    var pr' := pr[w := c];
    LowerCosts(pr, dist, w, c);
    forall u | u in dist && u != cur
      ensures Relaxed(pr', dist, dist[u], p.succAndCost(u))
    {
      assert Relaxed(pr, dist, dist[u], p.succAndCost(u));
    }
    assert p.succAndCost(cur)[..i + 1] == p.succAndCost(cur)[..i] + [e];
  }

  /**
   * Relaxing edge `i` of `cur` when update left the frontier unchanged: the
   * target already has a cost no higher than the one through `cur`.
   */
  lemma RelaxKept<S(!new), A(!new)>(p: Problem<S, A>, U: set<S>, pr: map<S, int>, dist: map<S, int>,
                                    rank: map<S, nat>, bp: map<S, (A, S)>,
                                    via: map<S, Edge<S, A>>, n: nat, cur: S, i: nat)
    requires Closed(p, U) && Frame(p, U, pr, dist, rank, bp, via, n)
    requires cur in dist && forall u | u in dist :: dist[u] <= dist[cur]
    requires i < |p.succAndCost(cur)| && Relaxed(pr, dist, dist[cur], p.succAndCost(cur)[..i])
    requires var e := p.succAndCost(cur)[i];
      e.newState in pr && pr[e.newState] <= dist[cur] + e.cost
    ensures Relaxed(pr, dist, dist[cur], p.succAndCost(cur)[..i + 1])
  {
    var e := p.succAndCost(cur)[i];
    assert cur in U && e in p.succAndCost(cur);
    assert e.cost >= 0;
    assert p.succAndCost(cur)[..i + 1] == p.succAndCost(cur)[..i] + [e];
  }

  /** The recorded priority of `t` differs between `pr0` and `pr`. */
  ghost predicate Changed<S>(pr0: map<S, int>, pr: map<S, int>, t: S)
  {
    t in pr && !(t in pr0 && pr[t] == pr0[t])
  }

  /**
   * What offering the first `i` edges of `cur` to the frontier did, from the
   * priorities `pr0`, heap `heap0` and backpointers `bp0` it started with,
   * `via` naming the edge behind each backpointer: see OfferedPriorities,
   * OfferedBacks and OfferedHeap.
   */
  ghost predicate Offered<S(!new), A>(edges: seq<Edge<S, A>>, i: nat, cur: S, pastCost: int,
                                      pr0: map<S, int>, heap0: multiset<(int, S)>, bp0: map<S, (A, S)>,
                                      pr: map<S, int>, heap: multiset<(int, S)>, bp: map<S, (A, S)>,
                                      via: map<S, Edge<S, A>>)
    requires i <= |edges|
  {
    OfferedPriorities(edges, i, pastCost, pr0, pr) &&
    OfferedBacks(edges, cur, pastCost, pr0, bp0, pr, bp, via) &&
    OfferedHeap(pr0, heap0, pr, heap)
  }

  /**
   * Every offered successor has a recorded priority at most `pastCost` plus
   * the edge cost, and no recorded priority went up.
   */
  ghost predicate OfferedPriorities<S, A>(edges: seq<Edge<S, A>>, i: nat, pastCost: int,
                                          pr0: map<S, int>, pr: map<S, int>)
    requires i <= |edges|
  {
    (forall j | 0 <= j < i :: edges[j].newState in pr && pr[edges[j].newState] <= pastCost + edges[j].cost) &&
    (forall t | t in pr0 :: t in pr && pr[t] <= pr0[t])
  }

  /**
   * A state whose recorded priority changed got it from an edge `via[t]` of
   * `cur`, as `pastCost` plus that edge's cost, together with a backpointer
   * to `cur` under that edge's action; every other state keeps its
   * backpointer, or its lack of one.
   */
  ghost predicate OfferedBacks<S(!new), A>(edges: seq<Edge<S, A>>, cur: S, pastCost: int,
                                           pr0: map<S, int>, bp0: map<S, (A, S)>,
                                           pr: map<S, int>, bp: map<S, (A, S)>, via: map<S, Edge<S, A>>)
  {
    (forall t | Changed(pr0, pr, t) ::
       t in bp && t in via && via[t] in edges && via[t].newState == t &&
       pr[t] == pastCost + via[t].cost && bp[t] == (via[t].action, cur)) &&
    (forall t | t in bp0 && !Changed(pr0, pr, t) :: t in bp && bp[t] == bp0[t]) &&
    (forall t | t in bp && !Changed(pr0, pr, t) :: t in bp0)
  }

  /**
   * The heap only gained entries, each for a state whose priority changed
   * and at no less than that state's priority now.
   */
  ghost predicate OfferedHeap<S>(pr0: map<S, int>, heap0: multiset<(int, S)>, pr: map<S, int>,
                                 heap: multiset<(int, S)>)
  {
    heap0 <= heap &&
    forall x | x in heap - heap0 :: Changed(pr0, pr, x.1) && pr[x.1] <= x.0
  }

  /**
   * One turn of the expansion loop, as far as the frontier and the
   * backpointers go: offering edge `i` through update, and writing its
   * backpointer when update returns true, extends `Offered` by that edge.
   */
  lemma Offer<S(!new), A>(edges: seq<Edge<S, A>>, i: nat, cur: S, pastCost: int,
                          pr0: map<S, int>, heap0: multiset<(int, S)>, bp0: map<S, (A, S)>,
                          pr: map<S, int>, heap: multiset<(int, S)>, bp: map<S, (A, S)>, via: map<S, Edge<S, A>>,
                          updated: bool, pr': map<S, int>, heap': multiset<(int, S)>, bp': map<S, (A, S)>,
                          via': map<S, Edge<S, A>>)
    requires i < |edges| && Offered(edges, i, cur, pastCost, pr0, heap0, bp0, pr, heap, bp, via)
    requires Updated(pr, heap, edges[i].newState, pastCost + edges[i].cost, pr', heap', updated)
    requires updated ==> bp' == bp[edges[i].newState := (edges[i].action, cur)] &&
                         via' == via[edges[i].newState := edges[i]]
    requires !updated ==> bp' == bp && via' == via
    ensures Offered(edges, i + 1, cur, pastCost, pr0, heap0, bp0, pr', heap', bp', via')
  {
    var e := edges[i];
    if updated {
      OfferLowers(edges, i, pastCost, pr0, pr);
      OfferBacks(edges, i, cur, pastCost, pr0, bp0, pr, bp, via);
      OfferHeap(pr0, heap0, pr, heap, e.newState, pastCost + e.cost);
    } else {
      assert e.newState in pr && pr[e.newState] <= pastCost + e.cost;
      OfferKept(edges, i, pastCost, pr0, pr);
    }
  }

  /** Offering edge `i` when its successor already has a priority no higher keeps OfferedPriorities. */
  lemma OfferKept<S, A>(edges: seq<Edge<S, A>>, i: nat, pastCost: int, pr0: map<S, int>, pr: map<S, int>)
    requires i < |edges| && OfferedPriorities(edges, i, pastCost, pr0, pr)
    requires edges[i].newState in pr && pr[edges[i].newState] <= pastCost + edges[i].cost
    ensures OfferedPriorities(edges, i + 1, pastCost, pr0, pr)
  {
  }

  /** Lowering (or first recording) the priority of the successor of edge `i` keeps OfferedPriorities. */
  lemma OfferLowers<S, A>(edges: seq<Edge<S, A>>, i: nat, pastCost: int, pr0: map<S, int>, pr: map<S, int>)
    requires i < |edges| && OfferedPriorities(edges, i, pastCost, pr0, pr)
    requires edges[i].newState !in pr || pastCost + edges[i].cost < pr[edges[i].newState]
    ensures OfferedPriorities(edges, i + 1, pastCost, pr0, pr[edges[i].newState := pastCost + edges[i].cost])
  {
  }

  /** Offering edge `i` when update lowered (or first recorded) its successor's priority keeps OfferedBacks. */
  lemma OfferBacks<S(!new), A>(edges: seq<Edge<S, A>>, i: nat, cur: S, pastCost: int,
                               pr0: map<S, int>, bp0: map<S, (A, S)>, pr: map<S, int>, bp: map<S, (A, S)>,
                               via: map<S, Edge<S, A>>)
    requires i < |edges| && OfferedPriorities(edges, i, pastCost, pr0, pr)
    requires OfferedBacks(edges, cur, pastCost, pr0, bp0, pr, bp, via)
    requires edges[i].newState !in pr || pastCost + edges[i].cost < pr[edges[i].newState]
    ensures OfferedBacks(edges, cur, pastCost, pr0, bp0,
                         pr[edges[i].newState := pastCost + edges[i].cost],
                         bp[edges[i].newState := (edges[i].action, cur)], via[edges[i].newState := edges[i]])
  {
    var e := edges[i];
    OfferChanges(edges, cur, pastCost, pr0, pr, bp, via, e,
                 pr[e.newState := pastCost + e.cost], bp[e.newState := (e.action, cur)], via[e.newState := e]);
    OfferKeeps(pr0, bp0, pr, bp, e.newState, pastCost + e.cost, (e.action, cur));
  }

  /**
   * Recording `e` as the edge behind the new priority and backpointer of its
   * successor: every state whose priority differs from the starting one
   * still has them from its recorded edge.
   */
  lemma OfferChanges<S(!new), A>(edges: seq<Edge<S, A>>, cur: S, pastCost: int, pr0: map<S, int>,
                                 pr: map<S, int>, bp: map<S, (A, S)>, via: map<S, Edge<S, A>>, e: Edge<S, A>,
                                 pr': map<S, int>, bp': map<S, (A, S)>, via': map<S, Edge<S, A>>)
    requires e in edges
    requires forall t | Changed(pr0, pr, t) ::
               t in bp && t in via && via[t] in edges && via[t].newState == t &&
               pr[t] == pastCost + via[t].cost && bp[t] == (via[t].action, cur)
    requires pr' == pr[e.newState := pastCost + e.cost] && bp' == bp[e.newState := (e.action, cur)] &&
             via' == via[e.newState := e]
    ensures forall t | Changed(pr0, pr', t) ::
              t in bp' && t in via' && via'[t] in edges && via'[t].newState == t &&
              pr'[t] == pastCost + via'[t].cost && bp'[t] == (via'[t].action, cur)
  {
    forall t | Changed(pr0, pr', t) && t != e.newState
      ensures Changed(pr0, pr, t)
    {
    }
  }


  /**
   * Lowering the priority of `w` and writing its backpointer leaves every
   * state whose priority is still the starting one with its starting
   * backpointer, or its lack of one.
   */
  lemma OfferKeeps<S(!new), A>(pr0: map<S, int>, bp0: map<S, (A, S)>, pr: map<S, int>, bp: map<S, (A, S)>,
                               w: S, c: int, b: (A, S))
    requires forall t | t in bp0 && !Changed(pr0, pr, t) :: t in bp && bp[t] == bp0[t]
    requires forall t | t in bp && !Changed(pr0, pr, t) :: t in bp0
    requires forall t | t in pr0 :: t in pr && pr[t] <= pr0[t]
    requires w !in pr || c < pr[w]
    ensures forall t | t in bp0 && !Changed(pr0, pr[w := c], t) :: t in bp[w := b] && bp[w := b][t] == bp0[t]
    ensures forall t | t in bp[w := b] && !Changed(pr0, pr[w := c], t) :: t in bp0
  {
    assert Changed(pr0, pr[w := c], w);
    forall t | t in bp0 && !Changed(pr0, pr[w := c], t)
      ensures t in bp[w := b] && bp[w := b][t] == bp0[t]
    {
      assert t != w && !Changed(pr0, pr, t);
    }
    forall t | t in bp[w := b] && !Changed(pr0, pr[w := c], t)
      ensures t in bp0
    {
      assert t != w && !Changed(pr0, pr, t);
    }
  }

  /** Pushing the entry (c, w) when update lowered (or first recorded) the priority of `w` to `c` keeps OfferedHeap. */
  lemma OfferHeap<S>(pr0: map<S, int>, heap0: multiset<(int, S)>, pr: map<S, int>, heap: multiset<(int, S)>,
                     w: S, c: int)
    requires OfferedHeap(pr0, heap0, pr, heap)
    requires forall t | t in pr0 :: t in pr && pr[t] <= pr0[t]
    requires w !in pr || c < pr[w]
    ensures OfferedHeap(pr0, heap0, pr[w := c], heap + multiset{(c, w)})
  {
    var pr' := pr[w := c];
    assert Changed(pr0, pr', w);
    forall x | x in heap + multiset{(c, w)} - heap0
      ensures Changed(pr0, pr', x.1) && pr'[x.1] <= x.0
    {
      if x != (c, w) {
        assert x in heap - heap0;
        assert Changed(pr0, pr, x.1) && pr[x.1] <= x.0;
      }
    }
  }


  /**
   * One step of the backpointer walk: following the backpointer of a removed
   * state other than the start prepends the edge it stands for to the walk
   * rebuilt so far, and moves to a state removed earlier.
   */
  lemma StepBack<S(!new), A(!new)>(p: Problem<S, A>, U: set<S>, pr: map<S, int>, dist: map<S, int>,
                                   rank: map<S, nat>, bp: map<S, (A, S)>,
                                   via: map<S, Edge<S, A>>, n: nat, st: S, es: seq<Edge<S, A>>)
    requires Frame(p, U, pr, dist, rank, bp, via, n)
    requires st in dist && st != p.startState && IsWalk(p, st, es)
    ensures st in bp && st in via && st in rank && bp[st].1 in dist && bp[st].1 in rank
    ensures rank[bp[st].1] < rank[st]
    ensures IsWalk(p, bp[st].1, [via[st]] + es)
    ensures End(bp[st].1, [via[st]] + es) == End(st, es)
    ensures Cost([via[st]] + es) == dist[st] - dist[bp[st].1] + Cost(es)
    ensures Actions([via[st]] + es) == [bp[st].0] + Actions(es)
  {
    assert BackOk(p, pr, dist, rank, bp, via, st);
    WalkCons(p, bp[st].1, via[st], es);
  }

  /**
   * Every removed state is reachable from the start state, so the number of
   * removed states is bounded by the reachable ones.
   */
  lemma SettledCount<S(!new), A(!new)>(p: Problem<S, A>, U: set<S>, pr: map<S, int>, dist: map<S, int>,
                                       rank: map<S, nat>, bp: map<S, (A, S)>,
                                       via: map<S, Edge<S, A>>, n: nat)
    requires Frame(p, U, pr, dist, rank, bp, via, n)
    ensures dist.Keys <= ReachableStates(p, U) <= U
    ensures n <= |ReachableStates(p, U)| <= |U|
  {
    CardMono(dist.Keys, ReachableStates(p, U));
    CardMono(ReachableStates(p, U), U);
  }

  /** A subset has no more elements than its superset. */
  lemma {:induction false} CardMono<X>(a: set<X>, b: set<X>)
    requires a <= b
    ensures |a| <= |b|
    decreases |a|
  {
    if a != {} {
      var x :| x in a;
      CardMono(a - {x}, b - {x});
    }
  }

  /**
   * The path reconstruction of solve: follows the backpointers from the
   * removed state `goal` back to the start state, collecting the actions in
   * end-to-start order, and reverses them.
   */
  method FollowBackpointers<S(==, !new), A(!new)>(problem: Problem<S, A>, backpointers: map<S, (A, S)>, goal: S,
                                                  ghost U: set<S>, ghost pr: map<S, int>, ghost dist: map<S, int>,
                                                  ghost rank: map<S, nat>, ghost via: map<S, Edge<S, A>>,
                                                  ghost n: nat)
      returns (path: seq<A>)
    requires Frame(problem, U, pr, dist, rank, backpointers, via, n)
    requires goal in dist
    ensures exists es :: IsWalk(problem, problem.startState, es) && End(problem.startState, es) == goal &&
                         Actions(es) == path && Cost(es) == dist[goal]
  {
    var acts: seq<A> := [];
    var state := goal;
    ghost var es: seq<Edge<S, A>> := [];
    while state != problem.startState
      invariant state in dist && state in rank
      invariant IsWalk(problem, state, es) && End(state, es) == goal
      invariant Cost(es) == dist[goal] - dist[state]
      invariant Actions(es) == Reversed(acts)
      decreases rank[state]
    {
      StepBack(problem, U, pr, dist, rank, backpointers, via, n, state, es);
      var (action, prevState) := backpointers[state];
      ReversedSnoc(acts, action);
      es := [via[state]] + es;
      acts := acts + [action];
      state := prevState;
    }
    assert StartInv(problem, pr, dist, n);
    path := ReverseList(acts);
  }

  /**
   * The expansion loop of solve: offers each successor of the removed state
   * `state` to the frontier at `pastCost` plus the edge cost, and records a
   * backpointer exactly when update reports that it lowered the successor's
   * priority. Afterwards every edge of `state` is relaxed, and `Offered`
   * says which priorities, heap entries and backpointers changed.
   */
  method Expand<S(==, !new), A(!new)>(problem: Problem<S, A>, frontier: PriorityQueue<S>, state: S, pastCost: int,
                                      backpointers: map<S, (A, S)>, ghost U: set<S>, ghost dist: map<S, int>,
                                      ghost rank: map<S, nat>, ghost via: map<S, Edge<S, A>>, ghost n: nat)
      returns (backpointers': map<S, (A, S)>, ghost via': map<S, Edge<S, A>>)
    requires Closed(problem, U) && frontier.Valid()
    requires Expanding(problem, U, frontier.priorities, dist, rank, backpointers, via, n,
                       state, pastCost, problem.succAndCost(state), 0)
    modifies frontier
    ensures frontier.Valid()
    ensures Frame(problem, U, frontier.priorities, dist, rank, backpointers', via', n)
    ensures AllRelaxed(problem, frontier.priorities, dist)
    ensures Offered(problem.succAndCost(state), |problem.succAndCost(state)|, state, pastCost,
                    old(frontier.priorities), old(frontier.heap), backpointers,
                    frontier.priorities, frontier.heap, backpointers', via')
  {
    backpointers', via' := backpointers, via;
    ghost var edges := problem.succAndCost(state);
    ghost var pr0, heap0 := frontier.priorities, frontier.heap;
    for i := 0 to |problem.succAndCost(state)|
      invariant frontier.Valid()
      invariant ExpandLoop(problem, U, frontier.priorities, frontier.heap, dist, rank, backpointers', via', n,
                           state, pastCost, edges, i, pr0, heap0, backpointers)
    {
      backpointers', via' := OfferEdge(problem, frontier, state, pastCost, i, backpointers', U, dist, rank, via', n,
                                       edges, pr0, heap0, backpointers);
    }
    ExpandDone(problem, U, frontier.priorities, frontier.heap, dist, rank, backpointers', via', n,
               state, pastCost, edges, pr0, heap0, backpointers);
  }

  /**
   * One turn of the expansion loop: offers edge `i` of `state` to the
   * frontier and writes its backpointer when update returns true.
   */
  method OfferEdge<S(==, !new), A(!new)>(problem: Problem<S, A>, frontier: PriorityQueue<S>, state: S,
                                         pastCost: int, i: nat, backpointers: map<S, (A, S)>,
                                         ghost U: set<S>, ghost dist: map<S, int>, ghost rank: map<S, nat>,
                                         ghost via: map<S, Edge<S, A>>, ghost n: nat, ghost edges: seq<Edge<S, A>>,
                                         ghost pr0: map<S, int>, ghost heap0: multiset<(int, S)>,
                                         ghost bp0: map<S, (A, S)>)
      returns (backpointers': map<S, (A, S)>, ghost via': map<S, Edge<S, A>>)
    requires frontier.Valid() && i < |edges|
    requires ExpandLoop(problem, U, frontier.priorities, frontier.heap, dist, rank, backpointers, via, n,
                        state, pastCost, edges, i, pr0, heap0, bp0)
    modifies frontier
    ensures frontier.Valid()
    ensures ExpandLoop(problem, U, frontier.priorities, frontier.heap, dist, rank, backpointers', via', n,
                       state, pastCost, edges, i + 1, pr0, heap0, bp0)
  {
    var e := problem.succAndCost(state)[i];
    ghost var pr, heap := frontier.priorities, frontier.heap;
    var updated := frontier.Update(e.newState, pastCost + e.cost);
    backpointers', via' := backpointers, via;
    if updated {
      backpointers' := backpointers'[e.newState := (e.action, state)];
      via' := via'[e.newState := e];
    }
    ExpandStep(problem, U, pr, heap, dist, rank,
               backpointers, via, n, state, pastCost, edges, i, pr0, heap0, bp0,
               e, updated, frontier.priorities, frontier.heap, backpointers', via');
  }

  /** The invariant of the expansion loop, after `i` edges of `cur`. */
  ghost predicate ExpandLoop<S(!new), A(!new)>(p: Problem<S, A>, U: set<S>, pr: map<S, int>, heap: multiset<(int, S)>,
                                               dist: map<S, int>, rank: map<S, nat>, bp: map<S, (A, S)>,
                                               via: map<S, Edge<S, A>>, n: nat, cur: S, d: int,
                                               edges: seq<Edge<S, A>>, i: nat,
                                               pr0: map<S, int>, heap0: multiset<(int, S)>, bp0: map<S, (A, S)>)
  {
    Closed(p, U) && Expanding(p, U, pr, dist, rank, bp, via, n, cur, d, edges, i) &&
    Offered(edges, i, cur, d, pr0, heap0, bp0, pr, heap, bp, via)
  }

  /** The expansion loop's invariant after the last edge gives Expand's postcondition. */
  lemma ExpandDone<S(!new), A(!new)>(p: Problem<S, A>, U: set<S>, pr: map<S, int>, heap: multiset<(int, S)>,
                                     dist: map<S, int>, rank: map<S, nat>, bp: map<S, (A, S)>,
                                     via: map<S, Edge<S, A>>, n: nat, cur: S, d: int, edges: seq<Edge<S, A>>,
                                     pr0: map<S, int>, heap0: multiset<(int, S)>, bp0: map<S, (A, S)>)
    requires ExpandLoop(p, U, pr, heap, dist, rank, bp, via, n, cur, d, edges, |edges|, pr0, heap0, bp0)
    ensures Frame(p, U, pr, dist, rank, bp, via, n) && AllRelaxed(p, pr, dist)
    ensures edges == p.succAndCost(cur) && Offered(edges, |edges|, cur, d, pr0, heap0, bp0, pr, heap, bp, via)
  {
    ExpandedAll(p, U, pr, dist, rank, bp, via, n, cur, d, edges);
  }

  /** One turn of the expansion loop: its invariant moves on by one edge. */
  lemma ExpandStep<S(!new), A(!new)>(p: Problem<S, A>, U: set<S>, pr: map<S, int>, heap: multiset<(int, S)>,
                                     dist: map<S, int>, rank: map<S, nat>, bp: map<S, (A, S)>,
                                     via: map<S, Edge<S, A>>, n: nat, cur: S, d: int, edges: seq<Edge<S, A>>,
                                     i: nat, pr0: map<S, int>, heap0: multiset<(int, S)>, bp0: map<S, (A, S)>,
                                     e: Edge<S, A>, updated: bool, pr': map<S, int>, heap': multiset<(int, S)>,
                                     bp': map<S, (A, S)>, via': map<S, Edge<S, A>>)
    requires ExpandLoop(p, U, pr, heap, dist, rank, bp, via, n, cur, d, edges, i, pr0, heap0, bp0)
    requires i < |edges| && e == edges[i]
    requires Updated(pr, heap, e.newState, d + e.cost, pr', heap', updated)
    requires updated ==> bp' == bp[e.newState := (e.action, cur)] && via' == via[e.newState := e]
    requires !updated ==> bp' == bp && via' == via
    ensures ExpandLoop(p, U, pr', heap', dist, rank, bp', via', n, cur, d, edges, i + 1, pr0, heap0, bp0)
  {
    Relax(p, U, pr, dist, rank, bp, via, n, cur, d, edges, i, updated, heap, pr', heap', bp', via');
    Offer(edges, i, cur, d, pr0, heap0, bp0, pr, heap, bp, via, updated, pr', heap', bp', via');
  }

  /**
   * The body of solve: the search loop around removeMin, with the solve
   * fields as out-parameters. Returns the actions and total cost of the end
   * state it extracts first (both None when the frontier empties) and the
   * number of states it removed from the frontier.
   */
  method RunSearch<S(==, !new), A(!new)>(problem: Problem<S, A>, ghost U: set<S>)
      returns (actions: Option<seq<A>>, totalCost: Option<int>, numStatesExplored: nat)
    requires Closed(problem, U)
    ensures SolveOutcome(problem, U, actions, totalCost, numStatesExplored)
  {
    actions, totalCost, numStatesExplored := None, None, 0;

    var frontier := new PriorityQueue<S>();
    var backpointers: map<S, (A, S)> := map[];
    ghost var dist: map<S, int> := map[];
    ghost var rank: map<S, nat> := map[];
    ghost var via: map<S, Edge<S, A>> := map[];

    var startState := problem.startState;
    var _ := frontier.Update(startState, 0);
    ghost var noEdges: seq<Edge<S, A>> := [];
    assert IsWalk(problem, startState, noEdges) && End(startState, noEdges) == startState;

    while true
      invariant frontier.Valid()
      invariant actions == None && totalCost == None
      invariant Searching(problem, U, frontier.priorities, dist, rank, backpointers, via, numStatesExplored)
      decreases |U| - numStatesExplored
    {
      ghost var pr, h := frontier.priorities, frontier.heap;
      var r := frontier.RemoveMin();
      RemovedNone(pr, h, frontier.priorities, frontier.heap, r);
      if r.None? {
        NoSolution(problem, U, frontier.priorities, dist, rank, backpointers, via, numStatesExplored);
        return;
      }
      var state, pastCost := r.value.0, r.value.1;
      Extract(problem, U, pr, h, frontier.priorities, frontier.heap, dist, rank, backpointers, via,
              numStatesExplored, state, pastCost);
      ghost var dist0 := dist;
      dist, rank := dist[state := pastCost], rank[state := numStatesExplored];
      numStatesExplored := numStatesExplored + 1;

      if problem.isEnd(state) {
        var path := FollowBackpointers(problem, backpointers, state, U, frontier.priorities, dist, rank, via,
                                       numStatesExplored);
        Found(problem, U, frontier.priorities, dist, rank, backpointers, via, numStatesExplored,
              state, pastCost, path);
        actions, totalCost := Some(path), Some(pastCost);
        return;
      }

      backpointers, via := Expand(problem, frontier, state, pastCost, backpointers, U, dist, rank, via,
                                  numStatesExplored);
      Continue(problem, U, frontier.priorities, dist0, rank, backpointers, via, numStatesExplored,
               state, pastCost);
    }
  }

  class UniformCostSearch<S(==, !new), A(!new)> {
    /** The cheapest action sequence from the start state to an end state, or None. */
    var actions: Option<seq<A>>
    /** The summed cost of `actions`, or None. */
    var totalCost: Option<int>
    /** How many states the search removed from the frontier. */
    var numStatesExplored: nat

    constructor ()
      ensures actions == None && totalCost == None && numStatesExplored == 0
    {
      actions := None;
      totalCost := None;
      numStatesExplored := 0;
    }

    /**
     * Runs uniform cost search on `problem` and records its outcome in the
     * three fields. `U` is a finite set of states holding the start state and
     * closed under succAndCost with non-negative edge costs: the search only
     * ever meets states in `U`.
     */
    method Solve(problem: Problem<S, A>, ghost U: set<S>)
      requires Closed(problem, U)
      modifies this
      ensures SolveOutcome(problem, U, actions, totalCost, numStatesExplored)
    {
      actions, totalCost, numStatesExplored := RunSearch(problem, U);
    }
  }
}
