/**
 * The search-problem interface (SearchProblem in util.py): a start state and
 * two total functions, the end-state test and the outgoing edges of a state.
 * Walks through the implicit graph it describes, their costs and their actions.
 */
module Search {

  /** One tuple returned by succAndCost: (action, newState, cost). */
  datatype Edge<S, A> = Edge(action: A, newState: S, cost: int)

  /**
   * A search problem: a start state and two total functions of the state, so
   * every call of isEnd or succAndCost with the same state gives the same answer.
   */
  datatype Problem<!S, A> = Problem(
    startState: S,
    isEnd: S -> bool,
    succAndCost: S -> seq<Edge<S, A>>)

  /** `es` is a walk from `s`: each edge is listed by succAndCost of the state the previous one reached. */
  ghost predicate IsWalk<S, A>(p: Problem<S, A>, s: S, es: seq<Edge<S, A>>)
    decreases |es|
  {
    es == [] || (es[0] in p.succAndCost(s) && IsWalk(p, es[0].newState, es[1..]))
  }

  /** The state a walk from `s` along `es` ends in. */
  function End<S, A>(s: S, es: seq<Edge<S, A>>): S
  {
    if es == [] then s else es[|es| - 1].newState
  }

  /** The summed edge costs of a walk. */
  function Cost<S, A>(es: seq<Edge<S, A>>): int
  {
    if es == [] then 0 else es[0].cost + Cost(es[1..])
  }

  /** The actions labelling a walk, in walk order. */
  function Actions<S, A>(es: seq<Edge<S, A>>): (r: seq<A>)
    ensures |r| == |es|
    ensures forall i | 0 <= i < |es| :: r[i] == es[i].action
  {
    if es == [] then [] else [es[0].action] + Actions(es[1..])
  }

  /** An action sequence from the start state to an end state, as its edges. */
  ghost predicate IsSolution<S, A>(p: Problem<S, A>, es: seq<Edge<S, A>>)
  {
    IsWalk(p, p.startState, es) && p.isEnd(End(p.startState, es))
  }

  ghost predicate Reachable<S(!new), A(!new)>(p: Problem<S, A>, t: S)
  {
    exists es :: IsWalk(p, p.startState, es) && End(p.startState, es) == t
  }

  ghost function ReachableStates<S(!new), A(!new)>(p: Problem<S, A>, U: set<S>): set<S>
  {
    set t | t in U && Reachable(p, t)
  }

  /**
   * `U` is a finite universe holding the start state and closed under
   * succAndCost, and every edge out of it has a non-negative cost: the
   * conditions under which uniform cost search terminates and is optimal.
   */
  ghost predicate Closed<S, A>(p: Problem<S, A>, U: set<S>)
  {
    p.startState in U &&
    forall s, e | s in U && e in p.succAndCost(s) :: e.newState in U && e.cost >= 0
  }

  /** A walk that starts inside a closed universe stays inside it and costs at least zero. */
  lemma {:induction false} WalkStaysInside<S, A>(p: Problem<S, A>, U: set<S>, s: S, es: seq<Edge<S, A>>)
    requires Closed(p, U) && s in U && IsWalk(p, s, es)
    ensures End(s, es) in U && Cost(es) >= 0
    decreases |es|
  {
    if es != [] {
      WalkStaysInside(p, U, es[0].newState, es[1..]);
      assert End(s, es) == End(es[0].newState, es[1..]);
    }
  }

  /** Extending a walk by an edge out of its last state gives a walk one edge longer. */
  lemma {:induction false} WalkAppend<S, A>(p: Problem<S, A>, s: S, es: seq<Edge<S, A>>, e: Edge<S, A>)
    requires IsWalk(p, s, es) && e in p.succAndCost(End(s, es))
    ensures IsWalk(p, s, es + [e])
    ensures End(s, es + [e]) == e.newState
    ensures Cost(es + [e]) == Cost(es) + e.cost
    ensures Actions(es + [e]) == Actions(es) + [e.action]
    decreases |es|
  {
    if es == [] {
      assert [e][1..] == [];
    } else {
      assert End(s, es) == End(es[0].newState, es[1..]);
      WalkAppend(p, es[0].newState, es[1..], e);
      assert (es + [e])[1..] == es[1..] + [e];
    }
  }

  /** Prepending an edge out of `s` to a walk from that edge's target gives a walk from `s`. */
  lemma WalkCons<S, A>(p: Problem<S, A>, s: S, e: Edge<S, A>, es: seq<Edge<S, A>>)
    requires e in p.succAndCost(s) && IsWalk(p, e.newState, es)
    ensures IsWalk(p, s, [e] + es)
    ensures End(s, [e] + es) == End(e.newState, es)
    ensures Cost([e] + es) == e.cost + Cost(es)
    ensures Actions([e] + es) == [e.action] + Actions(es)
  {
    assert ([e] + es)[1..] == es;
  }

  /** A non-empty walk is a shorter walk followed by one edge out of the state that walk reaches. */
  lemma {:induction false} WalkInit<S, A>(p: Problem<S, A>, s: S, es: seq<Edge<S, A>>)
    requires IsWalk(p, s, es) && es != []
    ensures IsWalk(p, s, es[..|es| - 1])
    ensures es[|es| - 1] in p.succAndCost(End(s, es[..|es| - 1]))
    ensures Cost(es) == Cost(es[..|es| - 1]) + es[|es| - 1].cost
    decreases |es|
  {
    var init := es[..|es| - 1];
    if |es| == 1 {
      assert init == [];
    } else {
      var tail := es[1..];
      WalkInit(p, es[0].newState, tail);
      assert tail[..|tail| - 1] == init[1..];
      assert End(s, init) == End(es[0].newState, init[1..]);
    }
  }
}
