/**
 * The decrease-key priority queue with lazy deletion that uniform cost search
 * uses as its frontier (PriorityQueue in util.py). A state's recorded priority
 * only ever goes down until the state is removed, after which it is pinned to
 * the DONE marker; heap entries made stale by a later, lower priority stay in
 * the heap and are skipped when they surface.
 */
module PriorityQueues {
  import opened Wrappers

  /** The marker recorded for a state once removeMin has returned it. */
  const DONE: int := -100000

  /** `s` is live with recorded priority `p`, and no live state has a lower one. */
  ghost predicate IsMinLive<T>(priorities: map<T, int>, s: T, p: int)
  {
    s in priorities && priorities[s] != DONE && p == priorities[s] &&
    forall t | t in priorities && priorities[t] != DONE :: p <= priorities[t]
  }

  /** Every state with a recorded priority has been removed. */
  ghost predicate AllDone<T>(priorities: map<T, int>)
  {
    forall s | s in priorities :: priorities[s] == DONE
  }

  /**
   * The queue invariant: every heap entry belongs to a state with a recorded
   * priority, and a live state's smallest heap entry carries exactly its
   * recorded priority (its other entries are stale and larger).
   */
  ghost predicate QueueInv<T>(priorities: map<T, int>, heap: multiset<(int, T)>)
  {
    (forall e | e in heap :: e.1 in priorities) &&
    (forall s {:trigger heap[(priorities[s], s)]} | s in priorities && priorities[s] != DONE :: (priorities[s], s) in heap) &&
    (forall e | e in heap && e.1 in priorities && priorities[e.1] != DONE :: priorities[e.1] <= e.0)
  }

  /** A non-empty heap has an entry of minimal priority. */
  lemma {:induction false} MinEntryExists<T>(heap: multiset<(int, T)>)
    requires |heap| > 0
    ensures exists e :: e in heap && forall f | f in heap :: e.0 <= f.0
    decreases |heap|
  {
    var x :| x in heap;
    var rest := heap - multiset{x};
    assert heap == rest + multiset{x} && |rest| == |heap| - 1;
    if |rest| == 0 {
      BelowAll(heap, rest, x, x);
    } else {
      MinEntryExists(rest);
      var m :| m in rest && forall f | f in rest :: m.0 <= f.0;
      var w := if x.0 <= m.0 then x else m;
      BelowAll(heap, rest, x, w);
      assert w in heap;
    }
  }

  /** A priority no higher than `x`'s and than every entry of `rest` is no higher than any entry of rest + {x}. */
  lemma BelowAll<T>(heap: multiset<(int, T)>, rest: multiset<(int, T)>, x: (int, T), w: (int, T))
    requires heap == rest + multiset{x} && w.0 <= x.0
    requires forall f | f in rest :: w.0 <= f.0
    ensures forall f | f in heap :: w.0 <= f.0
  {
    forall f | f in heap
      ensures w.0 <= f.0
    {
      assert f == x || f in rest;
    }
  }

  /**
   * Popping a minimal entry whose state is live: the entry carries that
   * state's recorded priority, the lowest recorded priority of all, and
   * marking the state DONE keeps the invariant.
   */
  lemma TakeLive<T>(priorities: map<T, int>, heap: multiset<(int, T)>, e: (int, T))
    requires QueueInv(priorities, heap)
    requires e in heap && (forall f | f in heap :: e.0 <= f.0)
    requires e.1 in priorities && priorities[e.1] != DONE
    ensures IsMinLive(priorities, e.1, e.0)
    ensures QueueInv(priorities[e.1 := DONE], heap - multiset{e})
  {
    assert (priorities[e.1], e.1) in heap;
    forall t | t in priorities && priorities[t] != DONE
      ensures e.0 <= priorities[t]
    {
      assert (priorities[t], t) in heap;
    }
    var pr' := priorities[e.1 := DONE];
    forall t | t in pr' && pr'[t] != DONE
      ensures (pr'[t], t) in heap - multiset{e}
    {
      assert (priorities[t], t) in heap && (priorities[t], t) != e;
    }
  }

  /**
   * What update promises, relating the queue before the call (`pr0`, `heap0`)
   * to the queue after it (`pr`, `heap`): it reports `updated` exactly when
   * `state` had no recorded priority or `p` is strictly lower than it; then
   * `p` is recorded and one entry (p, state) is pushed, and otherwise nothing
   * changes.
   */
  ghost predicate Updated<T>(pr0: map<T, int>, heap0: multiset<(int, T)>, state: T, p: int,
                             pr: map<T, int>, heap: multiset<(int, T)>, updated: bool)
  {
    (updated <==> (state !in pr0 || p < pr0[state])) &&
    (updated ==> pr == pr0[state := p] && heap == heap0 + multiset{(p, state)}) &&
    (!updated ==> pr == pr0 && heap == heap0)
  }

  /**
   * What removeMin promises, relating the queue before the call (`pr0`,
   * `heap0`) to the queue after it (`pr`, `heap`) and to its result `r`.
   * None: every heap entry belonged to a DONE state, the heap is now empty and
   * no recorded priority changed. Some((s, p)): `s` was live with recorded
   * priority `p`, no live state had a lower one, `s` alone is now DONE, the
   * entry (p, s) and some DONE entries no higher than `p` left the heap, and
   * every entry still in it is at least `p`.
   */
  ghost predicate Removed<T>(pr0: map<T, int>, heap0: multiset<(int, T)>,
                             pr: map<T, int>, heap: multiset<(int, T)>, r: Option<(T, int)>)
  {
    match r
    case None =>
      (forall e | e in heap0 :: e.1 in pr0 && pr0[e.1] == DONE) &&
      heap == multiset{} && pr == pr0
    case Some((s, p)) =>
      IsMinLive(pr0, s, p) &&
      pr == pr0[s := DONE] &&
      heap + multiset{(p, s)} <= heap0 &&
      (forall e | e in heap :: p <= e.0) &&
      (forall e | e in heap0 - heap - multiset{(p, s)} :: e.1 in pr0 && pr0[e.1] == DONE && e.0 <= p)
  }

  /**
   * The invariant of removeMin's loop: from the queue's heap at entry,
   * `heap0`, the entries in `popped` have been popped and skipped, all of DONE
   * states and none above `lo`, which bounds what is left from below.
   */
  ghost predicate Popping<T>(priorities: map<T, int>, heap0: multiset<(int, T)>, heap: multiset<(int, T)>,
                             popped: multiset<(int, T)>, lo: int)
  {
    QueueInv(priorities, heap) && heap + popped == heap0 &&
    (forall x | x in popped :: x.1 in priorities && priorities[x.1] == DONE && x.0 <= lo) &&
    (popped != multiset{} ==> forall f | f in heap :: lo <= f.0)
  }

  /** Skipping a minimal entry of a DONE state keeps the loop invariant. */
  lemma DropStale<T>(priorities: map<T, int>, heap0: multiset<(int, T)>, heap: multiset<(int, T)>,
                     popped: multiset<(int, T)>, lo: int, e: (int, T))
    requires Popping(priorities, heap0, heap, popped, lo)
    requires e in heap && (forall f | f in heap :: e.0 <= f.0)
    requires priorities[e.1] == DONE
    ensures Popping(priorities, heap0, heap - multiset{e}, popped + multiset{e}, e.0)
  {
    assert heap - multiset{e} + (popped + multiset{e}) == heap + popped;
  }

  /**
   * Popping a live minimal entry `e` ends removeMin with Some: marking its
   * state DONE keeps the queue invariant and gives what removeMin promises.
   */
  lemma LiveExit<T>(priorities: map<T, int>, heap0: multiset<(int, T)>, heap: multiset<(int, T)>,
                    popped: multiset<(int, T)>, lo: int, e: (int, T))
    requires Popping(priorities, heap0, heap, popped, lo)
    requires e in heap && (forall f | f in heap :: e.0 <= f.0)
    requires priorities[e.1] != DONE
    ensures QueueInv(priorities[e.1 := DONE], heap - multiset{e})
    ensures Removed(priorities, heap0, priorities[e.1 := DONE], heap - multiset{e}, Some((e.1, e.0)))
  {
    TakeLive(priorities, heap, e);
    assert heap - multiset{e} + multiset{(e.0, e.1)} == heap;
    assert heap0 - (heap - multiset{e}) - multiset{(e.0, e.1)} == popped;
  }

  /**
   * Running out of heap ends removeMin with None: every entry popped along
   * the way was DONE.
   */
  lemma Exhausted<T>(priorities: map<T, int>, heap0: multiset<(int, T)>, heap: multiset<(int, T)>,
                     popped: multiset<(int, T)>, lo: int)
    requires Popping(priorities, heap0, heap, popped, lo) && |heap| == 0
    ensures Removed(priorities, heap0, priorities, heap, None)
  {
    assert popped == heap0;
  }

  /**
   * A queue satisfying the invariant has a live state exactly when some heap
   * entry belongs to a live state; so removeMin returns None exactly when every
   * heap entry is DONE, and then every recorded priority is DONE.
   */
  lemma RemovedNone<T>(pr0: map<T, int>, heap0: multiset<(int, T)>,
                       pr: map<T, int>, heap: multiset<(int, T)>, r: Option<(T, int)>)
    requires QueueInv(pr0, heap0) && Removed(pr0, heap0, pr, heap, r)
    ensures r.None? <==> forall e | e in heap0 :: pr0[e.1] == DONE
    ensures r.None? ==> AllDone(pr)
  {
    if r.None? {
      forall s | s in pr
        ensures pr[s] == DONE
      {
        assert heap0[(pr0[s], s)] == 0 || pr0[s] == DONE;
      }
    } else {
      var (s, p) := r.value;
      assert (p, s) in heap0;
    }
  }

  /** One call on the queue: update(state, p) returning `updated`, or removeMin returning `r`. */
  datatype Call<T> = UpdateCall(state: T, p: int, updated: bool) | RemoveMinCall(r: Option<(T, int)>)

  /**
   * `calls[k]` took the queue from (`prs[k]`, `heaps[k]`) to
   * (`prs[k + 1]`, `heaps[k + 1]`) as update and removeMin promise, every
   * update with a priority of at least DONE.
   */
  ghost predicate Run<T>(prs: seq<map<T, int>>, heaps: seq<multiset<(int, T)>>, calls: seq<Call<T>>)
  {
    |prs| == |heaps| == |calls| + 1 &&
    forall k | 0 <= k < |calls| ::
      match calls[k]
      case UpdateCall(s, p, u) => p >= DONE && Updated(prs[k], heaps[k], s, p, prs[k + 1], heaps[k + 1], u)
      case RemoveMinCall(r) => Removed(prs[k], heaps[k], prs[k + 1], heaps[k + 1], r)
  }

  /** Once a state is DONE it stays DONE for the rest of a run. */
  lemma {:induction false} StaysDone<T>(prs: seq<map<T, int>>, heaps: seq<multiset<(int, T)>>,
                                        calls: seq<Call<T>>, s: T, i: nat, j: nat)
    requires Run(prs, heaps, calls) && i <= j < |prs|
    requires s in prs[i] && prs[i][s] == DONE
    ensures s in prs[j] && prs[j][s] == DONE
    decreases j - i
  {
    if i < j {
      assert s in prs[i + 1] && prs[i + 1][s] == DONE by {
        match calls[i]
        case UpdateCall(_, _, _) =>
        case RemoveMinCall(_) =>
      }
      StaysDone(prs, heaps, calls, s, i + 1, j);
    }
  }

  /** No state is returned by two removeMin calls of a run. */
  lemma NoStateReturnedTwice<T>(prs: seq<map<T, int>>, heaps: seq<multiset<(int, T)>>, calls: seq<Call<T>>,
                                i: nat, j: nat)
    requires Run(prs, heaps, calls) && i < j < |calls|
    requires calls[i].RemoveMinCall? && calls[i].r.Some?
    requires calls[j].RemoveMinCall? && calls[j].r.Some?
    ensures calls[i].r.value.0 != calls[j].r.value.0
  {
    var s := calls[i].r.value.0;
    assert Removed(prs[i], heaps[i], prs[i + 1], heaps[i + 1], calls[i].r);
    StaysDone(prs, heaps, calls, s, i + 1, j);
    assert Removed(prs[j], heaps[j], prs[j + 1], heaps[j + 1], calls[j].r);
  }

  /**
   * The frontier: `priorities` maps each seen state to its best priority so
   * far, or to DONE once removed; `heap` holds every pushed (priority, state)
   * entry not yet popped, stale ones included.
   */
  class PriorityQueue<T(==)> {
    var heap: multiset<(int, T)>
    var priorities: map<T, int>

    ghost predicate Valid()
      reads this
    {
      QueueInv(priorities, heap)
    }

    constructor ()
      ensures Valid()
      ensures heap == multiset{} && priorities == map[]
    {
      heap := multiset{};
      priorities := map[];
    }

    /**
     * Records `newPriority` for `state` and pushes a heap entry for it when the
     * state has no recorded priority or the new one is strictly lower; returns
     * whether it did. A removed state (recorded as DONE) is never reopened.
     */
    method Update(state: T, newPriority: int) returns (updated: bool)
      requires Valid()
      requires newPriority >= DONE
      modifies this
      ensures Valid()
      ensures Updated(old(priorities), old(heap), state, newPriority, priorities, heap, updated)
      ensures state in old(priorities) && old(priorities)[state] == DONE ==> !updated
    {
      var oldPriority := if state in priorities then Some(priorities[state]) else None;
      if oldPriority == None || newPriority < oldPriority.value {
        priorities := priorities[state := newPriority];
        heap := heap + multiset{(newPriority, state)};
        return true;
      }
      return false;
    }

    /** heapq.heappop: removes and returns an entry of minimal priority (ties are left open). */
    method PopMin() returns (e: (int, T))
      requires |heap| > 0
      modifies this`heap
      ensures e in old(heap) && forall f | f in old(heap) :: e.0 <= f.0
      ensures heap == old(heap) - multiset{e}
    {
      MinEntryExists(heap);
      e :| e in heap && forall f | f in heap :: e.0 <= f.0;
      heap := heap - multiset{e};
    }

    /**
     * Pops heap entries in priority order, skipping those whose state is
     * already DONE, until it finds a live one: returns that state with its
     * priority and marks it DONE. Returns None once the heap runs out.
     */
    method RemoveMin() returns (r: Option<(T, int)>)
      requires Valid()
      modifies this
      ensures Valid()
      ensures Removed(old(priorities), old(heap), priorities, heap, r)
    {
      ghost var popped: multiset<(int, T)> := multiset{};
      ghost var lo: int := 0;
      while |heap| > 0
        invariant priorities == old(priorities)
        invariant Popping(priorities, old(heap), heap, popped, lo)
        decreases |heap|
      {
        ghost var h := heap;
        var e := PopMin();
        var priority, state := e.0, e.1;
        if priorities[state] == DONE {
          DropStale(priorities, old(heap), h, popped, lo, e);
          popped, lo := popped + multiset{e}, priority;
          continue;
        }
        LiveExit(priorities, old(heap), h, popped, lo, e);
        priorities := priorities[state := DONE];
        return Some((state, priority));
      }
      Exhausted(priorities, old(heap), heap, popped, lo);
      return None;
    }
  }
}
