/**
 The bookkeeping that the parallel and the async scheduler share: countdowns, the ready queue,
 the nodes being worked on, and the result slots. Every node is in exactly one place: blocked,
 queued, busy, done or failed.
 */
module NodeTracking {
  import opened Wrappers
  import opened DependencyGraph
  import opened PlanMeaning

  function ZeroNodes(rem: seq<int>, upto: nat): (r: seq<nat>)
    requires upto <= |rem|
  {
    if upto == 0 then []
    else ZeroNodes(rem, upto - 1) + (if rem[upto-1] == 0 then [upto - 1] else [])
  }

  ghost predicate Tracks<V>(g: Graph, rem: seq<int>, results: seq<Option<V>>, ready: seq<nat>, busy: set<nat>) {
    && |results| == |g|
    && CountsDown(g, rem, Done(results))
    && NoDup(ready) && Below(ready, |g|)
    && (forall k :: 0 <= k < |ready| ==> rem[ready[k]] == 0 && results[ready[k]].None? && ready[k] !in busy)
    && (forall i :: i in busy ==> i < |g| && rem[i] == 0 && results[i].None?)
    && (forall i :: 0 <= i < |g| && results[i].Some? ==> rem[i] == 0)
  }

  /** Nodes that were started and ended without a result. */
  ghost function Failed<V>(rem: seq<int>, results: seq<Option<V>>, ready: seq<nat>, busy: set<nat>): set<nat>
    requires |rem| == |results|
  {
    set i | 0 <= i < |rem| && rem[i] == 0 && results[i].None? && i !in ready && i !in busy
  }

  /** Nodes that were not started yet. */
  ghost function Unstarted(rem: seq<int>, ready: seq<nat>): set<nat> {
    set i | 0 <= i < |rem| && (rem[i] > 0 || i in ready)
  }

  lemma {:induction false} ZeroNodesAre(rem: seq<int>, upto: nat)
    requires upto <= |rem|
    ensures NoDup(ZeroNodes(rem, upto)) && Below(ZeroNodes(rem, upto), upto)
    ensures forall i: nat :: i in ZeroNodes(rem, upto) <==> i < upto && rem[i] == 0
  {
    if upto > 0 {
      ZeroNodesAre(rem, upto - 1);
      var z := ZeroNodes(rem, upto - 1);
      assert forall k :: 0 <= k < |z| ==> z[k] < upto - 1;
    }
  }

  lemma TracksInit<V>(g: Graph, rem: seq<int>)
    requires CountsDown(g, rem, {})
    ensures Tracks<V>(g, rem, seq(|g|, _ => None), ZeroNodes(rem, |rem|), {})
    ensures Failed<V>(rem, seq(|g|, _ => None), ZeroNodes(rem, |rem|), {}) == {}
  {
    ZeroNodesAre(rem, |rem|);
    var results: seq<Option<V>>, ready := seq(|g|, _ => None), ZeroNodes(rem, |rem|);
    assert Done(results) == {};
    forall k | 0 <= k < |ready| ensures rem[ready[k]] == 0 { assert ready[k] in ready; }
  }

  lemma TracksDispatch<V>(g: Graph, rem: seq<int>, results: seq<Option<V>>, ready: seq<nat>, busy: set<nat>)
    requires Tracks(g, rem, results, ready, busy) && ready != []
    ensures Tracks(g, rem, results, ready[1..], busy + {ready[0]}) && ready[0] !in busy
    ensures Failed(rem, results, ready[1..], busy + {ready[0]}) == Failed(rem, results, ready, busy)
    ensures Unstarted(rem, ready[1..]) == Unstarted(rem, ready) - {ready[0]} && ready[0] in Unstarted(rem, ready)
  {
    assert ready == [ready[0]] + ready[1..];
    assert ready[0] in ready;
  }

  lemma TracksFailure<V>(g: Graph, rem: seq<int>, results: seq<Option<V>>, ready: seq<nat>, busy: set<nat>, i: nat)
    requires Tracks(g, rem, results, ready, busy) && i in busy
    ensures Tracks(g, rem, results, ready, busy - {i})
    ensures Failed(rem, results, ready, busy - {i}) == Failed(rem, results, ready, busy) + {i}
  {}

  lemma TracksSuccess<V>(g: Graph, succ: seq<seq<nat>>, rem: seq<int>, results: seq<Option<V>>, ready: seq<nat>, busy: set<nat>, i: nat, v: V)
    requires Closed(g) && IsSuccessors(g, succ)
    requires Tracks(g, rem, results, ready, busy) && i in busy
    ensures Below(succ[i], |rem|)
    ensures var (rem', woken) := Wake(rem, succ[i]);
            var results' := results[i := Some(v)];
            && Tracks(g, rem', results', ready + woken, busy - {i})
            && Failed(rem', results', ready + woken, busy - {i}) == Failed(rem, results, ready, busy)
            && Unstarted(rem', ready + woken) == Unstarted(rem, ready)
  {
    WakeCountsDown(g, succ, rem, Done(results), i);
    var (rem', woken) := Wake(rem, succ[i]);
    var results' := results[i := Some(v)];
    assert Done(results') == Done(results) + {i};
    assert CountsDown(g, rem', Done(results'));
    var ready' := ready + woken;
    assert forall j :: j in ready' <==> j in ready || j in woken;
    forall j | 0 <= j < |g| && rem[j] == 0 ensures rem'[j] == 0 {
      StaysUnblocked(g[j], Done(results), i);
    }
    forall k | 0 <= k < |ready'| ensures rem'[ready'[k]] == 0 && results'[ready'[k]].None? && ready'[k] !in busy {
      if k >= |ready| { assert ready'[k] in woken; } else { assert ready'[k] == ready[k]; }
    }
    assert forall k :: 0 <= k < |woken| ==> woken[k] in woken;
    assert forall k :: 0 <= k < |ready| ==> ready[k] !in woken;
    assert NoDup(ready');
    FailedUnchanged(rem, rem', results, ready, woken, busy, i, v);
  }

  lemma StaysUnblocked(ds: seq<nat>, done: set<nat>, i: nat)
    requires Missing(ds, done) == 0
    ensures Missing(ds, done + {i}) == 0
  {
    MissingZero(ds, done);
    MissingZero(ds, done + {i});
  }

  lemma FailedUnchanged<V>(rem: seq<int>, rem': seq<int>, results: seq<Option<V>>,
      ready: seq<nat>, woken: seq<nat>, busy: set<nat>, i: nat, v: V)
    requires |rem| == |rem'| == |results| && i in busy && i < |rem| && i !in woken
    requires forall j: nat :: j in woken <==> j < |rem| && rem[j] > 0 && rem'[j] == 0
    requires forall j :: 0 <= j < |rem| ==> rem'[j] >= 0 && rem[j] >= 0 && (rem[j] == 0 ==> rem'[j] == 0)
    ensures Failed(rem', results[i := Some(v)], ready + woken, busy - {i}) == Failed(rem, results, ready, busy)
    ensures Unstarted(rem', ready + woken) == Unstarted(rem, ready)
  {
    var results' := results[i := Some(v)];
    forall j: nat | j < |rem| && rem[j] > 0 && rem'[j] == 0 ensures j in ready + woken {}
    forall j: nat | j < |rem|
      ensures j in Failed(rem', results', ready + woken, busy - {i}) <==> j in Failed(rem, results, ready, busy)
    {
      assert j in ready + woken <==> j in ready || j in woken;
    }
    forall j: nat | j < |rem| ensures j in Unstarted(rem', ready + woken) <==> j in Unstarted(rem, ready) {
      assert j in ready + woken <==> j in ready || j in woken;
    }
  }

  /** Sets of node numbers are no larger than the plan. */
  lemma {:induction false} BelowCard(a: set<nat>, n: nat)
    requires forall i :: i in a ==> i < n
    ensures |a| <= n
  {
    if n > 0 {
      BelowCard(a - {n - 1}, n - 1);
      assert a <= (a - {n - 1}) + {n - 1};
      if n - 1 in a { assert a == (a - {n - 1}) + {n - 1}; } else { assert a == a - {n - 1}; }
    } else {
      assert a == {};
    }
  }

  /** With nothing queued and nobody busy, a node without a result is blocked or has failed. */
  lemma BlockedOrFailed<V>(rem: seq<int>, results: seq<Option<V>>, j: nat)
    requires |rem| == |results| && j < |rem| && results[j].None?
    ensures rem[j] == 0 ==> j in Failed(rem, results, [], {})
  {}
}
