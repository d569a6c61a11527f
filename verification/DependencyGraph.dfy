/**
 The dependency multigraph of a plan and Kahn's algorithm over it.

 `g[i]` lists what node `i` depends on: its inputs, then its NodeRef parameters, with repeats
 kept, so `concat(a, a)` counts `a` twice.
 */
module DependencyGraph {
  import opened Wrappers

  type Graph = seq<seq<nat>>

  predicate Closed(g: Graph) {
    forall i, k :: 0 <= i < |g| && 0 <= k < |g[i]| ==> g[i][k] < |g|
  }

  /** How many occurrences in `ds` are not yet in `done`: the countdown kept per node. */
  function Missing(ds: seq<nat>, done: set<nat>): nat {
    if ds == [] then 0
    else (if ds[0] in done then 0 else 1) + Missing(ds[1..], done)
  }

  lemma {:induction false} MissingAfter(ds: seq<nat>, done: set<nat>, c: nat)
    requires c !in done
    ensures Missing(ds, done + {c}) == Missing(ds, done) - multiset(ds)[c]
  {
    if ds != [] {
      MissingAfter(ds[1..], done, c);
      assert ds == [ds[0]] + ds[1..];
    }
  }

  lemma {:induction false} MissingZero(ds: seq<nat>, done: set<nat>)
    ensures Missing(ds, done) == 0 <==> forall d | d in ds :: d in done
  {
    if ds != [] {
      MissingZero(ds[1..], done);
      assert ds == [ds[0]] + ds[1..];
    }
  }

  lemma {:induction false} MissingNone(ds: seq<nat>)
    ensures Missing(ds, {}) == |ds|
  {
    if ds != [] { MissingNone(ds[1..]); }
  }

  // ---------------------------------------------------------------------------------------
  // Successor lists

  /** `succ[d]` names `i` exactly as often as `i` depends on `d`. */
  ghost predicate IsSuccessors(g: Graph, succ: seq<seq<nat>>) {
    && |succ| == |g|
    && (forall d, k :: 0 <= d < |succ| && 0 <= k < |succ[d]| ==> succ[d][k] < |g|)
    && (forall d, i {:trigger multiset(succ[d])[i]} :: 0 <= d < |g| && 0 <= i < |g| ==>
          multiset(succ[d])[i] == multiset(g[i])[d])
  }

  /** The nested loop that fills `deps_remaining` and `successors`. */
  method BuildSuccessors(g: Graph) returns (rem: seq<int>, succ: seq<seq<nat>>)
    requires Closed(g)
    ensures IsSuccessors(g, succ)
    ensures |rem| == |g| && forall i :: 0 <= i < |g| ==> rem[i] == Missing(g[i], {})
  {
    rem := seq(|g|, _ => 0);
    succ := seq(|g|, _ => []);
    var i := 0;
    while i < |g|
      invariant 0 <= i <= |g| == |succ| == |rem|
      invariant forall j :: 0 <= j < i ==> rem[j] == |g[j]|
      invariant forall d, k :: 0 <= d < |succ| && 0 <= k < |succ[d]| ==> succ[d][k] < i
      invariant forall d, j {:trigger multiset(succ[d])[j]} :: 0 <= d < |g| && 0 <= j < i ==>
                  multiset(succ[d])[j] == multiset(g[j])[d]
    {
      rem := rem[i := |g[i]|];
      var k := 0;
      while k < |g[i]|
        invariant 0 <= k <= |g[i]| && |succ| == |g|
        invariant forall d, k :: 0 <= d < |succ| && 0 <= k < |succ[d]| ==> succ[d][k] <= i
        invariant forall d, j {:trigger multiset(succ[d])[j]} :: 0 <= d < |g| && 0 <= j < i ==>
                    multiset(succ[d])[j] == multiset(g[j])[d]
        invariant forall d {:trigger multiset(succ[d])} :: 0 <= d < |g| ==>
                    multiset(succ[d])[i] == multiset(g[i][..k])[d]
      {
        var dep := g[i][k];
        assert g[i][..k+1] == g[i][..k] + [dep];
        succ := succ[dep := succ[dep] + [i]];
        k := k + 1;
      }
      assert g[i][..k] == g[i];
      i := i + 1;
    }
    forall i | 0 <= i < |g| ensures rem[i] == Missing(g[i], {}) { MissingNone(g[i]); }
  }

  // ---------------------------------------------------------------------------------------
  // Waking successors: shared by the three schedulers and by Kahn's loop

  /** Count down each successor occurrence in turn; a node whose count reaches zero is queued. */
  function Wake(rem: seq<int>, succs: seq<nat>): (r: (seq<int>, seq<nat>))
    requires Below(succs, |rem|)
    ensures |r.0| == |rem| && Below(r.1, |rem|)
  {
    if succs == [] then (rem, [])
    else
      var last := |succs| - 1;
      var (r, q) := Wake(rem, succs[..last]);
      var s := succs[last];
      (r[s := r[s] - 1], if r[s] == 1 then q + [s] else q)
  }

  lemma {:induction false} WakeEffect(rem: seq<int>, succs: seq<nat>)
    requires Below(succs, |rem|)
    ensures forall i :: 0 <= i < |rem| ==> Wake(rem, succs).0[i] == rem[i] - multiset(succs)[i]
    ensures forall i: nat :: i in Wake(rem, succs).1 <==> i < |rem| && rem[i] > 0 && Wake(rem, succs).0[i] <= 0
    ensures NoDup(Wake(rem, succs).1)
  {
    if succs != [] {
      var last := |succs| - 1;
      LastCounted(succs);
      WakeEffect(rem, succs[..last]);
      var (r, q) := Wake(rem, succs[..last]);
      var s := succs[last];
      if r[s] == 1 {
        assert s !in q;
        assert forall x :: x in q + [s] <==> x in q || x == s;
      }
    }
  }

  ghost predicate CountsDown(g: Graph, rem: seq<int>, done: set<nat>) {
    |rem| == |g| && forall i :: 0 <= i < |g| ==> rem[i] == Missing(g[i], done)
  }

  /** Finishing `c` keeps every countdown exact and queues exactly the nodes it was last to block. */
  lemma WakeCountsDown(g: Graph, succ: seq<seq<nat>>, rem: seq<int>, done: set<nat>, c: nat)
    requires Closed(g) && IsSuccessors(g, succ) && CountsDown(g, rem, done)
    requires c < |g| && c !in done
    ensures Below(succ[c], |rem|) && CountsDown(g, Wake(rem, succ[c]).0, done + {c})
    ensures NoDup(Wake(rem, succ[c]).1)
    ensures forall i: nat :: i in Wake(rem, succ[c]).1 <==>
              i < |g| && rem[i] > 0 && Wake(rem, succ[c]).0[i] == 0
  {
    WakeEffect(rem, succ[c]);
    forall i | 0 <= i < |g| ensures Wake(rem, succ[c]).0[i] == Missing(g[i], done + {c}) {
      MissingAfter(g[i], done, c);
      assert multiset(succ[c])[i] == multiset(g[i])[c];
    }
  }

  // ---------------------------------------------------------------------------------------
  // Ranks and cycles

  /** Every dependency has a smaller rank. */
  ghost predicate Ranked(g: Graph, rank: seq<nat>) {
    && Closed(g) && |rank| == |g|
    && forall i, k :: 0 <= i < |g| && 0 <= k < |g[i]| ==> rank[g[i][k]] < rank[i]
  }

  /** A walk that follows dependencies. */
  ghost predicate IsWalk(g: Graph, w: seq<nat>) {
    && Below(w, |g|)
    && forall k :: 0 <= k < |w| - 1 ==> w[k+1] in g[w[k]]
  }

  ghost predicate IsCycle(g: Graph, w: seq<nat>) {
    IsWalk(g, w) && |w| >= 2 && w[0] == w[|w|-1]
  }

  ghost predicate HasCycle(g: Graph) {
    exists w :: IsCycle(g, w)
  }

  lemma {:induction false} WalkDescends(g: Graph, rank: seq<nat>, w: seq<nat>)
    requires Ranked(g, rank) && IsWalk(g, w) && |w| >= 2
    ensures rank[w[|w|-1]] < rank[w[0]]
  {
    assert w[1] in g[w[0]];
    if |w| > 2 {
      assert IsWalk(g, w[1..]) by {
        forall k | 0 <= k < |w[1..]| - 1 ensures w[1..][k+1] in g[w[1..][k]] { assert w[k+2] in g[w[k+1]]; }
      }
      WalkDescends(g, rank, w[1..]);
    }
  }

  lemma RankedHasNoCycle(g: Graph, rank: seq<nat>)
    requires Ranked(g, rank)
    ensures !HasCycle(g)
  {
    if HasCycle(g) {
      var w :| IsCycle(g, w);
      WalkDescends(g, rank, w);
    }
  }

  /** Where every node outside `done` has a dependency outside `done`, walks never have to stop. */
  lemma {:induction false} LongWalk(g: Graph, done: set<nat>, start: nat, len: nat) returns (w: seq<nat>)
    requires Closed(g) && start < |g| && start !in done
    requires forall i: nat | i < |g| && i !in done :: Missing(g[i], done) > 0
    ensures IsWalk(g, w) && |w| == len + 1 && w[0] == start
    decreases len
  {
    if len == 0 {
      w := [start];
    } else {
      MissingZero(g[start], done);
      var next: nat :| next in g[start] && next !in done;
      var rest := LongWalk(g, done, next, len - 1);
      w := [start] + rest;
    }
  }

  lemma StuckHasCycle(g: Graph, done: set<nat>, start: nat)
    requires Closed(g) && start < |g| && start !in done
    requires forall i: nat | i < |g| && i !in done :: Missing(g[i], done) > 0
    ensures HasCycle(g)
  {
    var w := LongWalk(g, done, start, |g|);
    if NoDup(w) { Pigeonhole(w, |g|); }
    var i, j :| 0 <= i < j < |w| && w[i] == w[j];
    var c := w[i..j+1];
    forall k | 0 <= k < |c| - 1 ensures c[k+1] in g[c[k]] { assert w[i+k+1] in g[w[i+k]]; }
    assert IsCycle(g, c);
  }

  // ---------------------------------------------------------------------------------------
  // Kahn's algorithm

  ghost function ToSet(s: seq<nat>): set<nat> { set x | x in s }

  /** Distinct nodes, each after all of its dependencies. */
  ghost predicate IsTopological(g: Graph, topo: seq<nat>) {
    && NoDup(topo)
    && Below(topo, |g|)
    && forall k, d :: 0 <= k < |topo| && d in g[topo[k]] ==> d in topo[..k]
  }

  ghost predicate IsPermutation(s: seq<nat>, n: nat) {
    |s| == n && NoDup(s) && Below(s, n)
  }

  /** What holds between two turns of Kahn's loop. */
  ghost predicate KahnInv(g: Graph, rem: seq<int>, topo: seq<nat>, q: seq<nat>) {
    && IsTopological(g, topo)
    && CountsDown(g, rem, ToSet(topo))
    && NoDup(q) && Below(q, |g|)
    && (forall k :: 0 <= k < |q| ==> q[k] !in topo)
    && forall i :: 0 <= i < |g| ==> (rem[i] == 0 <==> i in topo || i in q)
  }

  /** Moving the front of the queue to the order, and waking its successors, keeps the invariant. */
  lemma KahnStep(g: Graph, succ: seq<seq<nat>>, rem: seq<int>, topo: seq<nat>, q: seq<nat>)
    requires Closed(g) && IsSuccessors(g, succ) && KahnInv(g, rem, topo, q) && q != []
    ensures q[0] < |g| && Below(succ[q[0]], |rem|)
    ensures KahnInv(g, Wake(rem, succ[q[0]]).0, topo + [q[0]], q[1..] + Wake(rem, succ[q[0]]).1)
  {
    var c := q[0];
    var topo' := topo + [c];
    assert c in q;
    assert ToSet(topo') == ToSet(topo) + {c};
    WakeCountsDown(g, succ, rem, ToSet(topo), c);
    var (rem', woken) := Wake(rem, succ[c]);
    var q' := q[1..] + woken;
    TopologicalExtends(g, rem, topo, c);
    forall i | 0 <= i < |g| ensures rem'[i] == 0 <==> i in topo' || i in q' {
      assert i in q' <==> i in q[1..] || i in woken;
      assert i in q <==> i == c || i in q[1..];
      if rem[i] == 0 { MissingZero(g[i], ToSet(topo)); MissingZero(g[i], ToSet(topo')); }
    }
    forall k | 0 <= k < |q'| ensures q'[k] !in topo' {
      if k < |q| - 1 { assert q'[k] == q[k+1]; } else { assert q'[k] in woken; }
    }
    forall i, j | 0 <= i < j < |q'| ensures q'[i] != q'[j] {
      if i < |q| - 1 <= j { assert q'[i] == q[i+1] && q'[i] in q && q'[j] in woken; }
    }
  }

  lemma TopologicalExtends(g: Graph, rem: seq<int>, topo: seq<nat>, c: nat)
    requires Closed(g) && IsTopological(g, topo) && CountsDown(g, rem, ToSet(topo))
    requires c < |g| && rem[c] == 0 && c !in topo
    ensures IsTopological(g, topo + [c])
  {
    MissingZero(g[c], ToSet(topo));
    var topo' := topo + [c];
    forall k, d | 0 <= k < |topo'| && d in g[topo'[k]] ensures d in topo'[..k] {
      if k < |topo| { assert topo'[..k] == topo[..k]; } else { assert topo'[..k] == topo; }
    }
  }

  lemma TopologicalIsRanked(g: Graph, topo: seq<nat>) returns (rank: seq<nat>)
    requires Closed(g) && IsTopological(g, topo) && |topo| == |g|
    ensures Ranked(g, rank)
  {
    AllBelow(topo, |g|);
    rank := seq(|g|, i requires 0 <= i < |g| => PositionOf(topo, i));
    forall i, k | 0 <= i < |g| && 0 <= k < |g[i]| ensures rank[g[i][k]] < rank[i] {
      var d, at := g[i][k], PositionOf(topo, i);
      assert d in g[topo[at]];
      var j :| 0 <= j < at && topo[..at][j] == d;
      assert topo[j] == d;
    }
  }

  function PositionOf(s: seq<nat>, x: nat): (k: nat)
    requires x in s
    ensures k < |s| && s[k] == x
  {
    if s[0] == x then 0 else 1 + PositionOf(s[1..], x)
  }

  /** What a plan check guarantees: dependencies exist and do not run in a circle. */
  ghost predicate Acyclic(g: Graph) { Closed(g) && !HasCycle(g) }

  /** A topological order that is not complete can be extended, unless there is a cycle. */
  lemma SomeNodeNext(g: Graph, topo: seq<nat>) returns (c: nat)
    requires Acyclic(g) && IsTopological(g, topo) && |topo| < |g|
    ensures c < |g| && c !in topo && IsTopological(g, topo + [c])
  {
    if forall x: nat :: x < |g| ==> x in topo {
      SubsetNoLonger(seq(|g|, i requires 0 <= i => i as nat), topo);
    }
    var start: nat :| start < |g| && start !in topo;
    if forall i: nat | i < |g| && i !in ToSet(topo) :: Missing(g[i], ToSet(topo)) > 0 {
      StuckHasCycle(g, ToSet(topo), start);
    }
    c :| c < |g| && c !in ToSet(topo) && Missing(g[c], ToSet(topo)) == 0;
    TopologicalExtends(g, seq(|g|, i requires 0 <= i < |g| => Missing(g[i], ToSet(topo))), topo, c);
  }

  /** Without a cycle, every node can be given a rank above those of its dependencies. */
  lemma AcyclicIsRanked(g: Graph) returns (rank: seq<nat>)
    requires Acyclic(g)
    ensures Ranked(g, rank)
  {
    var topo: seq<nat> := [];
    while |topo| < |g|
      invariant IsTopological(g, topo)
      decreases |g| - |topo|
    {
      var c := SomeNodeNext(g, topo);
      topo := topo + [c];
    }
    Pigeonhole(topo, |g|);
    rank := TopologicalIsRanked(g, topo);
  }

  /**
   Kahn's loop, as the plan check and all three executors run it. `scan` is the order in which
   nodes are looked at for the initial queue: by index in the schedulers, in hash-map order in
   `validate_plan` and the sequential executor. The order found is complete exactly when the
   graph has no cycle, whatever `scan` is.
   */
  method KahnOrder(g: Graph, scan: seq<nat>) returns (topo: seq<nat>)
    requires Closed(g) && IsPermutation(scan, |g|)
    ensures IsTopological(g, topo)
    ensures |topo| == |g| <==> !HasCycle(g)
  {
    var rem, succ := BuildSuccessors(g);
    var q: seq<nat> := [];
    var k := 0;
    while k < |scan|
      invariant 0 <= k <= |scan|
      invariant NoDup(q) && Below(q, |g|)
      invariant forall x :: 0 <= x < |g| ==> (x in q <==> x in scan[..k] && rem[x] == 0)
    {
      if rem[scan[k]] == 0 { q := q + [scan[k]]; }
      assert scan[..k+1] == scan[..k] + [scan[k]];
      k := k + 1;
    }
    AllBelow(scan, |g|);
    topo := [];
    assert scan[..k] == scan && ToSet(topo) == {};
    while q != []
      invariant KahnInv(g, rem, topo, q)
      decreases |g| - |topo|
    {
      KahnStep(g, succ, rem, topo, q);
      ghost var (rem', woken) := Wake(rem, succ[q[0]]);
      ghost var rem0, tail := rem, q[1..];
      var curr := q[0];
      q := q[1..];
      topo := topo + [curr];
      var j := 0;
      while j < |succ[curr]|
        invariant 0 <= j <= |succ[curr]| && |rem| == |g|
        invariant Below(succ[curr][..j], |rem0|)
        invariant rem == Wake(rem0, succ[curr][..j]).0 && q == tail + Wake(rem0, succ[curr][..j]).1
      {
        var s := succ[curr][j];
        assert succ[curr][..j+1][..j] == succ[curr][..j];
        rem := rem[s := rem[s] - 1];
        if rem[s] == 0 { q := q + [s]; }
        j := j + 1;
      }
      assert succ[curr][..j] == succ[curr];
      Pigeonhole(topo, |g|);
    }
    KahnComplete(g, rem, topo);
  }

  /** With the queue empty, the order misses a node exactly when there is a cycle. */
  lemma KahnComplete(g: Graph, rem: seq<int>, topo: seq<nat>)
    requires Closed(g) && KahnInv(g, rem, topo, [])
    ensures |topo| == |g| <==> !HasCycle(g)
  {
    if |topo| == |g| {
      var rank := TopologicalIsRanked(g, topo);
      RankedHasNoCycle(g, rank);
    } else {
      Pigeonhole(topo, |g|);
      if forall x: nat :: x < |g| ==> x in topo {
        var all := seq(|g|, i requires 0 <= i => i as nat);
        SubsetNoLonger(all, topo);
      }
      var start: nat :| start < |g| && start !in topo;
      StuckHasCycle(g, ToSet(topo), start);
    }
  }

  /** Distinct elements that all occur in `t` are at most `|t|` many. */
  lemma {:induction false} SubsetNoLonger(s: seq<nat>, t: seq<nat>)
    requires NoDup(s) && forall k :: 0 <= k < |s| ==> s[k] in t
    ensures |s| <= |t|
  {
    if s != [] {
      var k :| 0 <= k < |t| && t[k] == s[0];
      var t' := t[..k] + t[k+1..];
      forall i | 0 <= i < |s[1..]| ensures s[1..][i] in t' {
        var j :| 0 <= j < |t| && t[j] == s[i+1];
        assert t'[if j < k then j else j - 1] == s[i+1];
      }
      SubsetNoLonger(s[1..], t');
    }
  }
}
