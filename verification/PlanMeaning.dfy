/**
 What a plan means, independently of any executor.

 A task is a deterministic function of the row sets on its inputs and on its NodeRef parameters,
 returning a row set or an error (its own, or the output contract's). The meaning of a plan gives
 every node a result such that each node's result is its task applied to the results of its
 dependencies. On an acyclic plan these equations have exactly one solution.
 */
module PlanMeaning {
  import opened Wrappers
  import opened DependencyGraph

  datatype DagNode<!V> = DagNode(inputs: seq<nat>, refs: seq<nat>, run: (seq<V>, seq<V>) -> Result<V>)

  type Dag<!V> = seq<DagNode<V>>

  /** Dependencies in the order the engine lists them: inputs, then NodeRef parameters. */
  function Deps<V>(p: Dag<V>): (g: Graph)
    ensures |g| == |p|
  {
    seq(|p|, i requires 0 <= i < |p| => p[i].inputs + p[i].refs)
  }

  ghost predicate AllOk<V>(m: seq<Result<V>>, ids: seq<nat>) {
    Below(ids, |m|) && forall k :: 0 <= k < |ids| ==> m[ids[k]].Ok?
  }

  ghost function Values<V>(m: seq<Result<V>>, ids: seq<nat>): (vs: seq<V>)
    requires AllOk(m, ids)
    ensures |vs| == |ids|
  {
    seq(|ids|, k requires 0 <= k < |ids| => m[ids[k]].value)
  }

  /** The error of a node that cannot run because a dependency has none. */
  const UPSTREAM := "a dependency failed"

  ghost function Apply<V>(p: Dag<V>, m: seq<Result<V>>, i: nat): Result<V>
    requires i < |p|
  {
    if AllOk(m, p[i].inputs) && AllOk(m, p[i].refs)
    then p[i].run(Values(m, p[i].inputs), Values(m, p[i].refs))
    else Err(UPSTREAM)
  }

  ghost predicate IsMeaning<V>(p: Dag<V>, m: seq<Result<V>>) {
    |m| == |p| && forall i {:trigger Apply(p, m, i)} :: 0 <= i < |p| ==> m[i] == Apply(p, m, i)
  }

  /** Node `i` runs, and its own task fails with `e`. */
  ghost predicate FailsItself<V>(p: Dag<V>, m: seq<Result<V>>, i: nat, e: string) {
    && i < |p| && AllOk(m, p[i].inputs) && AllOk(m, p[i].refs)
    && p[i].run(Values(m, p[i].inputs), Values(m, p[i].refs)) == Err(e)
  }

  lemma FailureHasNoValue<V>(p: Dag<V>, m: seq<Result<V>>, i: nat, e: string)
    requires IsMeaning(p, m) && FailsItself(p, m, i, e)
    ensures m[i] == Err(e)
  {
    assert m[i] == Apply(p, m, i);
  }

  ghost predicate AllNodesOk<V>(m: seq<Result<V>>) {
    forall i :: 0 <= i < |m| ==> m[i].Ok?
  }

  /** The outcome is right for the plan: all values, or the error of some node that failed itself. */
  ghost predicate Agrees<V>(p: Dag<V>, m: seq<Result<V>>, outputs: seq<nat>, r: Result<seq<V>>) {
    match r
    case Ok(vs) => AllNodesOk(m) && AllOk(m, outputs) && vs == Values(m, outputs)
    case Err(e) => exists i: nat :: FailsItself(p, m, i, e)
  }

  // ---------------------------------------------------------------------------------------
  // The equations have exactly one solution

  ghost function Solve<V>(p: Dag<V>, rank: seq<nat>, i: nat): Result<V>
    requires Ranked(Deps(p), rank) && i < |p|
    decreases rank[i]
  {
    var g := Deps(p);
    assert forall k :: 0 <= k < |p[i].inputs| ==> g[i][k] == p[i].inputs[k];
    assert forall k :: 0 <= k < |p[i].refs| ==> g[i][|p[i].inputs| + k] == p[i].refs[k];
    var ins := seq(|p[i].inputs|, k requires 0 <= k < |p[i].inputs| => Solve(p, rank, p[i].inputs[k]));
    var refs := seq(|p[i].refs|, k requires 0 <= k < |p[i].refs| => Solve(p, rank, p[i].refs[k]));
    if (forall k :: 0 <= k < |ins| ==> ins[k].Ok?) && (forall k :: 0 <= k < |refs| ==> refs[k].Ok?)
    then p[i].run(seq(|ins|, k requires 0 <= k < |ins| => ins[k].value),
                  seq(|refs|, k requires 0 <= k < |refs| => refs[k].value))
    else Err(UPSTREAM)
  }

  lemma MeaningExists<V>(p: Dag<V>) returns (m: seq<Result<V>>)
    requires Acyclic(Deps(p))
    ensures IsMeaning(p, m)
  {
    var rank := AcyclicIsRanked(Deps(p));
    m := SolveAll(p, rank);
  }

  lemma SolveAll<V>(p: Dag<V>, rank: seq<nat>) returns (m: seq<Result<V>>)
    requires Ranked(Deps(p), rank)
    ensures IsMeaning(p, m)
  {
    m := seq(|p|, i requires 0 <= i < |p| => Solve(p, rank, i));
    forall i | 0 <= i < |p| ensures m[i] == Apply(p, m, i) {
      DepsBelow(p, i);
      var ins := seq(|p[i].inputs|, k requires 0 <= k < |p[i].inputs| => Solve(p, rank, p[i].inputs[k]));
      var refs := seq(|p[i].refs|, k requires 0 <= k < |p[i].refs| => Solve(p, rank, p[i].refs[k]));
      assert forall k :: 0 <= k < |ins| ==> ins[k] == m[p[i].inputs[k]];
      assert forall k :: 0 <= k < |refs| ==> refs[k] == m[p[i].refs[k]];
      if AllOk(m, p[i].inputs) && AllOk(m, p[i].refs) {
        assert Values(m, p[i].inputs) == seq(|ins|, k requires 0 <= k < |ins| => ins[k].value);
        assert Values(m, p[i].refs) == seq(|refs|, k requires 0 <= k < |refs| => refs[k].value);
      }
    }
  }

  lemma DepsBelow<V>(p: Dag<V>, i: nat)
    requires Closed(Deps(p)) && i < |p|
    ensures Below(p[i].inputs, |p|) && Below(p[i].refs, |p|)
    ensures forall d :: d in p[i].inputs || d in p[i].refs <==> d in Deps(p)[i]
  {
    var g := Deps(p);
    forall k | 0 <= k < |p[i].inputs| ensures p[i].inputs[k] < |p| { assert g[i][k] == p[i].inputs[k]; }
    forall k | 0 <= k < |p[i].refs| ensures p[i].refs[k] < |p| { assert g[i][|p[i].inputs| + k] == p[i].refs[k]; }
  }

  lemma {:induction false} MeaningUniqueAt<V>(p: Dag<V>, rank: seq<nat>, m: seq<Result<V>>, m': seq<Result<V>>, i: nat)
    requires Ranked(Deps(p), rank) && IsMeaning(p, m) && IsMeaning(p, m') && i < |p|
    ensures m[i] == m'[i]
    decreases rank[i]
  {
    DepsBelow(p, i);
    forall k | 0 <= k < |p[i].inputs| ensures m[p[i].inputs[k]] == m'[p[i].inputs[k]] {
      assert Deps(p)[i][k] == p[i].inputs[k];
      MeaningUniqueAt(p, rank, m, m', p[i].inputs[k]);
    }
    forall k | 0 <= k < |p[i].refs| ensures m[p[i].refs[k]] == m'[p[i].refs[k]] {
      assert Deps(p)[i][|p[i].inputs| + k] == p[i].refs[k];
      MeaningUniqueAt(p, rank, m, m', p[i].refs[k]);
    }
    assert m[i] == Apply(p, m, i) && m'[i] == Apply(p, m', i);
    if AllOk(m, p[i].inputs) && AllOk(m, p[i].refs) {
      assert Values(m, p[i].inputs) == Values(m', p[i].inputs);
      assert Values(m, p[i].refs) == Values(m', p[i].refs);
    }
  }

  lemma MeaningUnique<V>(p: Dag<V>, m: seq<Result<V>>, m': seq<Result<V>>)
    requires Acyclic(Deps(p)) && IsMeaning(p, m) && IsMeaning(p, m')
    ensures m == m'
  {
    var rank := AcyclicIsRanked(Deps(p));
    forall i | 0 <= i < |p| ensures m[i] == m'[i] { MeaningUniqueAt(p, rank, m, m', i); }
  }

  /** If no node fails itself, every node has a value. */
  lemma {:induction false} NobodyFails<V>(p: Dag<V>, rank: seq<nat>, m: seq<Result<V>>, i: nat)
    requires Ranked(Deps(p), rank) && IsMeaning(p, m) && i < |p|
    requires forall j: nat, e :: !FailsItself(p, m, j, e)
    ensures m[i].Ok?
    decreases rank[i]
  {
    DepsBelow(p, i);
    forall k | 0 <= k < |p[i].inputs| ensures m[p[i].inputs[k]].Ok? {
      assert Deps(p)[i][k] == p[i].inputs[k];
      NobodyFails(p, rank, m, p[i].inputs[k]);
    }
    forall k | 0 <= k < |p[i].refs| ensures m[p[i].refs[k]].Ok? {
      assert Deps(p)[i][|p[i].inputs| + k] == p[i].refs[k];
      NobodyFails(p, rank, m, p[i].refs[k]);
    }
    assert m[i] == Apply(p, m, i);
    if m[i].Err? { assert FailsItself(p, m, i, m[i].error); }
  }

  /** Every node has a value if and only if no node's own task fails. */
  lemma AllOkIffNobodyFails<V>(p: Dag<V>, m: seq<Result<V>>)
    requires Acyclic(Deps(p)) && IsMeaning(p, m)
    ensures AllNodesOk(m) <==> forall j: nat, e :: !FailsItself(p, m, j, e)
  {
    var rank := AcyclicIsRanked(Deps(p));
    if forall j: nat, e :: !FailsItself(p, m, j, e) {
      forall i: nat | i < |m| ensures m[i].Ok? { NobodyFails(p, rank, m, i); }
    } else {
      var j: nat, e :| FailsItself(p, m, j, e);
      FailureHasNoValue(p, m, j, e);
    }
  }

  /**
   Two executors that both agree with the plan return the same thing: either both the same
   values, or both an error, each naming a node that really failed; and they return values exactly
   when no node's own task fails.
   */
  lemma ExecutorsAgree<V>(p: Dag<V>, m: seq<Result<V>>, outputs: seq<nat>, r: Result<seq<V>>, r': Result<seq<V>>)
    requires Acyclic(Deps(p)) && IsMeaning(p, m)
    requires Agrees(p, m, outputs, r) && Agrees(p, m, outputs, r')
    ensures r.Ok? <==> r'.Ok?
    ensures r.Ok? ==> r == r'
    ensures r.Ok? <==> forall j: nat, e :: !FailsItself(p, m, j, e)
  {
    AllOkIffNobodyFails(p, m);
    if r.Err? { var i: nat :| FailsItself(p, m, i, r.error); FailureHasNoValue(p, m, i, r.error); }
    if r'.Err? { var i: nat :| FailsItself(p, m, i, r'.error); FailureHasNoValue(p, m, i, r'.error); }
  }

  // ---------------------------------------------------------------------------------------
  // Result slots, as all three executors keep them

  ghost predicate Present<V>(results: seq<Option<V>>, ids: seq<nat>) {
    Below(ids, |results|) && forall k :: 0 <= k < |ids| ==> results[ids[k]].Some?
  }

  /** Reading the slots of completed dependencies. */
  function Gather<V>(results: seq<Option<V>>, ids: seq<nat>): (vs: seq<V>)
    requires Below(ids, |results|) && forall k :: 0 <= k < |ids| ==> results[ids[k]].Some?
    ensures |vs| == |ids|
  {
    seq(|ids|, k requires 0 <= k < |ids| => results[ids[k]].value)
  }

  ghost function Done<V>(results: seq<Option<V>>): set<nat> {
    set i | 0 <= i < |results| && results[i].Some?
  }

  /** Slots are written only with the values the plan means. */
  ghost predicate Sound<V>(m: seq<Result<V>>, results: seq<Option<V>>) {
    |results| == |m| && forall i :: 0 <= i < |m| && results[i].Some? ==> m[i] == Ok(results[i].value)
  }

  /** Once all dependencies are in, running the task on the slots gives what the plan means. */
  lemma RunIsMeaning<V>(p: Dag<V>, m: seq<Result<V>>, results: seq<Option<V>>, i: nat)
    requires Closed(Deps(p)) && IsMeaning(p, m) && Sound(m, results) && i < |p|
    requires Missing(Deps(p)[i], Done(results)) == 0
    ensures Present(results, p[i].inputs) && Present(results, p[i].refs)
    ensures p[i].run(Gather(results, p[i].inputs), Gather(results, p[i].refs)) == m[i]
    ensures forall e :: m[i] == Err(e) ==> FailsItself(p, m, i, e)
  {
    assert m[i] == Apply(p, m, i);
    DepsBelow(p, i);
    MissingZero(Deps(p)[i], Done(results));
    forall k | 0 <= k < |p[i].inputs| ensures results[p[i].inputs[k]].Some? {
      assert p[i].inputs[k] in p[i].inputs;
    }
    forall k | 0 <= k < |p[i].refs| ensures results[p[i].refs[k]].Some? {
      assert p[i].refs[k] in p[i].refs;
    }
    assert AllOk(m, p[i].inputs) && AllOk(m, p[i].refs);
    assert Values(m, p[i].inputs) == Gather(results, p[i].inputs);
    assert Values(m, p[i].refs) == Gather(results, p[i].refs);
  }

  /** A slot that is full had every dependency full: the finished nodes are closed under dependency. */
  lemma {:induction false} NothingLeftToRun<V>(p: Dag<V>, rank: seq<nat>, results: seq<Option<V>>, i: nat)
    requires Ranked(Deps(p), rank) && |results| == |p| && i < |p|
    requires forall j :: 0 <= j < |p| && results[j].None? ==> Missing(Deps(p)[j], Done(results)) > 0
    ensures results[i].Some?
    decreases rank[i]
  {
    MissingZero(Deps(p)[i], Done(results));
    if results[i].None? {
      var d :| d in Deps(p)[i] && d !in Done(results);
      var k :| 0 <= k < |Deps(p)[i]| && Deps(p)[i][k] == d;
      NothingLeftToRun(p, rank, results, d);
    }
  }

  lemma AllPresent<V>(m: seq<Result<V>>, results: seq<Option<V>>, ids: seq<nat>)
    requires Sound(m, results) && Below(ids, |m|)
    requires forall i :: 0 <= i < |m| ==> results[i].Some?
    ensures AllNodesOk(m) && AllOk(m, ids) && Present(results, ids)
    ensures Gather(results, ids) == Values(m, ids)
  {}
}
