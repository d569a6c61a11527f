/** The three executors on one plan: whatever each of them may choose on its way, they agree. */
module Executors {
  import opened Wrappers
  import opened DependencyGraph
  import opened PlanMeaning
  import opened SequentialExecutor
  import opened ParallelScheduler
  import SchedulerState
  import AsyncSteps
  import AsyncScheduler
  import Timeouts

  /** What a call reports on: the plan's outputs, and every node, for its schema delta. */
  function Reported<V>(plan: Plan<V>, index: map<string, nat>): seq<nat>
    requires Resolvable(plan, index)
  {
    Lookup(index, plan.outputs) + seq(|plan.nodes|, i => i)
  }

  /** First the outputs, in the plan's order and repeated as it repeats them; then every node, once. */
  lemma ReportedMeans<V>(plan: Plan<V>, index: map<string, nat>)
    requires Resolvable(plan, index) && IsIndex(plan, index)
    ensures var r, k := Reported(plan, index), |plan.outputs|;
      && |r| == k + |plan.nodes|
      && (forall i :: 0 <= i < k ==> r[i] < |plan.nodes| && plan.nodes[r[i]].id == plan.outputs[i])
      && (forall i :: k <= i < |r| ==> r[i] == i - k)
  {
  }

  /** `m` is the meaning of the plan, and `r` is right for it. */
  ghost predicate Means<V>(plan: Plan<V>, index: map<string, nat>, m: seq<Result<V>>, r: Result<seq<V>>)
    requires WellFormed(plan, index)
  {
    IsMeaning(Resolve(plan, index), m) && Agrees(Resolve(plan, index), m, Reported(plan, index), r)
  }

  // ---------------------------------------------------------------------------------------
  // Rows with their schema deltas

  datatype Left<+R, +D> = Left(rows: R, delta: D)

  function RowsOf<R, D>(lefts: seq<Left<R, D>>): (rows: seq<R>)
    ensures |rows| == |lefts|
  {
    seq(|lefts|, k requires 0 <= k < |lefts| => lefts[k].rows)
  }

  /** The node with its delta: the delta is computed from the inputs and the rows, and nobody reads it. */
  function WithDelta<R, D>(node: DagNode<R>, delta: (seq<R>, seq<R>, R) -> D): DagNode<Left<R, D>> {
    DagNode(node.inputs, node.refs, (ins: seq<Left<R, D>>, refs: seq<Left<R, D>>) =>
      match node.run(RowsOf(ins), RowsOf(refs))
      case Err(e) => Err(e)
      case Ok(r) => Ok(Left(r, delta(RowsOf(ins), RowsOf(refs), r))))
  }

  ghost function RowResults<R, D>(m: seq<Result<Left<R, D>>>): seq<Result<R>> {
    seq(|m|, i requires 0 <= i < |m| => if m[i].Ok? then Ok(m[i].value.rows) else Err(m[i].error))
  }

  /** Carrying the deltas along does not change what the plan means, and each is that of its node's meaning. */
  lemma DeltasOfMeaning<R, D>(p: Dag<R>, delta: (seq<R>, seq<R>, R) -> D, m: seq<Result<Left<R, D>>>)
    requires IsMeaning(seq(|p|, i requires 0 <= i < |p| => WithDelta(p[i], delta)), m)
    ensures var rows := RowResults(m);
      && IsMeaning(p, rows)
      && forall i :: 0 <= i < |p| && m[i].Ok? ==>
        && AllOk(rows, p[i].inputs) && AllOk(rows, p[i].refs)
        && m[i].value.delta == delta(Values(rows, p[i].inputs), Values(rows, p[i].refs), m[i].value.rows)
  {
    var rows := RowResults(m);
    forall i | 0 <= i < |p|
      ensures rows[i] == Apply(p, rows, i)
      ensures m[i].Ok? ==>
        && AllOk(rows, p[i].inputs) && AllOk(rows, p[i].refs)
        && m[i].value.delta == delta(Values(rows, p[i].inputs), Values(rows, p[i].refs), m[i].value.rows)
    {
      DeltaOfNode(p, delta, m, i);
    }
  }

  lemma DeltaOfNode<R, D>(p: Dag<R>, delta: (seq<R>, seq<R>, R) -> D, m: seq<Result<Left<R, D>>>, i: nat)
    requires IsMeaning(seq(|p|, i requires 0 <= i < |p| => WithDelta(p[i], delta)), m) && i < |p|
    ensures var rows := RowResults(m);
      && rows[i] == Apply(p, rows, i)
      && (m[i].Ok? ==>
        && AllOk(rows, p[i].inputs) && AllOk(rows, p[i].refs)
        && m[i].value.delta == delta(Values(rows, p[i].inputs), Values(rows, p[i].refs), m[i].value.rows))
  {
    var rows, lifted := RowResults(m), seq(|p|, i requires 0 <= i < |p| => WithDelta(p[i], delta));
    assert m[i] == Apply(lifted, m, i);
    assert AllOk(rows, p[i].inputs) <==> AllOk(m, p[i].inputs);
    assert AllOk(rows, p[i].refs) <==> AllOk(m, p[i].refs);
    if AllOk(m, p[i].inputs) && AllOk(m, p[i].refs) {
      assert RowsOf(Values(m, p[i].inputs)) == Values(rows, p[i].inputs);
      assert RowsOf(Values(m, p[i].refs)) == Values(rows, p[i].refs);
    }
  }

  // ---------------------------------------------------------------------------------------
  // The three executors

  /** What the parallel call did: `gap` means that it left its loop with an error recorded. */
  datatype ParallelOutcome<V> = ParallelOutcome(gap: bool, r: Option<Result<seq<V>>>)

  method RunParallel<V>(dag: Dag<V>, outputs: seq<nat>, bound: nat, spurious: nat, ghost m: seq<Result<V>>) returns (o: ParallelOutcome<V>)
    requires Acyclic(Deps(dag)) && IsMeaning(dag, m) && Below(outputs, |dag|) && bound >= 1
    ensures o.gap ==> !AllNodesOk(m)
    ensures !o.gap ==> o.r.Some? && Agrees(dag, m, outputs, o.r.value)
  {
    var state := new SchedulerState.SchedulerState(dag, bound);
    assert GoodConfig(state.config, m);
    var r := state.Execute(outputs, spurious, m);
    var gap := state.pc == Broke && state.firstError.Some?;
    if gap { state.GapMeansFailure(m); }
    return ParallelOutcome(gap, r);
  }

  /** `r` is `None` for a main coroutine that is never resumed; `stopped` says that its loop has stopped, `now` is the clock at the end. */
  method RunAsync<V>(dag: Dag<V>, outputs: seq<nat>, limits: Timeouts.Limits, begun: int, suspensions: nat, ghost m: seq<Result<V>>)
      returns (r: Option<Result<seq<V>>>, stopped: bool, now: int)
    requires Acyclic(Deps(dag)) && IsMeaning(dag, m) && Below(outputs, |dag|)
    ensures !stopped ==> r.Some?
    ensures r.Some? && (r.value.Ok? || Timeouts.OnTime(limits, begun, now)) ==> Agrees(dag, m, outputs, r.value)
    ensures r.Some? && r.value.Err? && !(exists i: nat :: FailsItself(dag, m, i, r.value.error)) ==> Timeouts.Justified(limits, begun, now, r.value.error)
  {
    var state := new AsyncScheduler.AsyncSchedulerState(dag, limits, begun);
    r := state.Execute(outputs, suspensions, m);
    stopped, now := !state.accepting, state.now;
  }

  /**
   A plan is accepted if and only if it is well-formed and its nodes are in order. On an accepted
   plan the sequential result is the plan's meaning; every parallel run that leaves its loop with no
   error recorded, and every async run that returns before a deadline has passed, succeeds exactly
   when the sequential one does and with the same outputs; an async run that succeeds later returns
   them too; and the parallel loop can leave a gap only when the sequential run fails. The async call
   returns unless its event loop was stopped under it. What is compared is the outputs and what every
   node left, so also, with `WithDelta`, every node's schema delta.
   */
  method ValidateAndRun<V>(plan: Plan<V>, reg: Registry, scan: seq<nat>, scan': seq<nat>, bound: nat, spurious: nat, limits: Timeouts.Limits, begun: int, suspensions: nat)
      returns (accepted: bool, s: Result<seq<V>>, p: ParallelOutcome<V>, a: Option<Result<seq<V>>>, stopped: bool, now: int)
    requires IsPermutation(scan, |plan.nodes|) && IsPermutation(scan', |plan.nodes|) && bound >= 1
    ensures accepted <==> exists index :: WellFormed(plan, index) && NodesOk(reg, plan)
    ensures accepted ==> exists index, m :: WellFormed(plan, index) && Means(plan, index, m, s)
    ensures accepted && !p.gap ==> p.r.Some? && (p.r.value.Ok? <==> s.Ok?) && (s.Ok? ==> p.r.value == s)
    ensures accepted && p.gap ==> s.Err?
    ensures accepted && !stopped ==> a.Some?
    ensures accepted && a.Some? && a.value.Ok? ==> a.value == s
    ensures accepted && a.Some? && Timeouts.OnTime(limits, begun, now) ==> (a.value.Ok? <==> s.Ok?)
  {
    var checked := ValidatePlan(plan, reg, scan);
    if checked.Err? { return false, Err(checked.error), ParallelOutcome(false, None), None, false, begun; }
    var index := checked.value;
    ghost var m := WellFormedHasMeaning(plan, index);
    var dag, outputs := Resolve(plan, index), Reported(plan, index);
    ResolveClosed(plan, index);
    s := ExecuteSequential(plan, index, scan', outputs, m);
    p := RunParallel(dag, outputs, bound, spurious, m);
    a, stopped, now := RunAsync(dag, outputs, limits, begun, suspensions, m);
    assert WellFormed(plan, index) && NodesOk(reg, plan) && Means(plan, index, m, s);
    accepted := true;
    hide WellFormed, NodesOk, IsMeaning, Acyclic, Agrees;
    ExecutorsAgree(dag, m, outputs, s, s);
    if !p.gap { ExecutorsAgree(dag, m, outputs, s, p.r.value); } else { AllOkIffNobodyFails(dag, m); }
    if a.Some? && (a.value.Ok? || Timeouts.OnTime(limits, begun, now)) { ExecutorsAgree(dag, m, outputs, s, a.value); }
  }
}
