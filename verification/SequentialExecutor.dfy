/** The plan check of `validate_plan`, and the sequential executor. */
module SequentialExecutor {
  import opened Wrappers
  import opened DependencyGraph
  import opened PlanMeaning

  /** An endpoint parameter, with the kind its field asks for. */
  datatype EndpointUse = EndpointUse(id: string, kind: Option<string>)

  /** A node as parsed: it names other nodes, table entries and endpoints by id. `paramsValid` is the verdict on its parameters. */
  datatype PlanNode<!V> = PlanNode(
    id: string, op: string, inputs: seq<string>, refs: seq<string>,
    exprIds: seq<string>, predIds: seq<string>, endpoints: seq<EndpointUse>, paramsValid: bool,
    run: (seq<V>, seq<V>) -> Result<V>)

  datatype Plan<!V> = Plan(
    schemaVersion: int, capabilities: seq<string>, exprTable: set<string>, predTable: set<string>,
    nodes: seq<PlanNode<V>>, outputs: seq<string>)

  /** What the engine knows: capabilities, ops, and the endpoint registry if there is one. */
  datatype Registry = Registry(capabilities: set<string>, ops: set<string>, endpoints: Option<map<string, string>>)

  ghost predicate EndpointOk(reg: Registry, use: EndpointUse) {
    && reg.endpoints.Some? && use.id in reg.endpoints.value
    && (use.kind.Some? ==> reg.endpoints.value[use.id] == use.kind.value)
  }

  ghost predicate AllIn(ids: seq<string>, known: set<string>) {
    forall k :: 0 <= k < |ids| ==> ids[k] in known
  }

  /** What is asked of a node on its own: a known op, valid parameters, and existing table entries and endpoints. */
  ghost predicate NodeOk<V>(reg: Registry, plan: Plan<V>, node: PlanNode<V>) {
    && node.op in reg.ops && node.paramsValid
    && AllIn(node.exprIds, plan.exprTable) && AllIn(node.predIds, plan.predTable)
    && forall k :: 0 <= k < |node.endpoints| ==> EndpointOk(reg, node.endpoints[k])
  }

  ghost predicate NodesOk<V>(reg: Registry, plan: Plan<V>) {
    AllIn(plan.capabilities, reg.capabilities) && forall i :: 0 <= i < |plan.nodes| ==> NodeOk(reg, plan, plan.nodes[i])
  }

  ghost predicate DistinctIds<V>(plan: Plan<V>) {
    forall i, j :: 0 <= i < j < |plan.nodes| ==> plan.nodes[i].id != plan.nodes[j].id
  }

  ghost predicate Names<V>(plan: Plan<V>, id: string) {
    exists i :: 0 <= i < |plan.nodes| && plan.nodes[i].id == id
  }

  ghost predicate AllNamed<V>(plan: Plan<V>, ids: seq<string>) {
    forall k :: 0 <= k < |ids| ==> Names(plan, ids[k])
  }

  ghost predicate ReferencesExist<V>(plan: Plan<V>) {
    && (forall i :: 0 <= i < |plan.nodes| ==> AllNamed(plan, plan.nodes[i].inputs) && AllNamed(plan, plan.nodes[i].refs))
    && AllNamed(plan, plan.outputs)
  }

  /** The `node_index` table. */
  ghost predicate IsIndex<V>(plan: Plan<V>, index: map<string, nat>) {
    && (forall i :: 0 <= i < |plan.nodes| ==> plan.nodes[i].id in index && index[plan.nodes[i].id] == i)
    && forall id :: id in index ==> index[id] < |plan.nodes| && plan.nodes[index[id]].id == id
  }

  function Lookup(index: map<string, nat>, ids: seq<string>): (r: seq<nat>)
    requires forall k :: 0 <= k < |ids| ==> ids[k] in index
    ensures |r| == |ids|
  {
    seq(|ids|, k requires 0 <= k < |ids| => index[ids[k]])
  }

  predicate Resolvable<V>(plan: Plan<V>, index: map<string, nat>) {
    && (forall i, k :: 0 <= i < |plan.nodes| && 0 <= k < |plan.nodes[i].inputs| ==> plan.nodes[i].inputs[k] in index)
    && (forall i, k :: 0 <= i < |plan.nodes| && 0 <= k < |plan.nodes[i].refs| ==> plan.nodes[i].refs[k] in index)
    && (forall k :: 0 <= k < |plan.outputs| ==> plan.outputs[k] in index)
  }

  /** The plan with every id replaced by its index. */
  function Resolve<V>(plan: Plan<V>, index: map<string, nat>): (p: Dag<V>)
    requires Resolvable(plan, index)
    ensures |p| == |plan.nodes|
  {
    seq(|plan.nodes|, i requires 0 <= i < |plan.nodes| =>
      DagNode(Lookup(index, plan.nodes[i].inputs), Lookup(index, plan.nodes[i].refs), plan.nodes[i].run))
  }

  /** Node `i` keeps its task, and its inputs and refs are the nodes it names, in the order in which it names them. */
  lemma ResolveMeans<V>(plan: Plan<V>, index: map<string, nat>, i: nat)
    requires Resolvable(plan, index) && IsIndex(plan, index) && i < |plan.nodes|
    ensures var node, named := Resolve(plan, index)[i], plan.nodes[i];
      && node.run == named.run && |node.inputs| == |named.inputs| && |node.refs| == |named.refs|
      && (forall k :: 0 <= k < |node.inputs| ==> node.inputs[k] < |plan.nodes| && plan.nodes[node.inputs[k]].id == named.inputs[k])
      && (forall k :: 0 <= k < |node.refs| ==> node.refs[k] < |plan.nodes| && plan.nodes[node.refs[k]].id == named.refs[k])
  {
  }

  lemma ResolveClosed<V>(plan: Plan<V>, index: map<string, nat>)
    requires Resolvable(plan, index) && IsIndex(plan, index)
    ensures Closed(Deps(Resolve(plan, index)))
    ensures Below(Lookup(index, plan.outputs), |plan.nodes|)
  {}

  /** Version 1, distinct ids, no dangling reference, and no dependency cycle. */
  ghost predicate WellFormed<V>(plan: Plan<V>, index: map<string, nat>) {
    && plan.schemaVersion == 1
    && DistinctIds(plan)
    && ReferencesExist(plan)
    && IsIndex(plan, index)
    && Resolvable(plan, index)
    && !HasCycle(Deps(Resolve(plan, index)))
  }

  /** A well-formed plan means something, and one thing only. */
  lemma WellFormedHasMeaning<V>(plan: Plan<V>, index: map<string, nat>) returns (m: seq<Result<V>>)
    requires WellFormed(plan, index)
    ensures Acyclic(Deps(Resolve(plan, index)))
    ensures IsMeaning(Resolve(plan, index), m)
    ensures forall m' :: IsMeaning(Resolve(plan, index), m') ==> m' == m
  {
    ResolveClosed(plan, index);
    var p := Resolve(plan, index);
    m := MeaningExists(p);
    forall m' | IsMeaning(p, m') ensures m' == m { MeaningUnique(p, m, m'); }
  }

  method CheckNamed(index: map<string, nat>, ids: seq<string>) returns (ok: bool)
    ensures ok <==> forall k :: 0 <= k < |ids| ==> ids[k] in index
  {
    var k := 0;
    while k < |ids|
      invariant 0 <= k <= |ids|
      invariant forall j :: 0 <= j < k ==> ids[j] in index
    {
      if ids[k] !in index { return false; }
      k := k + 1;
    }
    return true;
  }

  method BuildNodeIndex<V>(plan: Plan<V>) returns (r: Result<map<string, nat>>)
    ensures r.Ok? <==> DistinctIds(plan)
    ensures r.Ok? ==> IsIndex(plan, r.value)
  {
    var index: map<string, nat> := map[];
    var i := 0;
    while i < |plan.nodes|
      invariant 0 <= i <= |plan.nodes|
      invariant forall j :: 0 <= j < i ==> plan.nodes[j].id in index && index[plan.nodes[j].id] == j
      invariant forall id :: id in index ==> index[id] < i && plan.nodes[index[id]].id == id
    {
      if plan.nodes[i].id in index { return Err("Duplicate node_id"); }
      index := index[plan.nodes[i].id := i];
      i := i + 1;
    }
    return Ok(index);
  }

  method CheckReferences<V>(plan: Plan<V>, index: map<string, nat>) returns (r: Result<bool>)
    ensures r.Ok? <==> Resolvable(plan, index)
  {
    var i := 0;
    while i < |plan.nodes|
      invariant 0 <= i <= |plan.nodes|
      invariant forall j, k :: 0 <= j < i && 0 <= k < |plan.nodes[j].inputs| ==> plan.nodes[j].inputs[k] in index
      invariant forall j, k :: 0 <= j < i && 0 <= k < |plan.nodes[j].refs| ==> plan.nodes[j].refs[k] in index
    {
      var ok := CheckNamed(index, plan.nodes[i].inputs);
      if !ok { return Err("references missing input"); }
      ok := CheckNamed(index, plan.nodes[i].refs);
      if !ok { return Err("references missing node"); }
      i := i + 1;
    }
    var ok := CheckNamed(index, plan.outputs);
    if !ok { return Err("Output references missing node"); }
    return Ok(true);
  }

  method CheckIn(ids: seq<string>, known: set<string>) returns (ok: bool)
    ensures ok <==> AllIn(ids, known)
  {
    var k := 0;
    while k < |ids|
      invariant 0 <= k <= |ids|
      invariant forall j :: 0 <= j < k ==> ids[j] in known
    {
      if ids[k] !in known { return false; }
      k := k + 1;
    }
    return true;
  }

  method CheckEndpoints(reg: Registry, uses: seq<EndpointUse>) returns (ok: bool)
    ensures ok <==> forall k :: 0 <= k < |uses| ==> EndpointOk(reg, uses[k])
  {
    var k := 0;
    while k < |uses|
      invariant 0 <= k <= |uses|
      invariant forall j :: 0 <= j < k ==> EndpointOk(reg, uses[j])
    {
      var use := uses[k];
      var found := reg.endpoints.Some? && use.id in reg.endpoints.value;
      if !found || (use.kind.Some? && reg.endpoints.value[use.id] != use.kind.value) {
        assert !EndpointOk(reg, uses[k]);
        return false;
      }
      k := k + 1;
    }
    return true;
  }

  method CheckNodes<V>(reg: Registry, plan: Plan<V>) returns (r: Result<bool>)
    ensures r.Ok? <==> NodesOk(reg, plan)
  {
    var ok := CheckIn(plan.capabilities, reg.capabilities);
    if !ok { return Err("unsupported capability required by plan"); }
    var i := 0;
    while i < |plan.nodes|
      invariant 0 <= i <= |plan.nodes|
      invariant forall j :: 0 <= j < i ==> NodeOk(reg, plan, plan.nodes[j])
    {
      var node := plan.nodes[i];
      if node.op !in reg.ops { return Err("Unknown op"); }
      if !node.paramsValid { return Err("invalid params"); }
      ok := CheckIn(node.exprIds, plan.exprTable);
      if !ok { return Err("expr_id not found in expr_table"); }
      ok := CheckIn(node.predIds, plan.predTable);
      if !ok { return Err("pred_id not found in pred_table"); }
      ok := CheckEndpoints(reg, node.endpoints);
      if !ok { return Err("endpoint not usable"); }
      i := i + 1;
    }
    return Ok(true);
  }

  /**
   The plan check. It accepts exactly the well-formed plans whose nodes are each in order, whatever
   order the hash map hands the nodes to Kahn's algorithm in.
   */
  method ValidatePlan<V>(plan: Plan<V>, reg: Registry, scan: seq<nat>) returns (r: Result<map<string, nat>>)
    requires IsPermutation(scan, |plan.nodes|)
    ensures r.Ok? ==> WellFormed(plan, r.value) && NodesOk(reg, plan)
    ensures r.Err? ==> forall index :: !(WellFormed(plan, index) && NodesOk(reg, plan))
  {
    if plan.schemaVersion != 1 { return Err("Unsupported schema_version"); }
    var built := BuildNodeIndex(plan);
    if built.Err? { return Err(built.error); }
    var index := built.value;
    IndexUnique(plan, index);
    var inOrder := CheckNodes(reg, plan);
    if inOrder.Err? { return Err(inOrder.error); }
    var checked := CheckReferences(plan, index);
    if checked.Err? { return Err(checked.error); }
    ResolvableIffNamed(plan, index);
    ResolveClosed(plan, index);
    var topo := KahnOrder(Deps(Resolve(plan, index)), scan);
    if |topo| != |plan.nodes| { return Err("Plan contains a cycle"); }
    return Ok(index);
  }

  lemma ResolvableIffNamed<V>(plan: Plan<V>, index: map<string, nat>)
    requires IsIndex(plan, index)
    ensures Resolvable(plan, index) <==> ReferencesExist(plan)
  {
    NamedIffIndexed(plan, index);
    if ReferencesExist(plan) {
      forall i, k | 0 <= i < |plan.nodes| && 0 <= k < |plan.nodes[i].inputs| ensures plan.nodes[i].inputs[k] in index {
        assert AllNamed(plan, plan.nodes[i].inputs);
      }
      forall i, k | 0 <= i < |plan.nodes| && 0 <= k < |plan.nodes[i].refs| ensures plan.nodes[i].refs[k] in index {
        assert AllNamed(plan, plan.nodes[i].refs);
      }
    }
  }

  lemma NamedIffIndexed<V>(plan: Plan<V>, index: map<string, nat>)
    requires IsIndex(plan, index)
    ensures forall id :: Names(plan, id) <==> id in index
  {
    forall id ensures Names(plan, id) <==> id in index {
      if Names(plan, id) { var i :| 0 <= i < |plan.nodes| && plan.nodes[i].id == id; }
    }
  }

  lemma IndexUnique<V>(plan: Plan<V>, index: map<string, nat>)
    requires IsIndex(plan, index)
    ensures forall index' :: IsIndex(plan, index') ==> index' == index
  {
    forall index' | IsIndex(plan, index') ensures index' == index {
      NamedIffIndexed(plan, index);
      NamedIffIndexed(plan, index');
      assert forall id :: id in index <==> Names(plan, id);
      assert forall id :: id in index' <==> Names(plan, id);
      assert index.Keys == index'.Keys;
      forall id | id in index ensures index'[id] == index[id] {
        assert plan.nodes[index[id]].id == id;
      }
    }
  }

  /**
   The sequential executor, for every order the hash map may hand out: it returns the meaning of
   the plan, or the error of a node that failed itself.
   */
  method ExecuteSequential<V>(plan: Plan<V>, index: map<string, nat>, scan: seq<nat>, outputs: seq<nat>, ghost m: seq<Result<V>>)
    returns (r: Result<seq<V>>)
    requires WellFormed(plan, index) && IsPermutation(scan, |plan.nodes|)
    requires IsMeaning(Resolve(plan, index), m) && Below(outputs, |plan.nodes|)
    ensures Agrees(Resolve(plan, index), m, outputs, r)
  {
    var p := Resolve(plan, index);
    ResolveClosed(plan, index);
    var topo := KahnOrder(Deps(p), scan);
    AllBelow(topo, |p|);
    var results: seq<Option<V>> := seq(|p|, _ => None);
    var k := 0;
    while k < |topo|
      invariant 0 <= k <= |topo|
      invariant Sound(m, results)
      invariant forall i :: 0 <= i < |p| ==> (results[i].Some? <==> i in topo[..k])
    {
      var i := topo[k];
      assert topo[..k+1] == topo[..k] + [i];
      MissingZero(Deps(p)[i], Done(results));
      RunIsMeaning(p, m, results, i);
      var output := p[i].run(Gather(results, p[i].inputs), Gather(results, p[i].refs));
      if output.Err? {
        assert FailsItself(p, m, i, output.error);
        return Err(output.error);
      }
      results := results[i := Some(output.value)];
      k := k + 1;
    }
    assert topo[..k] == topo;
    AllPresent(m, results, outputs);
    return Ok(Gather(results, outputs));
  }
}
