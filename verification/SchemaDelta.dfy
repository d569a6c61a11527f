/**
 Which columns a node adds and removes, observed at run time, against what it declared.
 */
module SchemaDelta {
  import opened Wrappers
  import opened DependencyGraph
  import opened PlanMeaning
  import opened KeySets
  import opened RowSets
  import opened Sorting
  import RowTasks
  import Concat
  import ColumnTasks
  import WritesEffect

  // ---------------------------------------------------------------------------------------
  // Columns of a batch

  function Columns(b: Batch): set<nat> { b.floats.Keys + b.strings.Keys }

  function ColumnsOfAll(inputs: seq<RowSet>): set<nat> {
    if inputs == [] then {} else ColumnsOfAll(inputs[..|inputs|-1]) + Columns(inputs[|inputs|-1].batch)
  }

  lemma {:induction false} ColumnsOfAllMean(inputs: seq<RowSet>, k: nat)
    ensures k in ColumnsOfAll(inputs) <==> exists i :: 0 <= i < |inputs| && k in Columns(inputs[i].batch)
  {
    if inputs != [] {
      var init := inputs[..|inputs|-1];
      ColumnsOfAllMean(init, k);
      if k in ColumnsOfAll(init) {
        var i :| 0 <= i < |init| && k in Columns(init[i].batch);
        assert inputs[i] == init[i];
      }
      if i: nat :| i < |inputs| - 1 && k in Columns(inputs[i].batch) {
        assert init[i] == inputs[i];
      }
    }
  }

  /** `std::unique` and `erase`. */
  method EraseRepeats(sorted: seq<nat>) returns (keys: seq<nat>)
    requires NonDescending(sorted)
    ensures Ascending(keys) && forall k :: k in keys <==> k in sorted
  {
    keys := [];
    var i := 0;
    while i < |sorted|
      invariant 0 <= i <= |sorted| && Ascending(keys) && forall k :: k in keys <==> k in sorted[..i]
      invariant (keys == [] <==> i == 0) && (i > 0 ==> keys[|keys|-1] == sorted[i-1])
    {
      assert sorted[..i+1] == sorted[..i] + [sorted[i]];
      if keys == [] || keys[|keys|-1] != sorted[i] {
        assert i > 0 ==> sorted[i-1] <= sorted[i];
        keys := keys + [sorted[i]];
      }
      i := i + 1;
    }
    assert sorted[..i] == sorted;
  }

  /** `collect_keys`: the keys of both kinds of columns, sorted, without repeats. */
  method CollectKeys(b: Batch) returns (keys: seq<nat>)
    ensures keys == SortedKeys(Columns(b))
  {
    var floats, strings := SortedKeys(b.floats.Keys), SortedKeys(b.strings.Keys);
    keys := EraseRepeats(SortAll(floats + strings));
    hide SortedKeys;
    forall k ensures k in Elems(keys) <==> k in Columns(b) {
      assert k in b.floats.Keys <==> k in Elems(floats);
      assert k in b.strings.Keys <==> k in Elems(strings);
    }
    AscendingUnique(keys, SortedKeys(Columns(b)));
  }

  // ---------------------------------------------------------------------------------------
  // The delta of one node

  datatype Delta = Delta(inKeys: seq<nat>, outKeys: seq<nat>, newKeys: seq<nat>, removedKeys: seq<nat>)

  /** `std::set_union` and `std::set_difference` on ascending lists. */
  function UnionKeys(a: seq<nat>, b: seq<nat>): seq<nat> { SortedKeys(Elems(a) + Elems(b)) }

  function SetDiff(a: seq<nat>, b: seq<nat>): seq<nat> { SortedKeys(Elems(a) - Elems(b)) }

  /** What was added and what was removed, as sets of columns. */
  function DeltaOf(inputs: seq<RowSet>, output: RowSet): Delta {
    var before, after := ColumnsOfAll(inputs), Columns(output.batch);
    Delta(SortedKeys(before), SortedKeys(after), SortedKeys(after - before), SortedKeys(before - after))
  }

  ghost predicate HasColumn(rs: RowSet, k: nat) { k in rs.batch.floats || k in rs.batch.strings }

  ghost predicate SomeHasColumn(inputs: seq<RowSet>, k: nat) {
    exists i :: 0 <= i < |inputs| && HasColumn(inputs[i], k)
  }

  /** The four lists told by columns: what the inputs have, what the output has, what only it has, and what it lacks. */
  ghost predicate TellsColumns(inputs: seq<RowSet>, output: RowSet, d: Delta) {
    && Ascending(d.inKeys) && Ascending(d.outKeys) && Ascending(d.newKeys) && Ascending(d.removedKeys)
    && (forall k :: k in d.inKeys <==> SomeHasColumn(inputs, k))
    && (forall k :: k in d.outKeys <==> HasColumn(output, k))
    && (forall k :: k in d.newKeys <==> HasColumn(output, k) && !SomeHasColumn(inputs, k))
    && (forall k :: k in d.removedKeys <==> SomeHasColumn(inputs, k) && !HasColumn(output, k))
  }

  lemma ListedIff(s: set<nat>, k: nat)
    ensures k in SortedKeys(s) <==> k in s
  {
    assert k in SortedKeys(s) <==> k in Elems(SortedKeys(s));
  }

  lemma ColumnsAreKeys(inputs: seq<RowSet>, output: RowSet, k: nat)
    ensures k in ColumnsOfAll(inputs) <==> SomeHasColumn(inputs, k)
    ensures k in Columns(output.batch) <==> HasColumn(output, k)
  {
    ColumnsOfAllMean(inputs, k);
    hide ColumnsOfAll;
    assert forall i :: 0 <= i < |inputs| ==> (k in Columns(inputs[i].batch) <==> HasColumn(inputs[i], k));
  }

  lemma DeltaTellsColumns(inputs: seq<RowSet>, output: RowSet)
    ensures TellsColumns(inputs, output, DeltaOf(inputs, output))
  {
    var before, after := ColumnsOfAll(inputs), Columns(output.batch);
    hide SortedKeys, Elems, Columns, ColumnsOfAll, HasColumn, SomeHasColumn;
    forall k
      ensures k in before <==> SomeHasColumn(inputs, k)
      ensures k in after <==> HasColumn(output, k)
      ensures k in SortedKeys(before) <==> k in before
      ensures k in SortedKeys(after) <==> k in after
      ensures k in SortedKeys(after - before) <==> k in after - before
      ensures k in SortedKeys(before - after) <==> k in before - after
    {
      ColumnsAreKeys(inputs, output, k);
      ListedIff(before, k);
      ListedIff(after, k);
      ListedIff(after - before, k);
      ListedIff(before - after, k);
    }
  }

  method ComputeSchemaDelta(inputs: seq<RowSet>, output: RowSet) returns (d: Delta)
    ensures d == DeltaOf(inputs, output) && TellsColumns(inputs, output, d)
  {
    DeltaTellsColumns(inputs, output);
    hide SortedKeys, Elems, Columns;
    var inKeys := [];
    if inputs == [] {
      assert Elems(SortedKeys({})) == {};
      EmptyKeys();
    } else if |inputs| == 1 {
      inKeys := CollectKeys(inputs[0].batch);
      OneInput(inputs);
    } else if |inputs| == 2 {
      var lhs := CollectKeys(inputs[0].batch);
      var rhs := CollectKeys(inputs[1].batch);
      inKeys := UnionKeys(lhs, rhs);
      OneInput(inputs[..1]);
      assert inputs[..|inputs|-1] == inputs[..1];
    } else {
      EmptyKeys();
      var i := 0;
      while i < |inputs|
        invariant 0 <= i <= |inputs| && inKeys == SortedKeys(ColumnsOfAll(inputs[..i]))
      {
        var keys := CollectKeys(inputs[i].batch);
        assert inputs[..i+1][..i] == inputs[..i];
        inKeys := UnionKeys(inKeys, keys);
        i := i + 1;
      }
      assert inputs[..i] == inputs;
    }
    var outKeys := CollectKeys(output.batch);
    d := Delta(inKeys, outKeys, SetDiff(outKeys, inKeys), SetDiff(inKeys, outKeys));
  }

  lemma EmptyKeys()
    ensures SortedKeys({}) == []
  {
  }

  lemma OneInput(inputs: seq<RowSet>)
    requires |inputs| == 1
    ensures ColumnsOfAll(inputs) == Columns(inputs[0].batch)
  {
    assert ColumnsOfAll(inputs[..0]) == {};
  }

  /**
   The executor's choice for one node. `samePointer` is the comparison of batch pointers; a batch
   is immutable, so equal pointers mean equal batches. The short cut gives the same delta.
   */
  method NodeDelta(inputs: seq<RowSet>, output: RowSet, samePointer: bool) returns (d: Delta)
    requires samePointer && |inputs| == 1 ==> inputs[0].batch == output.batch
    ensures d == DeltaOf(inputs, output) && TellsColumns(inputs, output, d)
  {
    DeltaTellsColumns(inputs, output);
    hide TellsColumns;
    if |inputs| == 1 && samePointer {
      var keys := CollectKeys(inputs[0].batch);
      d := Delta(keys, keys, [], []);
      OneInput(inputs);
      EmptyKeys();
    } else {
      d := ComputeSchemaDelta(inputs, output);
    }
  }

  // ---------------------------------------------------------------------------------------
  // What the tasks add

  lemma ViewTasksAddNothing(env: RowTasks.Env, input: RowSet, op: RowTasks.Op, output: RowSet)
    requires RowTasks.Refines(input, Ok(output), RowTasks.ListOp(env, input.batch, Active(input), op))
    ensures DeltaOf([input], output).newKeys == [] && DeltaOf([input], output).removedKeys == []
  {
    OneInput([input]);
    EmptyKeys();
  }

  /** A vm run that writes a key its input lacks reports exactly that key. */
  lemma VmAddsItsKey(input: RowSet, out: RowSet, key: nat, cell: ColumnTasks.Cell)
    requires ColumnTasks.IsVm(input, out, key, cell)
    ensures DeltaOf([input], out).newKeys == (if HasColumn(input, key) then [] else [key])
    ensures DeltaOf([input], out).removedKeys == []
  {
    OneInput([input]);
    EmptyKeys();
    hide SortedKeys;
    assert out.batch.floats.Keys == input.batch.floats.Keys + {key};
    var added := Columns(out.batch) - ColumnsOfAll([input]);
    assert added == if HasColumn(input, key) then {} else {key};
    assert Elems([key]) == {key};
    if !HasColumn(input, key) { AscendingUnique(SortedKeys(added), [key]); }
    assert ColumnsOfAll([input]) - Columns(out.batch) == {};
  }

  lemma ConcatAddsNothing(out: RowSet, lhs: RowSet, rhs: RowSet)
    requires WellFormed(lhs) && WellFormed(rhs) && Concat.IsConcat(out, lhs, rhs)
    ensures DeltaOf([lhs, rhs], out).newKeys == [] && DeltaOf([lhs, rhs], out).removedKeys == []
  {
    OneInput([lhs]);
    assert [lhs, rhs][..1] == [lhs];
    assert ColumnsOfAll([lhs, rhs]) == Columns(lhs.batch) + Columns(rhs.batch);
    EmptyKeys();
    hide SortedKeys;
    assert Columns(out.batch) == ColumnsOfAll([lhs, rhs]);
  }

  // ---------------------------------------------------------------------------------------
  // What a node declares

  /** A node's part in the writes contract: its task's static and dynamic writes, and its own parameters. */
  datatype Declared = Declared(
    writes: seq<nat>, dynamic: Option<WritesEffect.Expr>, ints: map<string, int>, strings: map<string, string>, concatDense: bool)

  /** The effect `validate_plan` evaluates for the node. */
  function EffectOf(d: Declared): WritesEffect.Effect {
    WritesEffect.Eval(WritesEffect.EffectiveWrites(d.writes, d.dynamic), WritesEffect.Bindings(d.ints, d.strings))
  }

  /** `validate_plan` on one node: bindings, effective writes, evaluation. */
  method EvaluateNode(d: Declared) returns (effect: WritesEffect.Effect)
    ensures effect == EffectOf(d)
  {
    var gamma := WritesEffect.BuildParamBindings(d.ints, d.strings);
    effect := WritesEffect.EvalWrites(WritesEffect.EffectiveWrites(d.writes, d.dynamic), gamma);
  }

  // ---------------------------------------------------------------------------------------
  // Tasks, their declarations and their behaviour

  datatype Env = Env(rows: RowTasks.Env, vm: ColumnTasks.VmEnv)

  /** A node's task with its parameters. `Other` is a task whose code is not modelled. */
  datatype Kind =
    | FixedSource(rowCount: int)
    | View(op: RowTasks.Op)
    | ConcatRhs
    | Vm(outKey: int, exprId: string)
    | Other(declared: Declared)

  function DeclaredBy(kind: Kind): Declared {
    match kind
    case FixedSource(rowCount) => Declared([], None, map["row_count" := rowCount], map[], false)
    case View(Filter(predId)) => Declared([], None, map[], map["pred_id" := predId], false)
    case View(Sort(key, order)) => Declared([], None, map["by" := key], if order.Some? then map["order" := order.value] else map[], false)
    case View(Take(count)) => Declared([], None, map["count" := count], map[], false)
    case ConcatRhs => Declared([], None, map[], map[], true)
    case Vm(outKey, exprId) =>
      Declared([], Some(WritesEffect.FromParam("out_key")), map["out_key" := outKey], map["expr_id" := exprId], false)
    case Other(d) => d
  }

  /** Filter, sort, take, concat and the fixed source declare no writes; vm declares its output key. */
  lemma DeclaredEffects(kind: Kind)
    ensures kind.FixedSource? || kind.View? || kind.ConcatRhs? ==> EffectOf(DeclaredBy(kind)) == WritesEffect.Exact([])
    ensures !kind.Other? ==> (DeclaredBy(kind).concatDense <==> kind.ConcatRhs?)
    ensures kind.Vm? && kind.outKey > 0 ==> EffectOf(DeclaredBy(kind)) == WritesEffect.Exact([kind.outKey % 0x1_0000_0000])
  {
    var d := DeclaredBy(kind);
    if kind.Vm? && kind.outKey > 0 {
      var gamma := WritesEffect.Bindings(d.ints, d.strings);
      assert "out_key" in gamma && gamma["out_key"] == WritesEffect.KeyId(kind.outKey % 0x1_0000_0000);
    } else if !kind.Vm? && !kind.Other? {
      EmptyKeys();
      assert Elems([]) == {};
    }
  }

  /** `contract_inputs`: the inputs, and the right-hand side of a concat. */
  function ContractInputs<V>(inputs: seq<V>, refs: seq<V>, concatDense: bool): seq<V> {
    if concatDense && refs != [] then inputs + [refs[0]] else inputs
  }

  ghost predicate AllWellFormed(inputs: seq<RowSet>) {
    forall i :: 0 <= i < |inputs| ==> WellFormed(inputs[i])
  }

  /** What a run of the task on well-formed inputs returns, when it returns. */
  ghost predicate Returns(env: Env, kind: Kind, ins: seq<RowSet>, refs: seq<RowSet>, out: RowSet)
    requires AllWellFormed(ins) && AllWellFormed(refs)
  {
    match kind
    case FixedSource(rowCount) => ColumnTasks.IsFixedSource(out, rowCount)
    case View(op) => |ins| == 1 && RowTasks.Refines(ins[0], Ok(out), RowTasks.ListOp(env.rows, ins[0].batch, Active(ins[0]), op))
    case ConcatRhs => |ins| == 1 && refs != [] && Concat.IsConcat(out, ins[0], refs[0])
    case Vm(outKey, exprId) =>
      && |ins| == 1 && outKey > 0 && env.vm.exprs.Some? && exprId in env.vm.exprs.value
      && ColumnTasks.IsVm(ins[0], out, outKey % 0x1_0000_0000, ColumnTasks.CellOf(env.vm.exprs.value[exprId], ins[0].batch, env.vm.ctx))
    case Other(d) =>
      && WellFormed(out)
      && (!EffectOf(d).Unknown? ==>
            Columns(out.batch) <= ColumnsOfAll(ContractInputs(ins, refs, d.concatDense)) + Elems(EffectOf(d).keys))
  }

  /** The modelled tasks behave so. `rhs` is the resolved NodeRef of concat. */
  method RunTask(env: Env, kind: Kind, ins: seq<RowSet>, refs: seq<RowSet>) returns (r: Result<RowSet>)
    requires AllWellFormed(ins) && AllWellFormed(refs) && !kind.Other?
    ensures r.Ok? ==> Returns(env, kind, ins, refs, r.value)
  {
    match kind
    case FixedSource(rowCount) => r := ColumnTasks.RunFixedSource(ins, rowCount);
    case View(Filter(predId)) => r := RowTasks.RunFilter(env.rows, ins, predId);
    case View(Sort(key, order)) => r := RowTasks.RunSort(env.rows, ins, key, order);
    case View(Take(count)) => r := RowTasks.RunTake(env.rows, ins, count);
    case ConcatRhs => r := Concat.RunConcat(ins, if refs == [] then None else Some(refs[0]));
    case Vm(outKey, exprId) => r := ColumnTasks.RunVm(env.vm, ins, outKey, exprId);
  }

  /** Whatever the task: its output is well-formed, and adds at most the columns of its evaluated effect. */
  lemma AddsAtMostDeclared(env: Env, kind: Kind, ins: seq<RowSet>, refs: seq<RowSet>, out: RowSet)
    requires AllWellFormed(ins) && AllWellFormed(refs) && Returns(env, kind, ins, refs, out)
    ensures WellFormed(out)
    ensures var d := DeclaredBy(kind); !EffectOf(d).Unknown? ==>
      Columns(out.batch) <= ColumnsOfAll(ContractInputs(ins, refs, d.concatDense)) + Elems(EffectOf(d).keys)
  {
    hide SortedKeys;
    DeclaredEffects(kind);
    match kind
    case FixedSource(_) => assert Columns(out.batch) == {};
    case View(_) => OneInput(ins);
    case ConcatRhs =>
      var both := ContractInputs(ins, refs, true);
      assert both == [ins[0], refs[0]] && both[..1] == [ins[0]];
      OneInput([ins[0]]);
      assert ColumnsOfAll(both) == Columns(ins[0].batch) + Columns(refs[0].batch);
    case Vm(outKey, _) =>
      OneInput(ins);
      var key := outKey % 0x1_0000_0000;
      assert out.batch.floats.Keys == ins[0].batch.floats.Keys + {key};
      assert key in Elems([key]);
    case Other(_) =>
  }

  // ---------------------------------------------------------------------------------------
  // Over a whole run

  /** Each node runs the task named by its kind; of a task that is not modelled, its declaration is assumed. */
  ghost predicate RunsTasks(p: Dag<RowSet>, env: Env, kinds: seq<Kind>) {
    && |kinds| == |p|
    && forall i :: 0 <= i < |p| ==> Does(p[i], env, kinds[i])
  }

  ghost predicate Does(node: DagNode<RowSet>, env: Env, kind: Kind) {
    forall ins, refs :: AllWellFormed(ins) && AllWellFormed(refs) && node.run(ins, refs).Ok? ==>
      Returns(env, kind, ins, refs, node.run(ins, refs).value)
  }

  lemma OkRan(p: Dag<RowSet>, m: seq<Result<RowSet>>, i: nat)
    requires IsMeaning(p, m) && i < |p| && m[i].Ok?
    ensures AllOk(m, p[i].inputs) && AllOk(m, p[i].refs)
    ensures m[i] == p[i].run(Values(m, p[i].inputs), Values(m, p[i].refs))
  {
    assert m[i] == Apply(p, m, i);
  }

  /** Every result of a run is well-formed. */
  lemma {:induction false} ResultWellFormed(p: Dag<RowSet>, m: seq<Result<RowSet>>, env: Env, kinds: seq<Kind>, rank: seq<nat>, i: nat)
    requires IsMeaning(p, m) && RunsTasks(p, env, kinds) && Ranked(Deps(p), rank) && i < |p| && m[i].Ok?
    ensures WellFormed(m[i].value)
    decreases rank[i]
  {
    OkRan(p, m, i);
    InputsWellFormed(p, m, env, kinds, rank, i);
    assert Does(p[i], env, kinds[i]);
    hide Returns, Does, Apply;
    AddsAtMostDeclared(env, kinds[i], Values(m, p[i].inputs), Values(m, p[i].refs), m[i].value);
  }

  lemma InputsWellFormed(p: Dag<RowSet>, m: seq<Result<RowSet>>, env: Env, kinds: seq<Kind>, rank: seq<nat>, i: nat)
    requires IsMeaning(p, m) && RunsTasks(p, env, kinds) && Ranked(Deps(p), rank) && i < |p|
    requires AllOk(m, p[i].inputs) && AllOk(m, p[i].refs)
    ensures AllWellFormed(Values(m, p[i].inputs)) && AllWellFormed(Values(m, p[i].refs))
    decreases rank[i], 0
  {
    hide IsMeaning, RunsTasks, WellFormed;
    forall k | 0 <= k < |p[i].inputs| ensures WellFormed(m[p[i].inputs[k]].value) {
      assert Deps(p)[i][k] == p[i].inputs[k];
      ResultWellFormed(p, m, env, kinds, rank, p[i].inputs[k]);
    }
    forall k | 0 <= k < |p[i].refs| ensures WellFormed(m[p[i].refs[k]].value) {
      assert Deps(p)[i][|p[i].inputs| + k] == p[i].refs[k];
      ResultWellFormed(p, m, env, kinds, rank, p[i].refs[k]);
    }
  }

  ghost function InputsOf(p: Dag<RowSet>, m: seq<Result<RowSet>>, kinds: seq<Kind>, i: nat): seq<RowSet>
    requires |kinds| == |p| && i < |p| && AllOk(m, p[i].inputs) && AllOk(m, p[i].refs)
  {
    ContractInputs(Values(m, p[i].inputs), Values(m, p[i].refs), DeclaredBy(kinds[i]).concatDense)
  }

  /** In a run, a node's columns are those of its inputs and those of its evaluated effect. */
  lemma NodeAdds(p: Dag<RowSet>, m: seq<Result<RowSet>>, env: Env, kinds: seq<Kind>, i: nat)
    requires Acyclic(Deps(p)) && IsMeaning(p, m) && RunsTasks(p, env, kinds) && i < |p| && m[i].Ok?
    requires !EffectOf(DeclaredBy(kinds[i])).Unknown?
    ensures AllOk(m, p[i].inputs) && AllOk(m, p[i].refs)
    ensures Columns(m[i].value.batch) <= ColumnsOfAll(InputsOf(p, m, kinds, i)) + Elems(EffectOf(DeclaredBy(kinds[i])).keys)
  {
    var rank := AcyclicIsRanked(Deps(p));
    OkRan(p, m, i);
    InputsWellFormed(p, m, env, kinds, rank, i);
    assert Does(p[i], env, kinds[i]);
    hide Returns, Does, Apply;
    AddsAtMostDeclared(env, kinds[i], Values(m, p[i].inputs), Values(m, p[i].refs), m[i].value);
  }

  /**
   The keys a node was seen to add are among the keys evaluated for it at validation. For plans of
   the modelled tasks nothing is assumed of any task.
   */
  lemma NewKeysDeclared(p: Dag<RowSet>, m: seq<Result<RowSet>>, env: Env, kinds: seq<Kind>, i: nat)
    requires Acyclic(Deps(p)) && IsMeaning(p, m) && RunsTasks(p, env, kinds) && i < |p| && m[i].Ok?
    requires !EffectOf(DeclaredBy(kinds[i])).Unknown?
    ensures AllOk(m, p[i].inputs) && AllOk(m, p[i].refs)
    ensures Elems(DeltaOf(InputsOf(p, m, kinds, i), m[i].value).newKeys) <= Elems(EffectOf(DeclaredBy(kinds[i])).keys)
  {
    NodeAdds(p, m, env, kinds, i);
    hide SortedKeys, EffectOf, Columns, ColumnsOfAll;
  }

  /** A column the node did not declare came from a dependency that has it. */
  lemma FromDependency(p: Dag<RowSet>, m: seq<Result<RowSet>>, env: Env, kinds: seq<Kind>, i: nat, k: nat) returns (at: nat)
    requires Acyclic(Deps(p)) && IsMeaning(p, m) && RunsTasks(p, env, kinds) && i < |p| && m[i].Ok?
    requires !EffectOf(DeclaredBy(kinds[i])).Unknown?
    requires k in Columns(m[i].value.batch) && k !in Elems(EffectOf(DeclaredBy(kinds[i])).keys)
    ensures at < |Deps(p)[i]|
    ensures var dep := Deps(p)[i][at]; dep < |p| && m[dep].Ok? && k in Columns(m[dep].value.batch)
  {
    NodeAdds(p, m, env, kinds, i);
    hide SortedKeys, Columns, EffectOf, DeclaredBy, RunsTasks, Acyclic, IsMeaning;
    var inputs := InputsOf(p, m, kinds, i);
    ColumnsOfAllMean(inputs, k);
    hide ColumnsOfAll;
    var j: nat :| j < |inputs| && k in Columns(inputs[j].batch);
    at := j;
    if j < |p[i].inputs| {
      assert Deps(p)[i][at] == p[i].inputs[j];
    } else {
      assert Deps(p)[i][at] == p[i].refs[0];
    }
  }

  lemma {:induction false} WriterAlongPath(p: Dag<RowSet>, m: seq<Result<RowSet>>, env: Env, kinds: seq<Kind>, rank: seq<nat>, i: nat, k: nat) returns (w: seq<nat>)
    requires Ranked(Deps(p), rank) && IsMeaning(p, m) && RunsTasks(p, env, kinds)
    requires i < |p| && m[i].Ok? && k in Columns(m[i].value.batch)
    ensures IsWalk(Deps(p), w) && w != [] && w[0] == i
    ensures var effect := EffectOf(DeclaredBy(kinds[w[|w|-1]])); effect.Unknown? || k in Elems(effect.keys)
    decreases rank[i]
  {
    hide IsMeaning, Does, Columns, Elems, Deps, EffectOf, DeclaredBy;
    var effect := EffectOf(DeclaredBy(kinds[i]));
    if effect.Unknown? || k in Elems(effect.keys) {
      w := [i];
    } else {
      RankedHasNoCycle(Deps(p), rank);
      var at := FromDependency(p, m, env, kinds, i, k);
      var rest := WriterAlongPath(p, m, env, kinds, rank, Deps(p)[i][at], k);
      w := [i] + rest;
    }
  }

  /**
   Every column a node's output has was declared by the node itself or by one it depends on, along
   a path of dependencies; or the path ends at a node that declares nothing definite.
   */
  lemma ColumnHasWriter(p: Dag<RowSet>, m: seq<Result<RowSet>>, env: Env, kinds: seq<Kind>, i: nat, k: nat) returns (w: seq<nat>)
    requires Acyclic(Deps(p)) && IsMeaning(p, m) && RunsTasks(p, env, kinds)
    requires i < |p| && m[i].Ok? && k in Columns(m[i].value.batch)
    ensures IsWalk(Deps(p), w) && w != [] && w[0] == i
    ensures var effect := EffectOf(DeclaredBy(kinds[w[|w|-1]])); effect.Unknown? || k in Elems(effect.keys)
  {
    hide IsMeaning, RunsTasks, Columns, EffectOf, DeclaredBy;
    var rank := AcyclicIsRanked(Deps(p));
    w := WriterAlongPath(p, m, env, kinds, rank, i, k);
  }
}
