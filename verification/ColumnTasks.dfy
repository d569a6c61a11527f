/** The tasks that make rows or columns of their own: vm, which evaluates an expression into a float column, and the fixed source. */
module ColumnTasks {
  import opened Wrappers
  import opened RowSets
  import RowTasks
  import Predicates

  /** The key registry, the expression table, and what evaluation reads besides the row. */
  datatype VmEnv = VmEnv(registry: map<nat, RowTasks.KeyMeta>, exprs: Option<map<string, Predicates.Expr>>, ctx: Predicates.Ctx)

  type Cell = nat -> Option<real>

  function CellOf(expr: Predicates.Expr, b: Batch, ctx: Predicates.Ctx): Cell {
    (row: nat) => if BatchOk(b) && row < |b.ids| then Predicates.EvalExpr(expr, b, row, ctx) else None
  }

  // ---------------------------------------------------------------------------------------
  // Filling the column

  datatype Filling = Filling(values: seq<real>, valid: seq<bool>, hasNull: bool)

  function Fill(cell: Cell): (nat, Filling) -> (Filling, bool) {
    (row: nat, f: Filling) =>
      if cell(row).None? || row >= |f.values| || row >= |f.valid| then (f.(hasNull := true), true)
      else (f.(values := f.values[row := cell(row).value], valid := f.valid[row := true]), true)
  }

  /** Visited rows hold their value or stay as they were; a null among them is noticed. */
  lemma {:induction false} FillFolds(xs: seq<nat>, cell: Cell, f: Filling)
    requires Below(xs, |f.values|) && |f.values| == |f.valid|
    ensures var g := FoldUntil(xs, Fill(cell), f);
      && |g.values| == |g.valid| == |f.values|
      && (forall row: nat :: row < |g.valid| ==>
            if row in xs && cell(row).Some? then g.valid[row] && g.values[row] == cell(row).value
            else g.valid[row] == f.valid[row] && g.values[row] == f.values[row])
      && (g.hasNull <==> f.hasNull || exists k :: 0 <= k < |xs| && cell(xs[k]).None?)
  {
    if xs != [] {
      var f' := Fill(cell)(xs[0], f).0;
      FillFolds(xs[1..], cell, f');
      assert xs == [xs[0]] + xs[1..];
      NullAmong(xs, cell);
    }
  }

  lemma NullAmong(xs: seq<nat>, cell: Cell)
    requires xs != []
    ensures (exists k :: 0 <= k < |xs| && cell(xs[k]).None?) <==> cell(xs[0]).None? || exists k :: 0 <= k < |xs[1..]| && cell(xs[1..][k]).None?
  {
    if k: nat :| 0 < k < |xs| && cell(xs[k]).None? { assert xs[1..][k-1] == xs[k]; }
    if k: nat :| k < |xs[1..]| && cell(xs[1..][k]).None? { assert xs[k+1] == xs[1..][k]; }
  }

  // ---------------------------------------------------------------------------------------
  // vm

  /** The same view with column `key` holding, in its active rows, the values of `cell`, and nulls elsewhere. */
  ghost predicate IsVm(input: RowSet, out: RowSet, key: nat, cell: Cell) {
    && WellFormed(input) && WellFormed(out) && out.selection == input.selection && out.order == input.order
    && out.batch.ids == input.batch.ids && out.batch.idValid == input.batch.idValid && out.batch.strings == input.batch.strings
    && key in out.batch.floats && out.batch.floats == input.batch.floats[key := out.batch.floats[key]]
    && forall row: nat :: row < RowCount(input) ==>
         FloatAt(out.batch.floats[key], row) == if row in Active(input) then cell(row) else None
  }

  /** When the task runs to its end. */
  ghost predicate VmRuns(env: VmEnv, inputs: seq<RowSet>, outKey: int, exprId: string)
    requires forall i :: 0 <= i < |inputs| ==> WellFormed(inputs[i])
  {
    var key := outKey % 0x1_0000_0000;
    && |inputs| == 1 && outKey > 0 && exprId != ""
    && key in env.registry && key != ID_KEY && env.registry[key].allowWrite && env.registry[key].kind == RowTasks.FloatKey
    && env.exprs.Some? && exprId in env.exprs.value
    && (env.registry[key].nullable ||
          forall row :: row in Active(inputs[0]) ==>
            WellFormed(inputs[0]) && row < RowCount(inputs[0]) && Predicates.EvalExpr(env.exprs.value[exprId], inputs[0].batch, row, env.ctx).Some?)
  }

  /** What is in the new column: in active rows the number the expression evaluates to, or a null; elsewhere nulls. */
  ghost predicate HoldsExpr(input: RowSet, out: RowSet, key: nat, expr: Predicates.Expr, ctx: Predicates.Ctx) {
    && BatchOk(input.batch) && key in out.batch.floats && FloatColumnOk(out.batch.floats[key], RowCount(input))
    && forall row: nat :: row < RowCount(input) ==>
         var col, v := out.batch.floats[key], Predicates.EvalExpr(expr, input.batch, row, ctx);
         if row in Active(input) && v.Some? then col.valid[row] && col.values[row] == v.value else !col.valid[row]
  }

  lemma VmHoldsExpr(input: RowSet, out: RowSet, key: nat, expr: Predicates.Expr, ctx: Predicates.Ctx)
    requires IsVm(input, out, key, CellOf(expr, input.batch, ctx))
    ensures HoldsExpr(input, out, key, expr, ctx)
  {
    var col := out.batch.floats[key];
    assert FloatColumnOk(col, RowCount(input));
    forall row: nat | row < RowCount(input)
      ensures var v := Predicates.EvalExpr(expr, input.batch, row, ctx);
        if row in Active(input) && v.Some? then col.valid[row] && col.values[row] == v.value else !col.valid[row]
    {
      assert FloatAt(col, row) == if row in Active(input) then CellOf(expr, input.batch, ctx)(row) else None;
    }
  }

  method RunVm(env: VmEnv, inputs: seq<RowSet>, outKey: int, exprId: string) returns (r: Result<RowSet>)
    requires forall i :: 0 <= i < |inputs| ==> WellFormed(inputs[i])
    ensures r.Ok? <==> VmRuns(env, inputs, outKey, exprId)
    ensures r.Ok? ==> IsVm(inputs[0], r.value, outKey % 0x1_0000_0000, CellOf(env.exprs.value[exprId], inputs[0].batch, env.ctx))
    ensures r.Ok? ==> HoldsExpr(inputs[0], r.value, outKey % 0x1_0000_0000, env.exprs.value[exprId], env.ctx)
    ensures r.Ok? ==> Active(r.value) == Active(inputs[0])
  {
    if |inputs| != 1 { return Err("expected exactly 1 input"); }
    if outKey <= 0 { return Err("'out_key' must be > 0"); }
    var key := outKey % 0x1_0000_0000;
    if exprId == "" { return Err("'expr_id' must be non-empty"); }
    if key !in env.registry { return Err("out_key not in key registry"); }
    if key == ID_KEY { return Err("cannot write to Key.id"); }
    if !env.registry[key].allowWrite { return Err("key is not writable"); }
    if env.registry[key].kind != RowTasks.FloatKey { return Err("out_key must be Float type"); }
    if env.exprs.None? { return Err("no expr_table in context"); }
    if exprId !in env.exprs.value { return Err("expr_id not found in expr_table"); }
    var input := inputs[0];
    var cell := CellOf(env.exprs.value[exprId], input.batch, env.ctx);
    var filled := FillActive(input, cell);
    ActiveOk(input);
    assert forall row :: row in Active(input) ==> row < RowCount(input);
    if !env.registry[key].nullable && filled.hasNull { return Err("null result for non-nullable key"); }
    var col := FloatColumn(filled.values, filled.valid);
    var out := input.(batch := input.batch.(floats := input.batch.floats[key := col]));
    VmHoldsExpr(input, out, key, env.exprs.value[exprId], env.ctx);
    r := Ok(out);
  }

  method FillActive(input: RowSet, cell: Cell) returns (f: Filling)
    requires WellFormed(input)
    ensures |f.values| == |f.valid| == RowCount(input)
    ensures forall row: nat :: row < RowCount(input) ==>
      FloatAt(FloatColumn(f.values, f.valid), row) == if row in Active(input) then cell(row) else None
    ensures f.hasNull <==> exists row :: row in Active(input) && cell(row).None?
  {
    var n := RowCount(input);
    var empty := Filling(seq(n, _ => 0.0), seq(n, _ => false), false);
    f := ForEachIndex(input, Fill(cell), empty);
    ActiveOk(input);
    FillFolds(Active(input), cell, empty);
    if row :| row in Active(input) && cell(row).None? {
      var k :| 0 <= k < |Active(input)| && Active(input)[k] == row;
    }
  }

  // ---------------------------------------------------------------------------------------
  // The fixed source

  /** Rows 1 to n and no column. */
  ghost predicate IsFixedSource(out: RowSet, rowCount: int) {
    && WellFormed(out) && rowCount >= 0 && RowCount(out) == rowCount && Active(out) == Upto(rowCount)
    && (forall i :: 0 <= i < rowCount ==> out.batch.ids[i] == i + 1)
    && out.batch.floats == map[] && out.batch.strings == map[]
  }

  method RunFixedSource(inputs: seq<RowSet>, rowCount: int) returns (r: Result<RowSet>)
    ensures r.Ok? <==> inputs == [] && rowCount >= 0
    ensures r.Ok? ==> IsFixedSource(r.value, rowCount)
  {
    if inputs != [] { return Err("expected 0 inputs"); }
    if rowCount < 0 { return Err("'row_count' must be >= 0"); }
    var ids: seq<int> := [];
    for i := 0 to rowCount
      invariant |ids| == i && forall j :: 0 <= j < i ==> ids[j] == j + 1
    {
      ids := ids + [i + 1];
    }
    r := Ok(RowSet(Batch(ids, seq(rowCount, _ => true), map[], map[]), None, None));
  }
}
