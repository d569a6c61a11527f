/**
 The tasks filter, sort and take, and pipelines of them.

 A pipeline on views refines the same pipeline on plain lists of rows: filter keeps, sort sorts
 stably with nulls last, take cuts, and both report the same errors.
 */
module RowTasks {
  import opened Wrappers
  import opened RowSets
  import opened Sorting

  // ---------------------------------------------------------------------------------------
  // What the tasks look up

  datatype KeyKind = IntKey | FloatKey | StringKey | BoolKey | BundleKey

  datatype KeyMeta = KeyMeta(kind: KeyKind, allowRead: bool, allowWrite: bool, nullable: bool, blocked: bool)

  /** A predicate of the predicate table; evaluating it may throw. */
  type Pred = (Batch, nat) -> Result<bool>

  datatype Env = Env(registry: map<nat, KeyMeta>, preds: Option<map<string, Pred>>)

  function IdKeyAt(b: Batch): nat -> Option<int> {
    (row: nat) => if row < |b.ids| && row < |b.idValid| && b.idValid[row] then Some(b.ids[row]) else None
  }

  function FloatKeyAt(col: FloatColumn): nat -> Option<real> {
    (row: nat) => if row < |col.values| && row < |col.valid| then FloatAtRow(col, row) else None
  }

  function FloatAtRow(col: FloatColumn, row: nat): Option<real>
    requires row < |col.values| && row < |col.valid|
  {
    if col.valid[row] then Some(col.values[row]) else None
  }

  function StringKeyAt(col: StringColumn): nat -> Option<string> {
    (row: nat) =>
      if row < |col.valid| && row < |col.codes| && col.valid[row] && 0 <= col.codes[row] < |col.dict|
      then Some(col.dict[col.codes[row]]) else None
  }

  function IntLess(): (int, int) -> bool { (a, b) => a < b }

  function RealLess(): (real, real) -> bool { (a, b) => a < b }

  // ---------------------------------------------------------------------------------------
  // The list semantics

  datatype Op = Filter(predId: string) | Sort(byKey: int, order: Option<string>) | Take(count: int)

  /** The rows that satisfy the predicate, in order; an evaluation that throws ends it. */
  function FilterRows(b: Batch, xs: seq<nat>, pred: Pred): Result<seq<nat>> {
    if xs == [] then Ok([])
    else
      match pred(b, xs[0])
      case Err(e) => Err(e)
      case Ok(keep) =>
        match FilterRows(b, xs[1..], pred)
        case Err(e) => Err(e)
        case Ok(ys) => Ok((if keep then [xs[0]] else []) + ys)
  }

  function Accepts(b: Batch, pred: Pred): nat -> bool { (x: nat) => pred(b, x) == Ok(true) }

  /** The comparator a sort uses, or why it refuses. */
  function SortComparator(registry: map<nat, KeyMeta>, b: Batch, byKey: int, order: Option<string>): Result<Comparator> {
    if byKey <= 0 then Err("'by' must be > 0")
    else if order != None && order != Some("asc") && order != Some("desc") then Err("'order' must be 'asc' or 'desc'")
    else
      var key := byKey % 0x1_0000_0000;
      var ascending := order != Some("desc");
      if key !in registry then Err("key not in key registry")
      else if !registry[key].allowRead then Err("key is not readable")
      else if registry[key].blocked then Err("key is blocked")
      else
        match registry[key].kind
        case IntKey =>
          if key == ID_KEY then Ok(ByKey(IdKeyAt(b), IntLess(), ascending)) else Err("int columns not stored")
        case FloatKey =>
          if key in b.floats then Ok(ByKey(FloatKeyAt(b.floats[key]), RealLess(), ascending)) else Err("column not found")
        case StringKey =>
          if key in b.strings then Ok(ByKey(StringKeyAt(b.strings[key]), LexLess, ascending)) else Err("column not found")
        case _ => Err("key is not sortable")
  }

  function FindPred(env: Env, predId: string): Result<Pred> {
    if predId == "" then Err("'pred_id' must be non-empty")
    else if env.preds.None? then Err("no pred_table in context")
    else if predId !in env.preds.value then Err("pred_id not found in pred_table")
    else Ok(env.preds.value[predId])
  }

  function ListOp(env: Env, b: Batch, xs: seq<nat>, op: Op): Result<seq<nat>> {
    match op
    case Filter(predId) =>
      (match FindPred(env, predId)
       case Err(e) => Err(e)
       case Ok(pred) => FilterRows(b, xs, pred))
    case Sort(byKey, order) =>
      (match SortComparator(env.registry, b, byKey, order)
       case Err(e) => Err(e)
       case Ok(before) => Ok(StableSort(before, xs)))
    case Take(count) =>
      if count <= 0 then Err("'count' must be > 0") else Ok(FirstRows(xs, count))
  }

  function ListPipeline(env: Env, b: Batch, xs: seq<nat>, ops: seq<Op>): Result<seq<nat>>
    decreases |ops|
  {
    if ops == [] then Ok(xs)
    else
      match ListOp(env, b, xs, ops[0])
      case Err(e) => Err(e)
      case Ok(ys) => ListPipeline(env, b, ys, ops[1..])
  }

  /** The view `r` of the same batch stands for the list `rows`. */
  ghost predicate Refines(input: RowSet, r: Result<RowSet>, rows: Result<seq<nat>>) {
    match r
    case Err(e) => rows == Err(e)
    case Ok(out) => WellFormed(out) && out.batch == input.batch && rows == Ok(Active(out))
  }

  // ---------------------------------------------------------------------------------------
  // filter

  function PushIf(b: Batch, pred: Pred): (nat, Result<seq<nat>>) -> (Result<seq<nat>>, bool) {
    (idx: nat, acc: Result<seq<nat>>) =>
      if acc.Err? then (acc, false)
      else
        match pred(b, idx)
        case Err(e) => (Err(e), false)
        case Ok(keep) => (Ok(if keep then acc.value + [idx] else acc.value), true)
  }

  lemma {:induction false} PushIfFolds(b: Batch, xs: seq<nat>, pred: Pred, acc: seq<nat>)
    ensures FoldUntil(xs, PushIf(b, pred), Ok(acc)) ==
      match FilterRows(b, xs, pred) case Err(e) => Err(e) case Ok(ys) => Ok(acc + ys)
  {
    if xs != [] && pred(b, xs[0]).Ok? {
      var kept := if pred(b, xs[0]).value then acc + [xs[0]] else acc;
      PushIfFolds(b, xs[1..], pred, kept);
      if FilterRows(b, xs[1..], pred).Ok? {
        var ys := FilterRows(b, xs[1..], pred).value;
        assert acc + ([xs[0]] + ys) == acc + [xs[0]] + ys;
        assert acc + ([] + ys) == acc + ys;
      }
    } else if xs == [] {
      assert acc + [] == acc;
    }
  }

  /** When no evaluation throws, filtering keeps exactly the rows the predicate accepts; otherwise it fails. */
  lemma {:induction false} FilterKeeps(b: Batch, xs: seq<nat>, pred: Pred)
    ensures FilterRows(b, xs, pred).Ok? <==> forall k :: 0 <= k < |xs| ==> pred(b, xs[k]).Ok?
    ensures FilterRows(b, xs, pred).Ok? ==> FilterRows(b, xs, pred).value == Keep(xs, Accepts(b, pred))
  {
    if xs != [] {
      var rest := xs[1..];
      FilterKeeps(b, rest, pred);
      KeepFront(xs, Accepts(b, pred));
      if forall k :: 0 <= k < |rest| ==> pred(b, rest[k]).Ok? {
        forall k | 0 < k < |xs| ensures pred(b, xs[k]).Ok? { assert xs[k] == rest[k-1]; }
      }
    }
  }

  method RunFilter(env: Env, inputs: seq<RowSet>, predId: string) returns (r: Result<RowSet>)
    requires forall i :: 0 <= i < |inputs| ==> WellFormed(inputs[i])
    ensures |inputs| != 1 ==> r == Err("expected exactly 1 input")
    ensures |inputs| == 1 ==> Refines(inputs[0], r, ListOp(env, inputs[0].batch, Active(inputs[0]), Filter(predId)))
  {
    if |inputs| != 1 { return Err("expected exactly 1 input"); }
    var found := FindPred(env, predId);
    if found.Err? { return Err(found.error); }
    r := FilterView(inputs[0], found.value);
  }

  method FilterView(input: RowSet, pred: Pred) returns (r: Result<RowSet>)
    requires WellFormed(input)
    ensures Refines(input, r, FilterRows(input.batch, Active(input), pred))
  {
    var none: seq<nat> := [];
    var kept := ForEachIndex(input, PushIf(input.batch, pred), Ok(none));
    PushIfFolds(input.batch, Active(input), pred, none);
    ActiveOk(input);
    FilteredOk(input.batch, Active(input), pred, RowCount(input));
    hide FilterRows, FoldUntil;
    if kept.Err? { return Err(kept.error); }
    ghost var rows := FilterRows(input.batch, Active(input), pred).value;
    assert none + rows == rows;
    r := Ok(WithSelectionClearOrder(input, kept.value));
  }

  lemma FilteredOk(b: Batch, xs: seq<nat>, pred: Pred, n: nat)
    requires NoDup(xs) && Below(xs, n)
    ensures FilterRows(b, xs, pred).Ok? ==> NoDup(FilterRows(b, xs, pred).value) && Below(FilterRows(b, xs, pred).value, n)
  {
    FilterKeeps(b, xs, pred);
    SubsetOk(xs, Accepts(b, pred), n);
  }

  lemma SubsetOk(xs: seq<nat>, p: nat -> bool, n: nat)
    requires NoDup(xs) && Below(xs, n)
    ensures NoDup(Keep(xs, p)) && Below(Keep(xs, p), n)
  {
    KeepMembers(xs, p);
    var ys := Keep(xs, p);
    forall k | 0 <= k < |ys| ensures ys[k] < n { assert ys[k] in xs; }
  }

  // ---------------------------------------------------------------------------------------
  // sort and take

  /** Every comparator the sort task uses is fit for the library's stable sort. */
  lemma ComparatorsAreStrictWeak(registry: map<nat, KeyMeta>, b: Batch, byKey: int, order: Option<string>)
    requires SortComparator(registry, b, byKey, order).Ok?
    ensures StrictWeak(SortComparator(registry, b, byKey, order).value)
  {
    var key := byKey % 0x1_0000_0000;
    var ascending := order != Some("desc");
    hide StrictWeak;
    match registry[key].kind
    case IntKey => ByKeyIsStrictWeak(IdKeyAt(b), IntLess(), ascending);
    case FloatKey => ByKeyIsStrictWeak(FloatKeyAt(b.floats[key]), RealLess(), ascending);
    case StringKey =>
      LexIsStrictTotal();
      ByKeyIsStrictWeak(StringKeyAt(b.strings[key]), LexLess, ascending);
    case _ =>
  }

  /** Which sorts the task carries out. */
  lemma SortRunsIff(registry: map<nat, KeyMeta>, b: Batch, byKey: int, order: Option<string>)
    ensures var key := byKey % 0x1_0000_0000;
      SortComparator(registry, b, byKey, order).Ok? <==>
        && byKey > 0 && (order == None || order == Some("asc") || order == Some("desc"))
        && key in registry && registry[key].allowRead && !registry[key].blocked
        && ((registry[key].kind == IntKey && key == ID_KEY)
            || (registry[key].kind == FloatKey && key in b.floats)
            || (registry[key].kind == StringKey && key in b.strings))
  {
  }

  /** The rows `x` and `y`, sorted by the id column: nulls last, smaller first when ascending and greater first when not. */
  ghost predicate IdOrder(b: Batch, x: nat, y: nat, ascending: bool, tie: bool)
    requires BatchOk(b) && x < |b.ids| && y < |b.ids|
  {
    && (b.idValid[y] ==> b.idValid[x])
    && (b.idValid[x] && b.idValid[y] ==> if ascending then b.ids[x] <= b.ids[y] else b.ids[x] >= b.ids[y])
    && (b.idValid[x] == b.idValid[y] && (b.idValid[x] ==> b.ids[x] == b.ids[y]) ==> tie)
  }

  ghost predicate FloatOrder(col: FloatColumn, x: nat, y: nat, ascending: bool, tie: bool)
    requires FloatColumnOk(col, |col.valid|) && x < |col.valid| && y < |col.valid|
  {
    && (col.valid[y] ==> col.valid[x])
    && (col.valid[x] && col.valid[y] ==> if ascending then col.values[x] <= col.values[y] else col.values[x] >= col.values[y])
    && (col.valid[x] == col.valid[y] && (col.valid[x] ==> col.values[x] == col.values[y]) ==> tie)
  }

  /** Strings compare by the first place where they differ. */
  ghost predicate StringOrder(col: StringColumn, x: nat, y: nat, ascending: bool, tie: bool)
    requires StringColumnOk(col, |col.valid|) && x < |col.valid| && y < |col.valid|
  {
    && (col.valid[y] ==> col.valid[x])
    && (col.valid[x] && col.valid[y] ==>
          var v, w := col.dict[col.codes[x]], col.dict[col.codes[y]];
          v == w || if ascending then exists k :: SmallerAt(v, w, k) else exists k :: SmallerAt(w, v, k))
    && (col.valid[x] == col.valid[y] && (col.valid[x] ==> col.dict[col.codes[x]] == col.dict[col.codes[y]]) ==> tie)
  }

  lemma SortsById(b: Batch, ascending: bool, xs: seq<nat>, i: nat, j: nat)
    requires BatchOk(b) && NoDup(xs) && Below(xs, |b.ids|)
    requires i < j < |StableSort(ByKey(IdKeyAt(b), IntLess(), ascending), xs)|
    ensures var ys := StableSort(ByKey(IdKeyAt(b), IntLess(), ascending), xs);
      && ys[i] < |b.ids| && ys[j] < |b.ids|
      && IdOrder(b, ys[i], ys[j], ascending, Index(xs, ys[i]) < Index(xs, ys[j]))
  {
    var before := ByKey(IdKeyAt(b), IntLess(), ascending);
    ByKeyIsStrictWeak(IdKeyAt(b), IntLess(), ascending);
    SortedInRange(before, xs, |b.ids|, i);
    SortedInRange(before, xs, |b.ids|, j);
    SortedByKey(xs, IdKeyAt(b), IntLess(), ascending, i, j);
    hide StableSort, StrictWeak, BatchOk;
  }

  lemma SortsByFloat(col: FloatColumn, ascending: bool, xs: seq<nat>, i: nat, j: nat)
    requires FloatColumnOk(col, |col.valid|) && NoDup(xs) && Below(xs, |col.valid|)
    requires i < j < |StableSort(ByKey(FloatKeyAt(col), RealLess(), ascending), xs)|
    ensures var ys := StableSort(ByKey(FloatKeyAt(col), RealLess(), ascending), xs);
      && ys[i] < |col.valid| && ys[j] < |col.valid|
      && FloatOrder(col, ys[i], ys[j], ascending, Index(xs, ys[i]) < Index(xs, ys[j]))
  {
    var before := ByKey(FloatKeyAt(col), RealLess(), ascending);
    ByKeyIsStrictWeak(FloatKeyAt(col), RealLess(), ascending);
    SortedInRange(before, xs, |col.valid|, i);
    SortedInRange(before, xs, |col.valid|, j);
    SortedByKey(xs, FloatKeyAt(col), RealLess(), ascending, i, j);
    hide StableSort, StrictWeak;
  }

  lemma SortsByString(col: StringColumn, ascending: bool, xs: seq<nat>, i: nat, j: nat)
    requires StringColumnOk(col, |col.valid|) && NoDup(xs) && Below(xs, |col.valid|)
    requires i < j < |StableSort(ByKey(StringKeyAt(col), LexLess, ascending), xs)|
    ensures var ys := StableSort(ByKey(StringKeyAt(col), LexLess, ascending), xs);
      && ys[i] < |col.valid| && ys[j] < |col.valid|
      && StringOrder(col, ys[i], ys[j], ascending, Index(xs, ys[i]) < Index(xs, ys[j]))
  {
    var before := ByKey(StringKeyAt(col), LexLess, ascending);
    LexIsStrictTotal();
    ByKeyIsStrictWeak(StringKeyAt(col), LexLess, ascending);
    SortedInRange(before, xs, |col.valid|, i);
    SortedInRange(before, xs, |col.valid|, j);
    SortedByKey(xs, StringKeyAt(col), LexLess, ascending, i, j);
    hide StableSort, StrictWeak, LexLess, SmallerAt;
    var ys := StableSort(before, xs);
    if col.valid[ys[i]] && col.valid[ys[j]] {
      LexLessIs(col.dict[col.codes[ys[i]]], col.dict[col.codes[ys[j]]]);
      LexLessIs(col.dict[col.codes[ys[j]]], col.dict[col.codes[ys[i]]]);
    }
  }

  lemma SortedInRange(before: Comparator, xs: seq<nat>, n: nat, i: nat)
    requires StrictWeak(before) && NoDup(xs) && Below(xs, n) && i < |StableSort(before, xs)|
    ensures StableSort(before, xs)[i] < n
  {
    StableSortIs(before, xs);
    SameMultiset(StableSort(before, xs), xs);
    assert StableSort(before, xs)[i] in xs;
  }

  /**
   What the sort task promises of two rows `i < j` of its result: only "desc" turns the direction,
   nulls come last in both, and rows with equal keys keep the order they had in `xs`.
   */
  lemma SortTaskMeans(registry: map<nat, KeyMeta>, b: Batch, byKey: int, order: Option<string>, xs: seq<nat>, i: nat, j: nat)
    requires BatchOk(b) && NoDup(xs) && Below(xs, |b.ids|) && SortComparator(registry, b, byKey, order).Ok?
    requires i < j < |StableSort(SortComparator(registry, b, byKey, order).value, xs)|
    ensures var ys, key := StableSort(SortComparator(registry, b, byKey, order).value, xs), byKey % 0x1_0000_0000;
      var ascending, tie := order != Some("desc"), Index(xs, ys[i]) < Index(xs, ys[j]);
      && ys[i] < |b.ids| && ys[j] < |b.ids| && key in registry
      && (registry[key].kind == IntKey ==> IdOrder(b, ys[i], ys[j], ascending, tie))
      && (registry[key].kind == FloatKey ==> key in b.floats && FloatOrder(b.floats[key], ys[i], ys[j], ascending, tie))
      && (registry[key].kind == StringKey ==> key in b.strings && StringOrder(b.strings[key], ys[i], ys[j], ascending, tie))
  {
    hide StableSort, IdKeyAt, FloatKeyAt, StringKeyAt, IdOrder, FloatOrder, StringOrder;
    var key, ascending := byKey % 0x1_0000_0000, order != Some("desc");
    match registry[key].kind
    case IntKey => SortsById(b, ascending, xs, i, j);
    case FloatKey => SortsByFloat(b.floats[key], ascending, xs, i, j);
    case StringKey => SortsByString(b.strings[key], ascending, xs, i, j);
    case _ =>
  }

  /** What the filter task promises: it succeeds if its predicate is in the table and throws on no row, and keeps the rows on which it is true. */
  lemma FilterTaskMeans(env: Env, b: Batch, xs: seq<nat>, predId: string)
    ensures var r := ListOp(env, b, xs, Filter(predId));
      && (r.Ok? <==> predId != "" && env.preds.Some? && predId in env.preds.value && forall k :: 0 <= k < |xs| ==> env.preds.value[predId](b, xs[k]).Ok?)
      && (r.Ok? ==> r.value == Keep(xs, (x: nat) => predId in env.preds.value && env.preds.value[predId](b, x) == Ok(true)))
  {
    if FindPred(env, predId).Ok? {
      var pred := env.preds.value[predId];
      FilterKeeps(b, xs, pred);
      KeepCong(xs, Accepts(b, pred), (x: nat) => predId in env.preds.value && env.preds.value[predId](b, x) == Ok(true));
    }
  }

  /** What the take task promises: a positive count, and as many rows as there are up to it, from the front. */
  lemma TakeTaskMeans(env: Env, b: Batch, xs: seq<nat>, count: int)
    ensures var r := ListOp(env, b, xs, Take(count));
      && (r.Ok? <==> count > 0)
      && (r.Ok? ==> r.value <= xs && |r.value| == if count < |xs| then count else |xs|)
  {
  }

  method RunSort(env: Env, inputs: seq<RowSet>, byKey: int, order: Option<string>) returns (r: Result<RowSet>)
    requires forall i :: 0 <= i < |inputs| ==> WellFormed(inputs[i])
    ensures |inputs| != 1 ==> r == Err("expected exactly 1 input")
    ensures |inputs| == 1 ==> Refines(inputs[0], r, ListOp(env, inputs[0].batch, Active(inputs[0]), Sort(byKey, order)))
    ensures r.Ok? ==> multiset(Active(r.value)) == multiset(Active(inputs[0]))
  {
    if |inputs| != 1 { return Err("expected exactly 1 input"); }
    var input := inputs[0];
    var comparator := SortComparator(env.registry, input.batch, byKey, order);
    if comparator.Err? { return Err(comparator.error); }
    var rows := AllRows(input);
    ActiveOk(input);
    ComparatorsAreStrictWeak(env.registry, input.batch, byKey, order);
    StableSortIs(comparator.value, rows);
    WithOrderActive(input, StableSort(comparator.value, rows));
    r := Ok(WithOrder(input, StableSort(comparator.value, rows)));
  }

  method RunTake(env: Env, inputs: seq<RowSet>, count: int) returns (r: Result<RowSet>)
    requires forall i :: 0 <= i < |inputs| ==> WellFormed(inputs[i])
    ensures |inputs| != 1 ==> r == Err("expected exactly 1 input")
    ensures |inputs| == 1 ==> Refines(inputs[0], r, ListOp(env, inputs[0].batch, Active(inputs[0]), Take(count)))
  {
    if |inputs| != 1 { return Err("expected exactly 1 input"); }
    if count <= 0 { return Err("'count' must be > 0"); }
    var out := TruncateTo(inputs[0], count);
    r := Ok(out);
  }

  // ---------------------------------------------------------------------------------------
  // Pipelines

  method RunOp(env: Env, input: RowSet, op: Op) returns (r: Result<RowSet>)
    requires WellFormed(input)
    ensures Refines(input, r, ListOp(env, input.batch, Active(input), op))
  {
    match op
    case Filter(predId) => r := RunFilter(env, [input], predId);
    case Sort(byKey, order) => r := RunSort(env, [input], byKey, order);
    case Take(count) => r := RunTake(env, [input], count);
  }

  /** Running the tasks one on the other's output is running the list operations one on the other's. */
  method RunPipeline(env: Env, input: RowSet, ops: seq<Op>) returns (r: Result<RowSet>)
    requires WellFormed(input)
    ensures Refines(input, r, ListPipeline(env, input.batch, Active(input), ops))
  {
    var at := input;
    var k := 0;
    while k < |ops|
      invariant 0 <= k <= |ops| && WellFormed(at) && at.batch == input.batch
      invariant ListPipeline(env, input.batch, Active(input), ops) == ListPipeline(env, input.batch, Active(at), ops[k..])
    {
      assert ops[k..][0] == ops[k] && ops[k..][1..] == ops[k+1..];
      var next := RunOp(env, at, ops[k]);
      if next.Err? { return next; }
      at, k := next.value, k + 1;
    }
    r := Ok(at);
  }

  /** A pipeline never invents or repeats a row: what is left is part of what was active. */
  lemma {:induction false} PipelineShrinks(env: Env, b: Batch, xs: seq<nat>, ops: seq<Op>)
    requires NoDup(xs) && ListPipeline(env, b, xs, ops).Ok?
    ensures var ys := ListPipeline(env, b, xs, ops).value;
      NoDup(ys) && |ys| <= |xs| && forall y :: y in ys ==> y in xs
    decreases |ops|
  {
    if ops != [] {
      OpShrinks(env, b, xs, ops[0]);
      PipelineShrinks(env, b, ListOp(env, b, xs, ops[0]).value, ops[1..]);
    }
  }

  lemma OpShrinks(env: Env, b: Batch, xs: seq<nat>, op: Op)
    requires NoDup(xs) && ListOp(env, b, xs, op).Ok?
    ensures var ys := ListOp(env, b, xs, op).value;
      NoDup(ys) && |ys| <= |xs| && forall y :: y in ys ==> y in xs
  {
    match op
    case Filter(predId) =>
      var pred := FindPred(env, predId).value;
      FilterKeeps(b, xs, pred);
      KeepMembers(xs, Accepts(b, pred));
    case Sort(byKey, order) =>
      ComparatorsAreStrictWeak(env.registry, b, byKey, order);
      var before := SortComparator(env.registry, b, byKey, order).value;
      StableSortIs(before, xs);
      SameMultiset(StableSort(before, xs), xs);
    case Take(_) =>
  }

  /** A sort followed by a filter may be run in the other order when the predicate does not throw. */
  lemma SortFilterExchange(env: Env, b: Batch, xs: seq<nat>, byKey: int, order: Option<string>, predId: string)
    requires NoDup(xs)
    requires SortComparator(env.registry, b, byKey, order).Ok? && FindPred(env, predId).Ok?
    requires forall k :: 0 <= k < |xs| ==> FindPred(env, predId).value(b, xs[k]).Ok?
    ensures ListPipeline(env, b, xs, [Sort(byKey, order), Filter(predId)]) == ListPipeline(env, b, xs, [Filter(predId), Sort(byKey, order)])
  {
    var before, pred := SortComparator(env.registry, b, byKey, order).value, FindPred(env, predId).value;
    var p := Accepts(b, pred);
    ComparatorsAreStrictWeak(env.registry, b, byKey, order);
    hide StrictWeak;
    StableSortIs(before, xs);
    var ys := StableSort(before, xs);
    SameMultiset(ys, xs);
    forall k | 0 <= k < |ys| ensures pred(b, ys[k]).Ok? { assert ys[k] in xs; }
    FilterKeeps(b, xs, pred);
    FilterKeeps(b, ys, pred);
    FilterSortCommute(before, xs, p);
    assert FilterRows(b, ys, pred) == Ok(Keep(ys, p));
    assert FilterRows(b, xs, pred) == Ok(Keep(xs, p));
    assert ListOp(env, b, xs, Sort(byKey, order)) == Ok(ys);
    assert ListOp(env, b, ys, Filter(predId)) == Ok(Keep(ys, p));
    assert ListOp(env, b, xs, Filter(predId)) == Ok(Keep(xs, p));
    assert ListOp(env, b, Keep(xs, p), Sort(byKey, order)) == Ok(StableSort(before, Keep(xs, p)));
    hide StableSort, FilterRows, SortComparator, FindPred, Keep, ListOp;
    TwoOps(env, b, xs, Sort(byKey, order), Filter(predId));
    TwoOps(env, b, xs, Filter(predId), Sort(byKey, order));
  }

  lemma TwoOps(env: Env, b: Batch, xs: seq<nat>, first: Op, second: Op)
    requires ListOp(env, b, xs, first).Ok?
    ensures ListPipeline(env, b, xs, [first, second]) == ListOp(env, b, ListOp(env, b, xs, first).value, second)
  {
    hide ListOp;
    var ys := ListOp(env, b, xs, first).value;
    assert [first, second][1..] == [second] && [second][1..] == [];
    assert ListPipeline(env, b, ys, [second]) == ListOp(env, b, ys, second);
  }
}
