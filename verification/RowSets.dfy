/**
 Column batches and the row-set views over them.

 A `RowSet` is a batch with an optional selection (which rows are active) and an optional order
 (in which order they are visited). `Active` is the list of rows the view stands for.
 */
module RowSets {
  import opened Wrappers

  datatype FloatColumn = FloatColumn(values: seq<real>, valid: seq<bool>)

  datatype StringColumn = StringColumn(dict: seq<string>, codes: seq<int>, valid: seq<bool>)

  datatype Batch = Batch(ids: seq<int>, idValid: seq<bool>, floats: map<nat, FloatColumn>, strings: map<nat, StringColumn>)

  datatype RowSet = RowSet(batch: Batch, selection: Option<seq<nat>>, order: Option<seq<nat>>)

  /** The key of the id column. */
  const ID_KEY: nat := 1

  function RowCount(rs: RowSet): nat { |rs.batch.ids| }

  predicate FloatColumnOk(col: FloatColumn, n: nat) { |col.values| == |col.valid| == n }

  /** The code of every valid row points into the dictionary. */
  predicate StringColumnOk(col: StringColumn, n: nat) {
    && |col.codes| == |col.valid| == n
    && forall i :: 0 <= i < n && col.valid[i] ==> 0 <= col.codes[i] < |col.dict|
  }

  predicate BatchOk(b: Batch) {
    && |b.idValid| == |b.ids|
    && (forall k :: k in b.floats ==> FloatColumnOk(b.floats[k], |b.ids|))
    && (forall k :: k in b.strings ==> StringColumnOk(b.strings[k], |b.ids|))
  }

  /** Indices are in range and distinct. */
  predicate IndicesOk(v: Option<seq<nat>>, n: nat) {
    v.Some? ==> Below(v.value, n) && NoDup(v.value)
  }

  /** Indices are in range; rows may repeat. Iteration asks for no more. */
  predicate InRange(rs: RowSet) {
    && (rs.selection.Some? ==> Below(rs.selection.value, RowCount(rs)))
    && (rs.order.Some? ==> Below(rs.order.value, RowCount(rs)))
  }

  predicate WellFormed(rs: RowSet) {
    BatchOk(rs.batch) && IndicesOk(rs.selection, RowCount(rs)) && IndicesOk(rs.order, RowCount(rs))
  }

  // ---------------------------------------------------------------------------------------
  // Reading rows: a null is a row whose validity bit is off

  function FloatAt(col: FloatColumn, row: nat): Option<real>
    requires row < |col.values| == |col.valid|
  {
    if col.valid[row] then Some(col.values[row]) else None
  }

  function StringAt(col: StringColumn, row: nat): Option<string>
    requires row < |col.codes| == |col.valid| && (col.valid[row] ==> 0 <= col.codes[row] < |col.dict|)
  {
    if col.valid[row] then Some(col.dict[col.codes[row]]) else None
  }

  // ---------------------------------------------------------------------------------------
  // The rows a view stands for

  function Keep(xs: seq<nat>, p: nat -> bool): seq<nat> {
    if xs == [] then [] else Keep(xs[..|xs|-1], p) + if p(xs[|xs|-1]) then [xs[|xs|-1]] else []
  }

  function Upto(n: nat): (r: seq<nat>)
    ensures |r| == n && forall i :: 0 <= i < n ==> r[i] == i
  {
    seq(n, i => i)
  }

  function Chosen(selection: seq<nat>): nat -> bool { x => x in selection }

  function Active(rs: RowSet): seq<nat> {
    match (rs.order, rs.selection)
    case (Some(order), Some(selection)) => Keep(order, Chosen(selection))
    case (Some(order), None) => order
    case (None, Some(selection)) => selection
    case (None, None) => Upto(RowCount(rs))
  }

  lemma {:induction false} KeepMembers(xs: seq<nat>, p: nat -> bool)
    ensures forall x :: x in Keep(xs, p) <==> x in xs && p(x)
    ensures |Keep(xs, p)| <= |xs|
    ensures NoDup(xs) ==> NoDup(Keep(xs, p))
  {
    if xs != [] {
      var init, last := xs[..|xs|-1], xs[|xs|-1];
      KeepMembers(init, p);
      assert xs == init + [last];
      if NoDup(xs) {
        assert NoDup(init);
        assert last !in init;
      }
    }
  }

  lemma {:induction false} KeepAll(xs: seq<nat>, p: nat -> bool)
    requires forall x :: x in xs ==> p(x)
    ensures Keep(xs, p) == xs
  {
    if xs != [] {
      assert xs == xs[..|xs|-1] + [xs[|xs|-1]];
      KeepAll(xs[..|xs|-1], p);
    }
  }

  /** Keep only asks its predicate about members. */
  lemma {:induction false} KeepCong(xs: seq<nat>, p: nat -> bool, q: nat -> bool)
    requires forall x :: x in xs ==> p(x) == q(x)
    ensures Keep(xs, p) == Keep(xs, q)
  {
    if xs != [] {
      assert xs == xs[..|xs|-1] + [xs[|xs|-1]];
      KeepCong(xs[..|xs|-1], p, q);
    }
  }

  /** A row is active if it is listed, selected, or both, as the view asks; and without a list every row is. */
  lemma ActiveMembers(rs: RowSet, x: nat)
    ensures x in Active(rs) <==>
      && (rs.order.Some? ==> x in rs.order.value)
      && (rs.selection.Some? ==> x in rs.selection.value)
      && (rs.order.None? && rs.selection.None? ==> x < RowCount(rs))
  {
    if rs.order.Some? && rs.selection.Some? { KeepMembers(rs.order.value, Chosen(rs.selection.value)); }
    if rs.order.None? && rs.selection.None? && x < RowCount(rs) { assert Upto(RowCount(rs))[x] == x; }
  }

  /** Active rows come in the order's order, else in that of the selection, else ascending. */
  lemma ActiveOrdered(rs: RowSet) returns (at: seq<nat>)
    ensures |at| == |Active(rs)| && forall i, j :: 0 <= i < j < |at| ==> at[i] < at[j]
    ensures forall i :: 0 <= i < |at| ==>
      if rs.order.Some? then at[i] < |rs.order.value| && Active(rs)[i] == rs.order.value[at[i]]
      else if rs.selection.Some? then at[i] < |rs.selection.value| && Active(rs)[i] == rs.selection.value[at[i]]
      else Active(rs)[i] == at[i]
  {
    if rs.order.Some? && rs.selection.Some? {
      at := KeepPositions(rs.order.value, Chosen(rs.selection.value));
    } else {
      at := Upto(|Active(rs)|);
    }
  }

  lemma {:induction false} KeepPositions(xs: seq<nat>, p: nat -> bool) returns (at: seq<nat>)
    ensures |at| == |Keep(xs, p)| && Below(at, |xs|) && forall i, j :: 0 <= i < j < |at| ==> at[i] < at[j]
    ensures forall i :: 0 <= i < |at| ==> at[i] < |xs| && Keep(xs, p)[i] == xs[at[i]]
  {
    if xs == [] {
      at := [];
    } else {
      var init, last := xs[..|xs|-1], |xs| - 1;
      var before := KeepPositions(init, p);
      var kept := Keep(init, p);
      at := if p(xs[last]) then before + [last] else before;
      assert Keep(xs, p) == kept + if p(xs[last]) then [xs[last]] else [];
      hide Keep;
      forall i | 0 <= i < |before| ensures before[i] < last && kept[i] == xs[before[i]] { assert kept[i] == init[before[i]]; }
    }
  }

  lemma ActiveInRange(rs: RowSet)
    requires InRange(rs)
    ensures Below(Active(rs), RowCount(rs))
  {
    if rs.order.Some? && rs.selection.Some? {
      KeepMembers(rs.order.value, Chosen(rs.selection.value));
      var active := Active(rs);
      forall k | 0 <= k < |active| ensures active[k] < RowCount(rs) { assert active[k] in rs.order.value; }
    }
  }

  /** The active rows of a well-formed view are distinct rows of its batch, so at most all of them. */
  lemma ActiveOk(rs: RowSet)
    requires WellFormed(rs)
    ensures NoDup(Active(rs)) && Below(Active(rs), RowCount(rs)) && |Active(rs)| <= RowCount(rs)
  {
    if rs.order.Some? && rs.selection.Some? {
      KeepMembers(rs.order.value, Chosen(rs.selection.value));
      var active := Active(rs);
      forall k | 0 <= k < |active| ensures active[k] < RowCount(rs) { assert active[k] in rs.order.value; }
    }
    Pigeonhole(Active(rs), RowCount(rs));
  }

  // ---------------------------------------------------------------------------------------
  // Iteration. The callback folds a state and says whether to go on.

  function FoldUntil<S>(xs: seq<nat>, fn: (nat, S) -> (S, bool), s: S): S {
    if xs == [] then s
    else
      var (s', goOn) := fn(xs[0], s);
      if goOn then FoldUntil(xs[1..], fn, s') else s'
  }

  method EachOf<S>(xs: seq<nat>, fn: (nat, S) -> (S, bool), start: S) returns (s: S)
    ensures s == FoldUntil(xs, fn, start)
  {
    s := start;
    var i := 0;
    while i < |xs|
      invariant 0 <= i <= |xs| && FoldUntil(xs, fn, start) == FoldUntil(xs[i..], fn, s)
    {
      assert xs[i..][0] == xs[i] && xs[i..][1..] == xs[i+1..];
      var (s', goOn) := fn(xs[i], s);
      s, i := s', i + 1;
      if !goOn { return; }
    }
  }

  lemma {:induction false} KeepFront(xs: seq<nat>, p: nat -> bool)
    requires xs != []
    ensures Keep(xs, p) == (if p(xs[0]) then [xs[0]] else []) + Keep(xs[1..], p)
  {
    var init, last := xs[..|xs|-1], xs[|xs|-1];
    if init == [] {
      assert Keep(xs[1..], p) == [] && Keep(init, p) == [];
    } else {
      KeepFront(init, p);
      assert xs[1..][..|xs|-2] == init[1..] && xs[1..][|xs|-2] == last && init[0] == xs[0];
      assert Keep(xs[1..], p) == Keep(init[1..], p) + if p(last) then [last] else [];
    }
  }

  /** The order is walked and the bitmap decides which rows are visited. */
  method EachMarked<S>(order: seq<nat>, bits: array<bool>, ghost selection: seq<nat>, fn: (nat, S) -> (S, bool), start: S) returns (s: S)
    requires Below(order, bits.Length)
    requires forall i: nat :: i < bits.Length ==> bits[i] == (i in selection)
    ensures s == FoldUntil(Keep(order, Chosen(selection)), fn, start)
  {
    s := start;
    ghost var p := Chosen(selection);
    var i := 0;
    while i < |order|
      invariant 0 <= i <= |order|
      invariant FoldUntil(Keep(order, p), fn, start) == FoldUntil(Keep(order[i..], p), fn, s)
    {
      KeepFront(order[i..], p);
      assert order[i..][1..] == order[i+1..] && order[i..][0] == order[i];
      assert !p(order[i]) ==> Keep(order[i..], p) == Keep(order[i+1..], p);
      if bits[order[i]] {
        assert Keep(order[i..], p)[1..] == Keep(order[i+1..], p);
        var (s', goOn) := fn(order[i], s);
        s := s';
        if !goOn { return; }
      }
      i := i + 1;
    }
  }

  /** The membership bitmap of a selection. */
  method InSelection(selection: seq<nat>, n: nat) returns (bits: array<bool>)
    requires Below(selection, n)
    ensures fresh(bits) && bits.Length == n && forall i: nat :: i < n ==> bits[i] == (i in selection)
  {
    bits := new bool[n](_ => false);
    var k := 0;
    while k < |selection|
      invariant 0 <= k <= |selection|
      invariant forall i: nat :: i < n ==> bits[i] == (i in selection[..k])
    {
      bits[selection[k]] := true;
      assert selection[..k+1] == selection[..k] + [selection[k]];
      k := k + 1;
    }
    assert selection[..k] == selection;
  }

  /** `forEachIndex`: exactly the active rows, in order, until the callback stops it. */
  method ForEachIndex<S>(rs: RowSet, fn: (nat, S) -> (S, bool), start: S) returns (s: S)
    requires InRange(rs)
    ensures s == FoldUntil(Active(rs), fn, start)
  {
    match (rs.order, rs.selection)
    case (Some(order), Some(selection)) =>
      var bits := InSelection(selection, RowCount(rs));
      s := EachMarked(order, bits, selection, fn, start);
    case (Some(order), None) =>
      s := EachOf(order, fn, start);
    case (None, Some(selection)) =>
      s := EachOf(selection, fn, start);
    case (None, None) =>
      s := EachOf(Upto(RowCount(rs)), fn, start);
  }

  function FirstRows(xs: seq<nat>, limit: nat): seq<nat> {
    if limit < |xs| then xs[..limit] else xs
  }

  function Collect(limit: nat): (nat, seq<nat>) -> (seq<nat>, bool) {
    (idx, acc) => (acc + [idx], |acc| + 1 < limit)
  }

  lemma {:induction false} CollectFolds(xs: seq<nat>, limit: nat, acc: seq<nat>)
    requires |acc| < limit || (limit == 0 && acc == [])
    ensures FoldUntil(xs, Collect(limit), acc) == acc + FirstRows(xs, if limit == 0 then 1 else limit - |acc|)
  {
    if xs != [] {
      if |acc| + 1 < limit {
        CollectFolds(xs[1..], limit, acc + [xs[0]]);
        assert xs == [xs[0]] + xs[1..];
      } else {
        assert FirstRows(xs, 1) == [xs[0]];
      }
    }
  }

  /**
   At most `limit` rows, but never none while there is one: the row is pushed before the test. So
   the limit is respected if and only if it is positive or nothing is active.
   */
  method ToVector(rs: RowSet, limit: nat) returns (rows: seq<nat>)
    requires InRange(rs)
    ensures rows == FirstRows(Active(rs), if limit == 0 then 1 else limit)
    ensures |rows| <= limit <==> limit > 0 || Active(rs) == []
  {
    rows := ForEachIndex(rs, Collect(limit), []);
    CollectFolds(Active(rs), limit, []);
  }

  lemma NoneBelowZero(s: seq<nat>)
    requires Below(s, 0)
    ensures s == []
  {
    hide Below;
    if s != [] { BelowAt(s, 0, 0); }
  }

  lemma BelowAt(s: seq<nat>, n: nat, k: nat)
    requires Below(s, n) && k < |s|
    ensures s[k] < n
  {
  }

  /** The rows the engine sees when it asks for as many as the batch has. */
  function Visible(rs: RowSet): seq<nat> { FirstRows(Active(rs), RowCount(rs)) }

  /** Asking for as many rows as the batch has drops nothing of a well-formed view. */
  method AllRows(rs: RowSet) returns (rows: seq<nat>)
    requires InRange(rs)
    ensures rows == Visible(rs)
    ensures WellFormed(rs) ==> rows == Active(rs)
  {
    if WellFormed(rs) { ActiveOk(rs); }
    ActiveInRange(rs);
    if RowCount(rs) == 0 { NoneBelowZero(Active(rs)); }
    rows := ToVector(rs, RowCount(rs));
  }

  /** `size()` counts exactly the rows that are visited. */
  method Size(rs: RowSet) returns (n: nat)
    requires InRange(rs)
    ensures n == |Active(rs)|
  {
    match (rs.order, rs.selection)
    case (Some(order), Some(selection)) =>
      var bits := InSelection(selection, RowCount(rs));
      n := 0;
      var k := 0;
      while k < |order|
        invariant 0 <= k <= |order| && n == |Keep(order[..k], Chosen(selection))|
      {
        assert order[..k+1][..k] == order[..k];
        if bits[order[k]] { n := n + 1; }
        k := k + 1;
      }
      assert order[..k] == order;
    case (Some(order), None) => n := |order|;
    case (None, Some(selection)) => n := |selection|;
    case (None, None) => n := RowCount(rs);
  }

  // ---------------------------------------------------------------------------------------
  // Builders

  /** `withSelectionClearOrder`: the view is the list itself. */
  function WithSelectionClearOrder(rs: RowSet, selection: seq<nat>): (r: RowSet)
    ensures Active(r) == selection
  {
    RowSet(rs.batch, Some(selection), None)
  }

  function WithOrder(rs: RowSet, order: seq<nat>): RowSet { rs.(order := Some(order)) }

  /** An order made of the active rows, in whatever order, becomes the view. */
  lemma WithOrderActive(rs: RowSet, order: seq<nat>)
    requires WellFormed(rs) && multiset(order) == multiset(Active(rs))
    ensures Active(WithOrder(rs, order)) == order && WellFormed(WithOrder(rs, order))
  {
    ActiveOk(rs);
    SameMultiset(order, Active(rs));
    forall k | 0 <= k < |order| ensures order[k] < RowCount(rs) { assert order[k] in Active(rs); }
    if rs.selection.Some? {
      var p := Chosen(rs.selection.value);
      if rs.order.Some? { KeepMembers(rs.order.value, p); }
      assert forall x :: x in Active(rs) ==> p(x);
      KeepAll(order, p);
    }
  }

  /** `truncateTo`. */
  method TruncateTo(rs: RowSet, limit: nat) returns (r: RowSet)
    requires WellFormed(rs)
    ensures WellFormed(r) && r.batch == rs.batch
    ensures Active(r) == FirstRows(Active(rs), if limit == 0 then 1 else limit)
  {
    var rows := ToVector(rs, limit);
    ActiveOk(rs);
    r := RowSet(rs.batch, Some(rows), None);
  }
}
