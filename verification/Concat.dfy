/**
 The concat task: the active rows of two views, copied into one dense batch.

 String columns are dictionary-encoded. When both sides have a column with different dictionaries
 the dictionaries are merged and the codes of the right side are rewritten.
 */
module Concat {
  import opened Wrappers
  import opened RowSets
  import OutputContract

  // ---------------------------------------------------------------------------------------
  // What a row holds, whatever the encoding: an absent column reads as null

  function FloatCell(b: Batch, key: nat, row: nat): Option<real>
    requires BatchOk(b) && row < |b.ids|
  {
    if key in b.floats then FloatAt(b.floats[key], row) else None
  }

  function StringCell(b: Batch, key: nat, row: nat): Option<string>
    requires BatchOk(b) && row < |b.ids|
  {
    if key in b.strings then StringAt(b.strings[key], row) else None
  }

  /** Row `i` of `out` has the id, the floats and the strings of row `row` of `b`. */
  ghost predicate SameRow(out: Batch, i: nat, b: Batch, row: nat)
    requires BatchOk(out) && i < |out.ids| && BatchOk(b) && row < |b.ids|
  {
    && out.ids[i] == b.ids[row] && out.idValid[i]
    && (forall k: nat :: FloatCell(out, k, i) == FloatCell(b, k, row))
    && (forall k: nat :: StringCell(out, k, i) == StringCell(b, k, row))
  }

  /** `out` is the active rows of `lhs`, then those of `rhs`, with all columns of both. */
  ghost predicate IsConcat(out: RowSet, lhs: RowSet, rhs: RowSet)
    requires WellFormed(lhs) && WellFormed(rhs)
  {
    var left, right := Active(lhs), Active(rhs);
    && WellFormed(out) && out.selection == None && out.order == None
    && RowCount(out) == |left| + |right|
    && (forall k :: k in out.batch.floats <==> k in lhs.batch.floats || k in rhs.batch.floats)
    && (forall k :: k in out.batch.strings <==> k in lhs.batch.strings || k in rhs.batch.strings)
    && (forall i: nat :: i < |left| ==> left[i] < RowCount(lhs) && SameRow(out.batch, i, lhs.batch, left[i]))
    && (forall i: nat :: i < |right| ==> right[i] < RowCount(rhs) && SameRow(out.batch, |left| + i, rhs.batch, right[i]))
  }

  // ---------------------------------------------------------------------------------------
  // Float columns

  /** Rows `rows` of `col` are what `out` holds from `at` on; without a column, nulls. */
  ghost predicate FloatsCopied(out: FloatColumn, at: nat, col: Option<FloatColumn>, rows: seq<nat>) {
    && |out.values| == |out.valid| && at + |rows| <= |out.values|
    && forall k: nat :: k < |rows| ==>
         if col.None? then !out.valid[at + k]
         else rows[k] < |col.value.values| == |col.value.valid| && FloatAt(out, at + k) == FloatAt(col.value, rows[k])
  }

  method CopyFloats(col: Option<FloatColumn>, rows: seq<nat>, values: array<real>, valid: array<bool>, at: nat)
    requires values.Length == valid.Length && at + |rows| <= valid.Length
    requires col.Some? ==> FloatColumnOk(col.value, |col.value.values|) && Below(rows, |col.value.values|)
    requires forall i :: at <= i < at + |rows| ==> !valid[i]
    modifies values, valid
    ensures FloatsCopied(FloatColumn(values[..], valid[..]), at, col, rows)
    ensures forall i :: 0 <= i < valid.Length && !(at <= i < at + |rows|) ==> values[i] == old(values[i]) && valid[i] == old(valid[i])
  {
    if col.None? { return; }
    var k := 0;
    while k < |rows|
      invariant 0 <= k <= |rows|
      invariant forall i :: 0 <= i < valid.Length && !(at <= i < at + k) ==> values[i] == old(values[i]) && valid[i] == old(valid[i])
      invariant forall j: nat :: j < k ==>
        valid[at + j] == col.value.valid[rows[j]] && (valid[at + j] ==> values[at + j] == col.value.values[rows[j]])
    {
      if col.value.valid[rows[k]] {
        values[at + k] := col.value.values[rows[k]];
        valid[at + k] := true;
      }
      k := k + 1;
    }
  }

  lemma FloatsKept(half: FloatColumn, out: FloatColumn, col: Option<FloatColumn>, rows: seq<nat>)
    requires FloatsCopied(half, 0, col, rows) && |out.values| == |out.valid| && |rows| <= |out.valid|
    requires out.valid[..|rows|] == half.valid[..|rows|] && out.values[..|rows|] == half.values[..|rows|]
    ensures FloatsCopied(out, 0, col, rows)
  {
    forall k: nat | k < |rows|
      ensures if col.None? then !out.valid[0 + k]
              else rows[k] < |col.value.values| == |col.value.valid| && FloatAt(out, 0 + k) == FloatAt(col.value, rows[k])
    {
      var row := rows[k];
      assert if col.None? then !half.valid[0 + k] else FloatAt(half, 0 + k) == FloatAt(col.value, row);
      assert out.valid[..|rows|][k] == half.valid[..|rows|][k] && out.values[..|rows|][k] == half.values[..|rows|][k];
    }
  }

  /** Both halves written, one after the other. */
  ghost predicate FloatsConcat(out: FloatColumn, lhs: Option<FloatColumn>, rhs: Option<FloatColumn>, left: seq<nat>, right: seq<nat>) {
    FloatColumnOk(out, |left| + |right|) && FloatsCopied(out, 0, lhs, left) && FloatsCopied(out, |left|, rhs, right)
  }

  method ConcatFloats(lhs: Option<FloatColumn>, rhs: Option<FloatColumn>, left: seq<nat>, right: seq<nat>) returns (out: FloatColumn)
    requires lhs.Some? ==> FloatColumnOk(lhs.value, |lhs.value.values|) && Below(left, |lhs.value.values|)
    requires rhs.Some? ==> FloatColumnOk(rhs.value, |rhs.value.values|) && Below(right, |rhs.value.values|)
    ensures FloatsConcat(out, lhs, rhs, left, right)
  {
    var n := |left| + |right|;
    var values := new real[n](_ => 0.0);
    var valid := new bool[n](_ => false);
    CopyFloats(lhs, left, values, valid, 0);
    ghost var half := FloatColumn(values[..], valid[..]);
    CopyFloats(rhs, right, values, valid, |left|);
    out := FloatColumn(values[..], valid[..]);
    assert out.valid[..|left|] == half.valid[..|left|] && out.values[..|left|] == half.values[..|left|];
    FloatsKept(half, out, lhs, left);
  }

  // ---------------------------------------------------------------------------------------
  // String columns

  /** The left dictionary, then the strings of the right one that it does not have, each once. */
  ghost predicate IsMerge(merged: seq<string>, left: seq<string>, right: seq<string>) {
    && left <= merged
    && NoDup(merged[|left|..])
    && (forall s :: s in merged[|left|..] <==> s in right && s !in left)
  }

  method MergeDicts(left: seq<string>, right: seq<string>) returns (merged: seq<string>, remap: seq<int>)
    ensures IsMerge(merged, left, right)
    ensures |remap| == |right| && forall i :: 0 <= i < |right| ==> 0 <= remap[i] < |merged| && merged[remap[i]] == right[i]
  {
    var strToCode: map<string, int> := map[];
    merged := [];
    var i := 0;
    while i < |left|
      invariant 0 <= i <= |left| && merged == left[..i]
      invariant forall s :: s in strToCode <==> s in merged
      invariant forall s :: s in strToCode ==> 0 <= strToCode[s] < |merged| && merged[strToCode[s]] == s
    {
      strToCode := strToCode[left[i] := |merged|];
      merged := merged + [left[i]];
      i := i + 1;
    }
    remap := [];
    i := 0;
    while i < |right|
      invariant 0 <= i <= |right| && |remap| == i
      invariant IsMerge(merged, left, right[..i])
      invariant forall s :: s in strToCode <==> s in merged
      invariant forall s :: s in strToCode ==> 0 <= strToCode[s] < |merged| && merged[strToCode[s]] == s
      invariant forall j :: 0 <= j < i ==> 0 <= remap[j] < |merged| && merged[remap[j]] == right[j]
    {
      var s := right[i];
      assert right[..i+1] == right[..i] + [s];
      if s in strToCode {
        remap := remap + [strToCode[s]];
        SplitMember(merged, |left|, s);
      } else {
        remap := remap + [|merged|];
        strToCode := strToCode[s := |merged|];
        MergeGrows(merged, left, right[..i], s);
        merged := merged + [s];
      }
      i := i + 1;
    }
    assert right[..i] == right;
  }

  lemma SplitMember(merged: seq<string>, n: nat, s: string)
    requires n <= |merged| && s in merged
    ensures s in merged[..n] || s in merged[n..]
  {
    assert merged == merged[..n] + merged[n..];
  }

  lemma MergeGrows(merged: seq<string>, left: seq<string>, right: seq<string>, s: string)
    requires IsMerge(merged, left, right) && s !in merged
    ensures IsMerge(merged + [s], left, right + [s])
  {
    assert (merged + [s])[|left|..] == merged[|left|..] + [s];
    assert forall t :: t in left ==> t in merged;
  }

  /** The codes `rows` of `col`, through `remap` if there is one. */
  ghost predicate StringsCopied(out: StringColumn, at: nat, col: StringColumn, rows: seq<nat>) {
    && |out.codes| == |out.valid| && |col.codes| == |col.valid| && at + |rows| <= |out.codes|
    && forall k: nat :: k < |rows| ==>
         && rows[k] < |col.codes| && out.valid[at + k] == col.valid[rows[k]]
         && (out.valid[at + k] ==>
               && 0 <= out.codes[at + k] < |out.dict| && 0 <= col.codes[rows[k]] < |col.dict|
               && out.dict[out.codes[at + k]] == col.dict[col.codes[rows[k]]])
  }

  ghost predicate Unset(valid: seq<bool>, at: nat, n: nat) {
    at + n <= |valid| && forall i :: at <= i < at + n ==> !valid[i]
  }

  /** Every code of `col` means the same string in `dict` after `remap`. */
  ghost predicate RemapOk(col: StringColumn, dict: seq<string>, remap: Option<seq<int>>) {
    if remap.None? then col.dict <= dict
    else
      && |remap.value| == |col.dict|
      && forall i :: 0 <= i < |col.dict| ==> 0 <= remap.value[i] < |dict| && dict[remap.value[i]] == col.dict[i]
  }

  method CopyCodes(col: StringColumn, rows: seq<nat>, remap: Option<seq<int>>, ghost dict: seq<string>, codes: array<int>, valid: array<bool>, at: nat)
    requires codes.Length == valid.Length && codes != valid as object
    requires StringColumnOk(col, |col.codes|) && Below(rows, |col.codes|) && RemapOk(col, dict, remap)
    requires Unset(valid[..], at, |rows|)
    modifies codes, valid
    ensures StringsCopied(StringColumn(dict, codes[..], valid[..]), at, col, rows)
    ensures forall i :: 0 <= i < valid.Length && !(at <= i < at + |rows|) ==> codes[i] == old(codes[i]) && valid[i] == old(valid[i])
  {
    var k := 0;
    while k < |rows|
      invariant 0 <= k <= |rows|
      invariant forall i :: 0 <= i < valid.Length && !(at <= i < at + k) ==> codes[i] == old(codes[i]) && valid[i] == old(valid[i])
      invariant StringsCopied(StringColumn(dict, codes[..], valid[..]), at, col, rows[..k])
    {
      assert rows[..k+1][..k] == rows[..k];
      assert !old(valid[..])[at + k];
      if col.valid[rows[k]] {
        var code := col.codes[rows[k]];
        codes[at + k] := if remap.None? then code else remap.value[code];
        valid[at + k] := true;
      }
      k := k + 1;
    }
    assert rows[..k] == rows;
  }

  /** Both halves written, one after the other, with the same dictionary. */
  ghost predicate ColumnConcat(out: StringColumn, lhs: Option<StringColumn>, rhs: Option<StringColumn>, left: seq<nat>, right: seq<nat>) {
    && StringColumnOk(out, |left| + |right|)
    && (if lhs.Some? then StringsCopied(out, 0, lhs.value, left) else Unset(out.valid, 0, |left|))
    && (if rhs.Some? then StringsCopied(out, |left|, rhs.value, right) else Unset(out.valid, |left|, |right|))
  }

  /** The output dictionary, and how the codes of the right side are rewritten. */
  method OutputDict(lhs: Option<StringColumn>, rhs: Option<StringColumn>) returns (dict: seq<string>, remap: Option<seq<int>>)
    requires lhs.Some? || rhs.Some?
    ensures lhs.Some? ==> lhs.value.dict <= dict
    ensures rhs.Some? ==> RemapOk(rhs.value, dict, remap)
    ensures lhs.Some? && rhs.Some? ==> IsMerge(dict, lhs.value.dict, rhs.value.dict) || dict == lhs.value.dict == rhs.value.dict
  {
    remap := None;
    if rhs.None? {
      dict := lhs.value.dict;
    } else if lhs.None? || lhs.value.dict == rhs.value.dict {
      dict := rhs.value.dict;
    } else {
      var codes;
      dict, codes := MergeDicts(lhs.value.dict, rhs.value.dict);
      remap := Some(codes);
    }
  }

  method ConcatStrings(lhs: Option<StringColumn>, rhs: Option<StringColumn>, left: seq<nat>, right: seq<nat>) returns (out: StringColumn)
    requires lhs.Some? || rhs.Some?
    requires lhs.Some? ==> StringColumnOk(lhs.value, |lhs.value.codes|) && Below(left, |lhs.value.codes|)
    requires rhs.Some? ==> StringColumnOk(rhs.value, |rhs.value.codes|) && Below(right, |rhs.value.codes|)
    ensures ColumnConcat(out, lhs, rhs, left, right)
  {
    var n := |left| + |right|;
    var dict, remap := OutputDict(lhs, rhs);
    var codes := new int[n](_ => 0);
    var valid := new bool[n](_ => false);
    if lhs.Some? { CopyCodes(lhs.value, left, None, dict, codes, valid, 0); }
    ghost var half := StringColumn(dict, codes[..], valid[..]);
    assert Unset(half.valid, |left|, |right|);
    if rhs.Some? { CopyCodes(rhs.value, right, remap, dict, codes, valid, |left|); }
    out := StringColumn(dict, codes[..], valid[..]);
    assert out.valid[..|left|] == half.valid[..|left|] && out.codes[..|left|] == half.codes[..|left|];
    if lhs.Some? { StringsKept(half, out, lhs.value, left); }
    assert lhs.None? ==> Unset(out.valid, 0, |left|);
    assert rhs.None? ==> Unset(out.valid, |left|, |right|);
    CodesInDict(out, lhs, rhs, left, right);
  }

  lemma StringsKept(half: StringColumn, out: StringColumn, col: StringColumn, rows: seq<nat>)
    requires StringsCopied(half, 0, col, rows) && |out.codes| == |out.valid| && |rows| <= |out.valid| && out.dict == half.dict
    requires out.valid[..|rows|] == half.valid[..|rows|] && out.codes[..|rows|] == half.codes[..|rows|]
    ensures StringsCopied(out, 0, col, rows)
  {
    forall k: nat | k < |rows| ensures out.valid[k] == half.valid[k] && out.codes[k] == half.codes[k] {
      assert out.valid[..|rows|][k] == half.valid[..|rows|][k] && out.codes[..|rows|][k] == half.codes[..|rows|][k];
    }
  }

  lemma CodesInDict(out: StringColumn, lhs: Option<StringColumn>, rhs: Option<StringColumn>, left: seq<nat>, right: seq<nat>)
    requires |out.codes| == |out.valid| == |left| + |right|
    requires if lhs.Some? then StringsCopied(out, 0, lhs.value, left) else Unset(out.valid, 0, |left|)
    requires if rhs.Some? then StringsCopied(out, |left|, rhs.value, right) else Unset(out.valid, |left|, |right|)
    ensures StringColumnOk(out, |left| + |right|)
  {
    forall i | 0 <= i < |out.valid| && out.valid[i] ensures 0 <= out.codes[i] < |out.dict| {
      if i < |left| {
        if lhs.Some? { assert left[i] < |lhs.value.codes| && out.valid[0 + i]; }
      } else {
        var k := i - |left|;
        if rhs.Some? { assert right[k] < |rhs.value.codes| && out.valid[|left| + k]; }
      }
    }
  }

  // ---------------------------------------------------------------------------------------
  // The task

  function Column<C>(columns: map<nat, C>, key: nat): Option<C> {
    if key in columns then Some(columns[key]) else None
  }

  lemma ColumnsOk(b: Batch, key: nat, rows: seq<nat>)
    requires BatchOk(b) && Below(rows, |b.ids|)
    ensures var f := Column(b.floats, key); f.Some? ==> FloatColumnOk(f.value, |f.value.values|) && Below(rows, |f.value.values|)
    ensures var s := Column(b.strings, key); s.Some? ==> StringColumnOk(s.value, |s.value.codes|) && Below(rows, |s.value.codes|)
    ensures Column(b.floats, key).Some? <==> key in b.floats
    ensures Column(b.strings, key).Some? <==> key in b.strings
  {
  }

  method ConcatFloatColumns(lhs: Batch, rhs: Batch, left: seq<nat>, right: seq<nat>) returns (floats: map<nat, FloatColumn>)
    requires BatchOk(lhs) && BatchOk(rhs) && Below(left, |lhs.ids|) && Below(right, |rhs.ids|)
    ensures forall k :: k in floats <==> k in lhs.floats || k in rhs.floats
    ensures forall k :: k in floats ==> FloatsConcat(floats[k], Column(lhs.floats, k), Column(rhs.floats, k), left, right)
  {
    hide BatchOk, Below, FloatColumnOk, FloatsConcat, Column;
    floats := map[];
    var todo := lhs.floats.Keys + rhs.floats.Keys;
    while todo != {}
      invariant forall k :: k in floats || k in todo <==> k in lhs.floats || k in rhs.floats
      invariant forall k :: k in floats ==> FloatsConcat(floats[k], Column(lhs.floats, k), Column(rhs.floats, k), left, right)
      decreases |todo|
    {
      var key :| key in todo;
      ColumnsOk(lhs, key, left);
      ColumnsOk(rhs, key, right);
      var col := ConcatFloats(Column(lhs.floats, key), Column(rhs.floats, key), left, right);
      floats := floats[key := col];
      todo := todo - {key};
    }
  }

  method ConcatStringColumns(lhs: Batch, rhs: Batch, left: seq<nat>, right: seq<nat>) returns (strings: map<nat, StringColumn>)
    requires BatchOk(lhs) && BatchOk(rhs) && Below(left, |lhs.ids|) && Below(right, |rhs.ids|)
    ensures forall k :: k in strings <==> k in lhs.strings || k in rhs.strings
    ensures forall k :: k in strings ==> ColumnConcat(strings[k], Column(lhs.strings, k), Column(rhs.strings, k), left, right)
  {
    hide BatchOk, Below, StringColumnOk, ColumnConcat, Column;
    strings := map[];
    var todo := lhs.strings.Keys + rhs.strings.Keys;
    while todo != {}
      invariant forall k :: k in strings || k in todo <==> k in lhs.strings || k in rhs.strings
      invariant forall k :: k in strings ==> ColumnConcat(strings[k], Column(lhs.strings, k), Column(rhs.strings, k), left, right)
      decreases |todo|
    {
      var key :| key in todo;
      ColumnsOk(lhs, key, left);
      ColumnsOk(rhs, key, right);
      var col := ConcatStrings(Column(lhs.strings, key), Column(rhs.strings, key), left, right);
      strings := strings[key := col];
      todo := todo - {key};
    }
  }

  ghost predicate IdsCopied(ids: seq<int>, at: nat, b: Batch, rows: seq<nat>) {
    at + |rows| <= |ids| && forall k: nat :: k < |rows| ==> rows[k] < |b.ids| && ids[at + k] == b.ids[rows[k]]
  }

  lemma IdsKept(ids: seq<int>, longer: seq<int>, b: Batch, rows: seq<nat>)
    requires IdsCopied(ids, 0, b, rows) && ids <= longer
    ensures IdsCopied(longer, 0, b, rows)
  {
    forall k: nat | k < |rows| ensures rows[k] < |b.ids| && longer[0 + k] == b.ids[rows[k]] {
      assert longer[k] == ids[0 + k];
    }
  }

  method AppendIds(ids: seq<int>, b: Batch, rows: seq<nat>) returns (r: seq<int>)
    requires Below(rows, |b.ids|)
    ensures |r| == |ids| + |rows| && ids <= r && IdsCopied(r, |ids|, b, rows)
  {
    r := ids;
    for i := 0 to |rows|
      invariant |r| == |ids| + i && ids <= r
      invariant forall k: nat :: k < i ==> r[|ids| + k] == b.ids[rows[k]]
    {
      r := r + [b.ids[rows[i]]];
    }
  }

  method ConcatViews(lhs: RowSet, rhs: RowSet) returns (out: RowSet)
    requires WellFormed(lhs) && WellFormed(rhs)
    ensures IsConcat(out, lhs, rhs)
  {
    assert InRange(lhs) && InRange(rhs);
    hide BatchOk, IndicesOk, FloatsConcat, ColumnConcat, Below, Column, IsConcat, Active, IdsCopied, InRange, Visible;
    var left := AllRows(lhs);
    var right := AllRows(rhs);
    ActiveOk(lhs);
    ActiveOk(rhs);
    var leftIds := AppendIds([], lhs.batch, left);
    var ids := AppendIds(leftIds, rhs.batch, right);
    var floats := ConcatFloatColumns(lhs.batch, rhs.batch, left, right);
    var strings := ConcatStringColumns(lhs.batch, rhs.batch, left, right);
    out := RowSet(Batch(ids, seq(|ids|, _ => true), floats, strings), None, None);
    IdsKept(leftIds, ids, lhs.batch, left);
    ColumnsMakeConcat(out, lhs, rhs);
  }

  lemma ColumnsMakeConcat(out: RowSet, lhs: RowSet, rhs: RowSet)
    requires WellFormed(lhs) && WellFormed(rhs) && out.selection == None && out.order == None
    requires |out.batch.ids| == |out.batch.idValid| == |Active(lhs)| + |Active(rhs)|
    requires forall i :: 0 <= i < |out.batch.idValid| ==> out.batch.idValid[i]
    requires Below(Active(lhs), RowCount(lhs)) && Below(Active(rhs), RowCount(rhs))
    requires IdsCopied(out.batch.ids, 0, lhs.batch, Active(lhs)) && IdsCopied(out.batch.ids, |Active(lhs)|, rhs.batch, Active(rhs))
    requires ColumnsCopied(out.batch, lhs.batch, rhs.batch, Active(lhs), Active(rhs))
    ensures IsConcat(out, lhs, rhs)
  {
    RowsConcat(out.batch, lhs.batch, rhs.batch, Active(lhs), Active(rhs));
    hide BatchOk, FloatsConcat, ColumnConcat, SameRow, Column, Active;
  }

  lemma RowsConcat(b: Batch, lhs: Batch, rhs: Batch, left: seq<nat>, right: seq<nat>)
    requires BatchOk(lhs) && BatchOk(rhs) && Below(left, |lhs.ids|) && Below(right, |rhs.ids|)
    requires |b.ids| == |b.idValid| == |left| + |right| && forall i :: 0 <= i < |b.idValid| ==> b.idValid[i]
    requires IdsCopied(b.ids, 0, lhs, left) && IdsCopied(b.ids, |left|, rhs, right)
    requires ColumnsCopied(b, lhs, rhs, left, right)
    ensures BatchOk(b)
    ensures forall i: nat :: i < |left| ==> left[i] < |lhs.ids| && SameRow(b, i, lhs, left[i])
    ensures forall i: nat :: i < |right| ==> right[i] < |rhs.ids| && SameRow(b, |left| + i, rhs, right[i])
  {
    hide SameRow, FloatsCopied, StringsCopied;
    forall i: nat | i < |left| ensures SameRow(b, i, lhs, left[i]) { LeftRow(b, lhs, rhs, left, right, i); }
    forall i: nat | i < |right| ensures SameRow(b, |left| + i, rhs, right[i]) { RightRow(b, lhs, rhs, left, right, i); }
  }

  /** The columns of `b` are those of both sides, copied. */
  ghost predicate ColumnsCopied(b: Batch, lhs: Batch, rhs: Batch, left: seq<nat>, right: seq<nat>) {
    && (forall k :: k in b.floats <==> k in lhs.floats || k in rhs.floats)
    && (forall k :: k in b.strings <==> k in lhs.strings || k in rhs.strings)
    && (forall k :: k in b.floats ==> FloatsConcat(b.floats[k], Column(lhs.floats, k), Column(rhs.floats, k), left, right))
    && (forall k :: k in b.strings ==> ColumnConcat(b.strings[k], Column(lhs.strings, k), Column(rhs.strings, k), left, right))
  }

  lemma LeftRow(b: Batch, lhs: Batch, rhs: Batch, left: seq<nat>, right: seq<nat>, i: nat)
    requires BatchOk(b) && BatchOk(lhs) && ColumnsCopied(b, lhs, rhs, left, right) && |b.ids| == |left| + |right|
    requires i < |left| && left[i] < |lhs.ids| && b.ids[0 + i] == lhs.ids[left[i]] && b.idValid[i]
    ensures SameRow(b, i, lhs, left[i])
  {
    forall k: nat ensures FloatCell(b, k, i) == FloatCell(lhs, k, left[i]) {
      if k in b.floats { FloatHalf(b.floats[k], 0, Column(lhs.floats, k), left, i); }
    }
    forall k: nat ensures StringCell(b, k, i) == StringCell(lhs, k, left[i]) {
      if k in b.strings && k in lhs.strings { StringHalf(b.strings[k], 0, lhs.strings[k], left, i); }
    }
  }

  lemma RightRow(b: Batch, lhs: Batch, rhs: Batch, left: seq<nat>, right: seq<nat>, i: nat)
    requires BatchOk(b) && BatchOk(rhs) && ColumnsCopied(b, lhs, rhs, left, right) && |b.ids| == |left| + |right|
    requires i < |right| && right[i] < |rhs.ids| && b.ids[|left| + i] == rhs.ids[right[i]] && b.idValid[|left| + i]
    ensures SameRow(b, |left| + i, rhs, right[i])
  {
    forall k: nat ensures FloatCell(b, k, |left| + i) == FloatCell(rhs, k, right[i]) {
      if k in b.floats { FloatHalf(b.floats[k], |left|, Column(rhs.floats, k), right, i); }
    }
    forall k: nat ensures StringCell(b, k, |left| + i) == StringCell(rhs, k, right[i]) {
      if k in b.strings && k in rhs.strings { StringHalf(b.strings[k], |left|, rhs.strings[k], right, i); }
    }
  }

  lemma FloatHalf(out: FloatColumn, at: nat, col: Option<FloatColumn>, rows: seq<nat>, k: nat)
    requires FloatsCopied(out, at, col, rows) && k < |rows|
    ensures FloatAt(out, at + k) == if col.None? then None else FloatAt(col.value, rows[k])
  {
    var row := rows[k];
  }

  lemma StringHalf(out: StringColumn, at: nat, col: StringColumn, rows: seq<nat>, k: nat)
    requires StringsCopied(out, at, col, rows) && k < |rows| && at + k < |out.codes| && rows[k] < |col.codes|
    requires StringColumnOk(col, |col.codes|) && StringColumnOk(out, |out.codes|)
    ensures StringAt(out, at + k) == StringAt(col, rows[k])
  {
  }

  method RunConcat(inputs: seq<RowSet>, rhs: Option<RowSet>) returns (r: Result<RowSet>)
    requires (forall i :: 0 <= i < |inputs| ==> WellFormed(inputs[i])) && (rhs.Some? ==> WellFormed(rhs.value))
    ensures r.Ok? <==> |inputs| == 1 && rhs.Some?
    ensures r.Ok? ==> IsConcat(r.value, inputs[0], rhs.value)
    ensures r.Ok? ==> OutputContract.Meets(OutputContract.ConcatDense, [inputs[0], rhs.value], map[], r.value)
  {
    if |inputs| != 1 { return Err("op 'concat' expects exactly 1 input"); }
    if rhs.None? { return Err("op 'concat' missing resolved 'rhs' NodeRef"); }
    var out := ConcatViews(inputs[0], rhs.value);
    r := Ok(out);
  }
}
