/**
 Ids of expressions and predicates: those the plan builder hands out, those that stand for
 extracted source, and the merge that joins them.

 The same code exists twice, for expressions (`e`) and for predicates (`p`); `prefix` is that letter.
 */
module IdTables {
  import opened Wrappers

  function Digit(d: nat): char
    requires d < 10
  {
    "0123456789"[d]
  }

  function Decimal(n: nat): (s: string)
    ensures s != []
  {
    if n < 10 then [Digit(n)] else Decimal(n / 10) + [Digit(n % 10)]
  }

  lemma DigitInjective(a: nat, b: nat)
    requires a < 10 && b < 10 && Digit(a) == Digit(b)
    ensures a == b
  {
  }

  lemma DecimalLength(n: nat)
    ensures |Decimal(n)| == 1 <==> n < 10
  {
  }

  lemma {:induction false} DecimalInjective(a: nat, b: nat)
    requires Decimal(a) == Decimal(b)
    ensures a == b
  {
    var s, t := Decimal(a), Decimal(b);
    DecimalLength(a);
    DecimalLength(b);
    if a < 10 {
      assert s[0] == t[0];
      DigitInjective(a, b);
    } else {
      assert s[..|s|-1] == Decimal(a / 10) && t[..|t|-1] == Decimal(b / 10);
      assert s[|s|-1] == Digit(a % 10) && t[|t|-1] == Digit(b % 10);
      DecimalInjective(a / 10, b / 10);
      DigitInjective(a % 10, b % 10);
    }
  }

  /** What a numeral stands for, read from its last digit. */
  function ValueOf(s: string): int {
    if s == [] then 0 else 10 * ValueOf(s[..|s|-1]) + (s[|s|-1] as int - '0' as int)
  }

  /** The numeral of `n` reads as `n`, in digits, and has no leading zero. */
  lemma {:induction false} DecimalReads(n: nat)
    ensures ValueOf(Decimal(n)) == n
    ensures forall k :: 0 <= k < |Decimal(n)| ==> '0' <= Decimal(n)[k] <= '9'
    ensures n > 0 ==> Decimal(n)[0] != '0'
  {
    var s := Decimal(n);
    if n < 10 {
      assert s[..0] == [];
    } else {
      DecimalReads(n / 10);
      assert s[..|s|-1] == Decimal(n / 10) && s[|s|-1] == Digit(n % 10);
    }
  }

  const STATIC := "__static_"

  /** `e3`. */
  function BuilderId(prefix: char, n: nat): string { [prefix] + Decimal(n) }

  /** `__static_e3`. */
  function StaticId(prefix: char, n: nat): string { STATIC + [prefix] + Decimal(n) }

  lemma BuilderInjective(prefix: char, a: nat, b: nat)
    requires BuilderId(prefix, a) == BuilderId(prefix, b)
    ensures a == b
  {
    assert BuilderId(prefix, a)[1..] == Decimal(a) && BuilderId(prefix, b)[1..] == Decimal(b);
    DecimalInjective(a, b);
  }

  lemma StaticInjective(prefix: char, a: nat, b: nat)
    requires StaticId(prefix, a) == StaticId(prefix, b)
    ensures a == b
  {
    assert StaticId(prefix, a)[10..] == Decimal(a) && StaticId(prefix, b)[10..] == Decimal(b);
    DecimalInjective(a, b);
  }

  /** `startsWith("__static_e")`: no id of the builder does. */
  predicate IsStatic(prefix: char, id: string) { STATIC + [prefix] <= id }

  lemma BuilderIsNotStatic(prefix: char, n: nat, id: string)
    requires prefix != '_' && id == BuilderId(prefix, n)
    ensures !IsStatic(prefix, id)
  {
    assert id[0] == prefix && (STATIC + [prefix])[0] == '_';
  }

  /** What a task call was given: IR made by the builder, or a placeholder left by the extractor. */
  datatype Input<IR> = Built(ir: IR) | Placeholder(index: nat)

  /** The IR the call is about. */
  ghost predicate Intends<IR>(input: Input<IR>, extracted: seq<IR>, ir: IR) {
    match input
    case Built(built) => ir == built
    case Placeholder(index) => index < |extracted| && ir == extracted[index]
  }

  /** `id` is one of the builder's first `n` ids. */
  ghost predicate IsNumbered(prefix: char, id: string, n: nat) {
    exists k: nat :: k < n && id == BuilderId(prefix, k)
  }

  /** The table holds `e0`, `e1`, … and nothing else. */
  ghost predicate Dense<IR>(prefix: char, table: map<string, IR>) {
    && (forall k: nat :: k < |table| ==> BuilderId(prefix, k) in table)
    && (forall id :: id in table ==> IsNumbered(prefix, id, |table|))
  }

  /** Each node's id is that of its own IR in the table, or stands for its placeholder. */
  ghost predicate Recorded<IR>(prefix: char, table: map<string, IR>, ids: seq<string>, inputs: seq<Input<IR>>) {
    && |ids| == |inputs|
    && forall i :: 0 <= i < |ids| ==>
         match inputs[i]
         case Built(ir) => ids[i] in table && table[ids[i]] == ir && !IsStatic(prefix, ids[i])
         case Placeholder(index) => ids[i] == StaticId(prefix, index)
  }

  lemma NumberedMore(prefix: char, id: string, n: nat)
    requires IsNumbered(prefix, id, n)
    ensures IsNumbered(prefix, id, n + 1) && id != BuilderId(prefix, n)
  {
    var k: nat :| k < n && id == BuilderId(prefix, k);
    assert k < n + 1;
    if id == BuilderId(prefix, n) { BuilderInjective(prefix, k, n); }
  }

  lemma NextIsNew<IR>(prefix: char, table: map<string, IR>, ir: IR)
    requires Dense(prefix, table)
    ensures var id := BuilderId(prefix, |table|);
      id !in table && Dense(prefix, table[id := ir]) && |table[id := ir]| == |table| + 1
  {
    var n, id := |table|, BuilderId(prefix, |table|);
    forall other | other in table ensures IsNumbered(prefix, other, n + 1) && other != id { NumberedMore(prefix, other, n); }
    assert IsNumbered(prefix, id, n + 1);
    hide BuilderId, IsNumbered;
    NewEntry(table, id, ir);
  }

  lemma NewEntry<IR>(table: map<string, IR>, id: string, ir: IR)
    requires id !in table
    ensures |table[id := ir]| == |table| + 1
  {
    assert table[id := ir].Keys == table.Keys + {id};
  }

  /** The plan context, as far as one kind of table is concerned. */
  class PlanCtx<IR(==)> {
    const prefix: char
    var table: map<string, IR>
    var ids: seq<string>
    ghost var inputs: seq<Input<IR>>

    ghost predicate Valid()
      reads this
    {
      prefix != '_' && Dense(prefix, table) && Recorded(prefix, table, ids, inputs)
    }

    constructor (letter: char)
      requires letter != '_'
      ensures Valid() && fresh(this) && prefix == letter && ids == [] && inputs == [] && table == map[]
    {
      prefix := letter;
      table, ids, inputs := map[], [], [];
    }

    /** `addExpr` and `addPred`. */
    method AddIR(ir: IR) returns (id: string)
      requires Valid()
      modifies this`table
      ensures Valid() && id !in old(table) && table == old(table)[id := ir] && id == BuilderId(prefix, |old(table)|)
    {
      NextIsNew(prefix, table, ir);
      id := BuilderId(prefix, |table|);
      table := table[id := ir];
      assert forall i :: 0 <= i < |ids| && inputs[i].Built? ==> ids[i] in old(table);
    }

    /** A task call that takes an expression or predicate. */
    method AddNode(input: Input<IR>)
      requires Valid()
      modifies this
      ensures Valid() && inputs == old(inputs) + [input] && |ids| == |old(ids)| + 1 && old(ids) <= ids
      ensures forall id :: id in old(table) ==> id in table && table[id] == old(table)[id]
    {
      var id: string;
      match input {
        case Built(ir) =>
          BuilderIsNotStatic(prefix, |table|, BuilderId(prefix, |table|));
          id := AddIR(ir);
        case Placeholder(index) =>
          id := StaticId(prefix, index);
      }
      ids := ids + [id];
      inputs := inputs + [input];
    }
  }

  /** Every node's id is in the table with the IR its call is about. */
  ghost predicate Resolved<IR>(table: map<string, IR>, ids: seq<string>, inputs: seq<Input<IR>>, extracted: seq<IR>) {
    && |ids| == |inputs|
    && forall i :: 0 <= i < |ids| ==> ids[i] in table && Intends(inputs[i], extracted, table[ids[i]])
  }

  /**
   `mergeExtractedExprs` and `mergeExtractedPreds`: the extracted IR gets fresh ids, the nodes that
   stand for it are renamed, and what the builder made keeps its ids and entries.
   */
  method MergeExtracted<IR>(prefix: char, table: map<string, IR>, ids: seq<string>, extracted: seq<IR>, ghost inputs: seq<Input<IR>>)
      returns (merged: map<string, IR>, renamed: seq<string>)
    requires prefix != '_' && Dense(prefix, table) && Recorded(prefix, table, ids, inputs)
    requires forall i :: 0 <= i < |inputs| && inputs[i].Placeholder? ==> inputs[i].index < |extracted|
    ensures Resolved(merged, renamed, inputs, extracted)
    ensures forall id :: id in table ==> id in merged && merged[id] == table[id]
    ensures forall i :: 0 <= i < |ids| && inputs[i].Built? ==> renamed[i] == ids[i]
    ensures Dense(prefix, merged) && |merged| == |table| + |extracted|
  {
    hide Dense, IsStatic;
    var idRemap;
    merged, idRemap := AddExtracted(prefix, table, extracted);
    renamed := [];
    for i := 0 to |ids|
      invariant |renamed| == i
      invariant forall j :: 0 <= j < i ==> renamed[j] in merged && Intends(inputs[j], extracted, merged[renamed[j]])
      invariant forall j :: 0 <= j < i && inputs[j].Built? ==> renamed[j] == ids[j]
    {
      var id := Rename(prefix, ids[i], idRemap);
      RenameResolves(prefix, table, merged, idRemap, extracted, ids, inputs, i);
      renamed := renamed + [id];
    }
  }

  function Rename(prefix: char, id: string, idRemap: map<string, string>): string {
    if IsStatic(prefix, id) && id in idRemap then idRemap[id] else id
  }

  lemma RenameResolves<IR>(prefix: char, table: map<string, IR>, merged: map<string, IR>, idRemap: map<string, string>, extracted: seq<IR>, ids: seq<string>, inputs: seq<Input<IR>>, i: nat)
    requires Recorded(prefix, table, ids, inputs) && i < |ids|
    requires Remaps(prefix, merged, idRemap, extracted, |extracted|)
    requires forall id :: id in table ==> id in merged && merged[id] == table[id]
    requires inputs[i].Placeholder? ==> inputs[i].index < |extracted|
    ensures var id := Rename(prefix, ids[i], idRemap);
      id in merged && Intends(inputs[i], extracted, merged[id]) && (inputs[i].Built? ==> id == ids[i])
  {
    if inputs[i].Placeholder? {
      var index := inputs[i].index;
      assert IsStatic(prefix, StaticId(prefix, index));
    }
  }

  /** The first loop of the merge: extracted IR `n` goes into the table, and `__static_en` to its id. */
  method AddExtracted<IR>(prefix: char, table: map<string, IR>, extracted: seq<IR>) returns (merged: map<string, IR>, idRemap: map<string, string>)
    requires Dense(prefix, table)
    ensures Dense(prefix, merged) && |merged| == |table| + |extracted|
    ensures forall id :: id in table ==> id in merged && merged[id] == table[id]
    ensures Remaps(prefix, merged, idRemap, extracted, |extracted|)
  {
    hide Dense, Remaps, BuilderId, StaticId;
    merged, idRemap := table, map[];
    var nextId := |table|;
    NoRemaps(prefix, merged, idRemap, extracted);
    for k := 0 to |extracted|
      invariant nextId == |merged| == |table| + k && Dense(prefix, merged)
      invariant forall id :: id in table ==> id in merged && merged[id] == table[id]
      invariant Remaps(prefix, merged, idRemap, extracted, k)
    {
      var newId := BuilderId(prefix, nextId);
      NextIsNew(prefix, merged, extracted[k]);
      RemapGrows(prefix, merged, idRemap, extracted, k, newId);
      merged := merged[newId := extracted[k]];
      idRemap := idRemap[StaticId(prefix, k) := newId];
      nextId := nextId + 1;
    }
  }

  lemma NoRemaps<IR>(prefix: char, merged: map<string, IR>, idRemap: map<string, string>, extracted: seq<IR>)
    ensures Remaps(prefix, merged, idRemap, extracted, 0)
  {
  }

  /** The first `k` extracted IRs are in the table under the ids to which their placeholders go. */
  ghost predicate Remaps<IR>(prefix: char, merged: map<string, IR>, idRemap: map<string, string>, extracted: seq<IR>, k: nat) {
    && k <= |extracted|
    && forall n: nat :: n < k ==>
         var id := StaticId(prefix, n);
         id in idRemap && idRemap[id] in merged && merged[idRemap[id]] == extracted[n]
  }

  lemma RemapGrows<IR>(prefix: char, merged: map<string, IR>, idRemap: map<string, string>, extracted: seq<IR>, k: nat, newId: string)
    requires Remaps(prefix, merged, idRemap, extracted, k) && k < |extracted| && newId !in merged
    ensures Remaps(prefix, merged[newId := extracted[k]], idRemap[StaticId(prefix, k) := newId], extracted, k + 1)
  {
    forall n: nat | n < k ensures StaticId(prefix, n) != StaticId(prefix, k) {
      if StaticId(prefix, n) == StaticId(prefix, k) { StaticInjective(prefix, n, k); }
    }
  }
}
