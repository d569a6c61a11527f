/**
 The output contracts of tasks, checked on the active rows after every execution.

 A checker sees at most as many rows of a view as its batch has. On the rows it sees it decides a
 declarative relation between input and output; that is the relation on the views themselves when
 neither view has more active rows than that, and the `..Iff` lemmas say exactly for which inputs and
 for which outputs an overfull view goes wrong. What filter, sort and take produce from a
 well-formed input is never rejected.
 */
module OutputContract {
  import opened Wrappers
  import opened RowSets
  import opened Sorting
  import opened RowTasks

  datatype Pattern =
    | SourceFanoutDense | UnaryPreserveView | StableFilter | PrefixOfInput
    | PermutationOfInput | ConcatDense | VariableDense

  /** `static_cast<size_t>` of a 64-bit integer. */
  function AsSize(x: int): nat { x % 0x1_0000_0000_0000_0000 }

  // ---------------------------------------------------------------------------------------
  // The relations

  ghost predicate Dense(rs: RowSet) { Active(rs) == Upto(RowCount(rs)) }

  /** `f` sends each place of `ys` to a place of `xs` with the same row, in increasing order. */
  ghost predicate IsEmbedding(ys: seq<nat>, xs: seq<nat>, f: seq<nat>) {
    && |f| == |ys| && Below(f, |xs|)
    && (forall i, j :: 0 <= i < j < |f| ==> f[i] < f[j])
    && (forall k :: 0 <= k < |f| ==> xs[f[k]] == ys[k])
  }

  ghost predicate Embeds(ys: seq<nat>, xs: seq<nat>) {
    exists f: seq<nat> :: IsEmbedding(ys, xs, f)
  }

  /** The four patterns that relate the rows of the output to those of the first input. */
  ghost predicate Related(pattern: Pattern, ints: map<string, int>, xs: seq<nat>, ys: seq<nat>) {
    match pattern
    case UnaryPreserveView => ys == xs
    case StableFilter => Embeds(ys, xs)
    case PrefixOfInput => "count" in ints && ys == FirstRows(xs, AsSize(ints["count"]))
    case PermutationOfInput => multiset(ys) == multiset(xs)
    case _ => false
  }

  predicate Relates(pattern: Pattern) {
    pattern == UnaryPreserveView || pattern == StableFilter || pattern == PrefixOfInput || pattern == PermutationOfInput
  }

  /** What each pattern promises of a task's output. */
  ghost predicate Meets(pattern: Pattern, inputs: seq<RowSet>, ints: map<string, int>, output: RowSet) {
    match pattern
    case SourceFanoutDense => "fanout" in ints && RowCount(output) == AsSize(ints["fanout"]) && Dense(output)
    case ConcatDense =>
      |inputs| == 2 && RowCount(output) == |Active(inputs[0])| + |Active(inputs[1])| && Dense(output)
    case VariableDense => Dense(output)
    case _ =>
      inputs != [] && RowCount(output) == RowCount(inputs[0]) && Related(pattern, ints, Active(inputs[0]), Active(output))
  }

  /** What the check looks at: the same, of the rows it sees. */
  ghost predicate Accepts(pattern: Pattern, inputs: seq<RowSet>, ints: map<string, int>, output: RowSet) {
    if Relates(pattern) then
      inputs != [] && RowCount(output) == RowCount(inputs[0]) && Related(pattern, ints, Visible(inputs[0]), Visible(output))
    else Meets(pattern, inputs, ints, output)
  }

  /** No more rows are active than the batch has. */
  predicate Fits(rs: RowSet) { |Active(rs)| <= RowCount(rs) }

  // ---------------------------------------------------------------------------------------
  // The checkers

  datatype Counter = Counter(count: nat, ok: bool)

  function CountUp(): (nat, Counter) -> (Counter, bool) {
    (idx: nat, c: Counter) => if idx != c.count then (c.(ok := false), false) else (c.(count := c.count + 1), true)
  }

  lemma {:induction false} CountUpFolds(xs: seq<nat>, from: nat)
    ensures var c := FoldUntil(xs, CountUp(), Counter(from, true));
      && (c.ok <==> forall k :: 0 <= k < |xs| ==> xs[k] == from + k)
      && (c.ok ==> c.count == from + |xs|)
  {
    if xs != [] && xs[0] == from {
      CountUpFolds(xs[1..], from + 1);
      assert forall k :: 0 < k < |xs| ==> xs[k] == xs[1..][k-1];
      assert forall k :: 0 <= k < |xs[1..]| ==> xs[1..][k] == xs[k+1];
    }
  }

  method IsDenseActive(rs: RowSet) returns (dense: bool)
    requires InRange(rs)
    ensures dense <==> Dense(rs)
  {
    var end := ForEachIndex(rs, CountUp(), Counter(0, true));
    CountUpFolds(Active(rs), 0);
    dense := end.ok && end.count == RowCount(rs);
  }

  method ActiveRowsEqual(input: RowSet, output: RowSet) returns (same: bool)
    requires InRange(input) && InRange(output)
    ensures same <==> Visible(output) == Visible(input)
  {
    var xs := AllRows(input);
    var ys := AllRows(output);
    same := xs == ys;
  }

  /** `f` places the first `j` rows of `ys` in `xs`, as early as possible, all before `i`. */
  ghost predicate Greedy(ys: seq<nat>, xs: seq<nat>, f: seq<nat>, i: nat, j: nat) {
    && i <= |xs| && j <= |ys| && |f| == j && Below(f, i)
    && (forall a, b :: 0 <= a < b < j ==> f[a] < f[b])
    && (forall k :: 0 <= k < j ==> f[k] < |xs| && xs[f[k]] == ys[k])
    && (forall g: seq<nat> :: IsEmbedding(ys, xs, g) && j < |ys| ==> g[j] >= i)
  }

  lemma GreedyStep(ys: seq<nat>, xs: seq<nat>, f: seq<nat>, i: nat, j: nat)
    requires Greedy(ys, xs, f, i, j) && i < |xs| && j < |ys|
    ensures if xs[i] == ys[j] then Greedy(ys, xs, f + [i], i + 1, j + 1) else Greedy(ys, xs, f, i + 1, j)
  {
    forall g: seq<nat> | IsEmbedding(ys, xs, g)
      ensures if xs[i] != ys[j] then g[j] >= i + 1 else j + 1 < |ys| ==> g[j+1] >= i + 1
    {
      assert g[j] >= i;
    }
  }

  lemma GreedyEnds(ys: seq<nat>, xs: seq<nat>, f: seq<nat>, i: nat, j: nat)
    requires Greedy(ys, xs, f, i, j) && (i == |xs| || j == |ys|)
    ensures Embeds(ys, xs) <==> j == |ys|
  {
    if j == |ys| {
      assert IsEmbedding(ys, xs, f);
    } else {
      forall g: seq<nat> ensures !IsEmbedding(ys, xs, g) { TooLate(ys, xs, g, j, i); }
    }
  }

  /** One greedy pass succeeds if and only if there is any embedding at all. */
  method IsSubsequence(input: RowSet, output: RowSet) returns (sub: bool)
    requires InRange(input) && InRange(output)
    ensures sub <==> Embeds(Visible(output), Visible(input))
  {
    var xs := AllRows(input);
    var ys := AllRows(output);
    var i, j := 0, 0;
    ghost var f: seq<nat> := [];
    assert Greedy(ys, xs, f, i, j);
    hide Active, Visible, InRange, NoDup, Greedy, Embeds;
    while i < |xs| && j < |ys|
      invariant i <= |xs| && j <= |ys| && Greedy(ys, xs, f, i, j)
    {
      GreedyStep(ys, xs, f, i, j);
      if xs[i] == ys[j] {
        f := f + [i];
        j := j + 1;
      }
      i := i + 1;
    }
    sub := j == |ys|;
    GreedyEnds(ys, xs, f, i, j);
  }

  lemma TooLate(ys: seq<nat>, xs: seq<nat>, g: seq<nat>, j: nat, i: nat)
    requires j < |ys| && i >= |xs| && (IsEmbedding(ys, xs, g) ==> g[j] >= i)
    ensures !IsEmbedding(ys, xs, g)
  {
  }

  method IsPrefix(input: RowSet, output: RowSet, expected: nat) returns (prefix: bool)
    requires InRange(input) && InRange(output)
    ensures prefix <==> Visible(output) == FirstRows(Visible(input), expected)
  {
    var xs := AllRows(input);
    var ys := AllRows(output);
    var k := if expected < |xs| then expected else |xs|;
    if |ys| != k { return false; }
    var i := 0;
    while i < k
      invariant 0 <= i <= k && xs[..i] == ys[..i]
    {
      if xs[i] != ys[i] { return false; }
      i := i + 1;
    }
    return true;
  }

  method IsPermutation(input: RowSet, output: RowSet) returns (perm: bool)
    requires InRange(input) && InRange(output)
    ensures perm <==> multiset(Visible(output)) == multiset(Visible(input))
  {
    var xs := AllRows(input);
    var ys := AllRows(output);
    SortedEqualIff(xs, ys);
    if |xs| != |ys| {
      assert |multiset(xs)| != |multiset(ys)|;
      return false;
    }
    return SortAll(xs) == SortAll(ys);
  }

  /** The contract check accepts an output exactly when the rows it sees are related as the pattern says. */
  method ValidateTaskOutput(pattern: Pattern, inputs: seq<RowSet>, ints: map<string, int>, output: RowSet) returns (r: Result<RowSet>)
    requires InRange(output) && forall i :: 0 <= i < |inputs| ==> InRange(inputs[i])
    ensures r.Ok? <==> Accepts(pattern, inputs, ints, output)
    ensures r.Ok? ==> r.value == output
  {
    var rejected := Err("violated output contract");
    match pattern {
      case SourceFanoutDense =>
        if "fanout" !in ints || RowCount(output) != AsSize(ints["fanout"]) { return rejected; }
        var dense := IsDenseActive(output);
        if !dense { return rejected; }
      case UnaryPreserveView =>
        if inputs == [] || RowCount(output) != RowCount(inputs[0]) { return rejected; }
        var same := ActiveRowsEqual(inputs[0], output);
        if !same { return rejected; }
      case StableFilter =>
        if inputs == [] || RowCount(output) != RowCount(inputs[0]) { return rejected; }
        var sub := IsSubsequence(inputs[0], output);
        if !sub { return rejected; }
      case PrefixOfInput =>
        if inputs == [] || "count" !in ints { return rejected; }
        var active := Size(inputs[0]);
        var expected := if AsSize(ints["count"]) < active then AsSize(ints["count"]) else active;
        if RowCount(output) != RowCount(inputs[0]) { return rejected; }
        var prefix := IsPrefix(inputs[0], output, expected);
        if !prefix { return rejected; }
      case PermutationOfInput =>
        if inputs == [] || RowCount(output) != RowCount(inputs[0]) { return rejected; }
        var perm := IsPermutation(inputs[0], output);
        if !perm { return rejected; }
      case ConcatDense =>
        if |inputs| != 2 { return rejected; }
        var left := Size(inputs[0]);
        var right := Size(inputs[1]);
        if RowCount(output) != left + right { return rejected; }
        var dense := IsDenseActive(output);
        if !dense { return rejected; }
      case VariableDense =>
        var dense := IsDenseActive(output);
        if !dense { return rejected; }
    }
    return Ok(output);
  }

  // ---------------------------------------------------------------------------------------
  // What the check decides

  /** On views that fit, accepting is meeting the contract. */
  lemma AcceptsIsMeets(pattern: Pattern, inputs: seq<RowSet>, ints: map<string, int>, output: RowSet)
    requires Fits(output) && (inputs != [] ==> Fits(inputs[0]))
    ensures Accepts(pattern, inputs, ints, output) <==> Meets(pattern, inputs, ints, output)
  {
  }

  /** The check is right about the pair. */
  ghost predicate Right(pattern: Pattern, ints: map<string, int>, input: RowSet, output: RowSet) {
    Accepts(pattern, [input], ints, output) <==> Meets(pattern, [input], ints, output)
  }

  /** The check is right about `output` against every input that fits. */
  ghost predicate RightForOutput(pattern: Pattern, ints: map<string, int>, output: RowSet) {
    forall input: RowSet :: InRange(input) && Fits(input) && RowCount(input) == RowCount(output) ==> Right(pattern, ints, input, output)
  }

  /** The check is right about `input` against every output that fits. */
  ghost predicate RightForInput(pattern: Pattern, ints: map<string, int>, input: RowSet) {
    forall output: RowSet :: InRange(output) && Fits(output) && RowCount(output) == RowCount(input) ==> Right(pattern, ints, input, output)
  }

  /** A prefix shorter than the batch is too short for the rows that are seen of an overfull output. */
  ghost predicate ShortPrefix(pattern: Pattern, ints: map<string, int>, output: RowSet) {
    pattern == PrefixOfInput && ("count" in ints ==> AsSize(ints["count"]) < RowCount(output))
  }

  /** Overfull inputs that do no harm: the prefix asked for is seen whole, or all rows are one row. */
  ghost predicate SeenEnough(pattern: Pattern, ints: map<string, int>, input: RowSet) {
    match pattern
    case PrefixOfInput => "count" in ints ==> AsSize(ints["count"]) <= RowCount(input)
    case StableFilter => OneRow(Active(input))
    case _ => false
  }

  predicate OneRow(xs: seq<nat>) {
    forall k :: 0 <= k < |xs| ==> xs[k] == xs[0]
  }

  /**
   Against inputs that fit, the check is right about exactly the outputs that fit; a prefix check
   with a small count also rejects the others rightly.
   */
  lemma RightForOutputIff(pattern: Pattern, ints: map<string, int>, output: RowSet)
    requires Relates(pattern) && InRange(output)
    ensures RightForOutput(pattern, ints, output) <==> Fits(output) || ShortPrefix(pattern, ints, output)
  {
    if Fits(output) {
      forall input: RowSet | InRange(input) && Fits(input) ensures Right(pattern, ints, input, output) {
        AcceptsIsMeets(pattern, [input], ints, output);
      }
    } else {
      forall input: RowSet | InRange(input) && Fits(input) && RowCount(input) == RowCount(output)
        ensures !Meets(pattern, [input], ints, output)
      {
        LongerIsUnrelated(pattern, ints, Active(input), Active(output));
      }
      if !ShortPrefix(pattern, ints, output) {
        var input := SeenOf(output);
        SameIsRelated(pattern, ints, Visible(output));
        assert Accepts(pattern, [input], ints, output) && !Right(pattern, ints, input, output);
      }
    }
  }

  /** The view of the rows that are seen of another. */
  function SeenOf(rs: RowSet): (r: RowSet)
    requires InRange(rs)
    ensures InRange(r) && Fits(r) && RowCount(r) == RowCount(rs) && Active(r) == Visible(r) == Visible(rs)
  {
    ActiveInRange(rs);
    RowSet(rs.batch, Some(Visible(rs)), None)
  }

  /**
   Against outputs that fit, the check is right about exactly the inputs that fit, the inputs whose
   rows are all the same (as a subsequence), and those of which no more is asked than is seen (as a prefix).
   */
  lemma RightForInputIff(pattern: Pattern, ints: map<string, int>, input: RowSet)
    requires Relates(pattern) && InRange(input)
    ensures RightForInput(pattern, ints, input) <==> Fits(input) || SeenEnough(pattern, ints, input)
  {
    if Fits(input) {
      forall output: RowSet | Fits(output) ensures Right(pattern, ints, input, output) {
        AcceptsIsMeets(pattern, [input], ints, output);
      }
    } else if SeenEnough(pattern, ints, input) {
      forall output: RowSet | Fits(output) && RowCount(output) == RowCount(input) ensures Right(pattern, ints, input, output) {
        if pattern == StableFilter { OneRowEmbeds(Active(output), Active(input), RowCount(input)); }
      }
    } else {
      var output := WrongOutput(pattern, ints, input);
      assert !Right(pattern, ints, input, output);
    }
  }

  /** An output that fits and is judged wrongly against an overfull input. */
  lemma WrongOutput(pattern: Pattern, ints: map<string, int>, input: RowSet) returns (output: RowSet)
    requires Relates(pattern) && InRange(input) && !Fits(input) && !SeenEnough(pattern, ints, input)
    ensures InRange(output) && Fits(output) && RowCount(output) == RowCount(input) && !Right(pattern, ints, input, output)
  {
    var xs, n := Active(input), RowCount(input);
    ActiveInRange(input);
    if n == 0 { NoneBelowZero(xs); }
    if pattern == StableFilter {
      var ys := Unseen(xs, n);
      output := RowSet(input.batch, Some(ys), None);
      assert Active(output) == Visible(output) == ys && Visible(input) == xs[..n];
      assert InRange(output) && Fits(output);
    } else {
      output := SeenOf(input);
      SameIsRelated(pattern, ints, Visible(input));
      assert Accepts(pattern, [input], ints, output);
      ShorterIsUnrelated(pattern, ints, xs, Active(output));
    }
  }

  /** Rows that embed in `xs` and not in its first `n`, when not all of `xs` is one row. */
  lemma Unseen(xs: seq<nat>, n: nat) returns (ys: seq<nat>)
    requires 0 < n < |xs| && !OneRow(xs)
    ensures |ys| == n && Embeds(ys, xs) && !Embeds(ys, xs[..n])
    ensures forall i :: 0 <= i < n ==> ys[i] in xs
  {
    var k: nat := n;
    if j: nat :| n <= j < |xs| && xs[j] != xs[0] { k := j; }
    ys := xs[1..n] + [xs[k]];
    assert IsEmbedding(ys, xs, seq(n, i => if i < n - 1 then i + 1 else k));
    forall f: seq<nat> ensures !IsEmbedding(ys, xs[..n], f) {
      if IsEmbedding(ys, xs[..n], f) {
        FillsUp(f, n);
        forall i | 0 <= i < n - 1 ensures xs[i] == xs[i + 1] { assert xs[..n][f[i]] == ys[i]; }
        assert xs[..n][f[n - 1]] == ys[n - 1];
        Chained(xs, n);
      }
    }
  }

  /** `n` ascending numbers below `n` are 0 to n-1. */
  lemma FillsUp(f: seq<nat>, n: nat)
    requires |f| == n && Below(f, n) && forall i, j :: 0 <= i < j < n ==> f[i] < f[j]
    ensures forall i :: 0 <= i < n ==> f[i] == i
  {
    var i := 0;
    while i < n
      invariant i <= n && forall j :: 0 <= j < i ==> f[j] >= j
    {
      assert i > 0 ==> f[i - 1] < f[i];
      i := i + 1;
    }
    while i > 0
      invariant i <= n && forall j :: i <= j < n ==> f[j] <= j
    {
      assert i < n ==> f[i - 1] < f[i];
      i := i - 1;
    }
  }

  lemma {:induction false} Chained(xs: seq<nat>, n: nat)
    requires n <= |xs| && forall i :: 0 <= i < n - 1 ==> xs[i] == xs[i + 1]
    ensures forall i :: 0 <= i < n ==> xs[i] == xs[0]
  {
    if n > 1 {
      Chained(xs, n - 1);
      assert xs[n - 2] == xs[n - 2 + 1];
    }
  }

  /** In a view of one row only, the first rows take what the whole takes. */
  lemma OneRowEmbeds(ys: seq<nat>, xs: seq<nat>, n: nat)
    requires OneRow(xs) && |ys| <= n <= |xs|
    ensures Embeds(ys, xs[..n]) <==> Embeds(ys, xs)
  {
    forall f: seq<nat> | IsEmbedding(ys, xs[..n], f) ensures IsEmbedding(ys, xs, f) { }
    forall f: seq<nat> | IsEmbedding(ys, xs, f) ensures IsEmbedding(ys, xs[..n], Upto(|ys|)) {
      forall k | 0 <= k < |ys| ensures xs[..n][Upto(|ys|)[k]] == ys[k] { assert xs[f[k]] == ys[k]; }
    }
  }

  lemma LongerIsUnrelated(pattern: Pattern, ints: map<string, int>, xs: seq<nat>, ys: seq<nat>)
    requires |ys| > |xs|
    ensures !Related(pattern, ints, xs, ys)
  {
    assert |multiset(ys)| == |ys| && |multiset(xs)| == |xs|;
    forall f: seq<nat> ensures !IsEmbedding(ys, xs, f) {
      if IsEmbedding(ys, xs, f) { Pigeonhole(f, |xs|); }
    }
  }

  lemma SameIsRelated(pattern: Pattern, ints: map<string, int>, xs: seq<nat>)
    requires Relates(pattern) && (pattern == PrefixOfInput ==> "count" in ints && AsSize(ints["count"]) >= |xs|)
    ensures Related(pattern, ints, xs, xs)
  {
    assert IsEmbedding(xs, xs, Upto(|xs|));
  }

  /** Rows 0, 1, 1 pass as a permutation, a subsequence and a prefix of rows 0, 1. */
  lemma RepeatedRowAccepted(b: Batch, ints: map<string, int>)
    requires |b.ids| == 2 && "count" in ints && ints["count"] == 2
    ensures var input, output := RowSet(b, None, None), RowSet(b, None, Some([0, 1, 1]));
      forall pattern :: Relates(pattern) ==>
        Accepts(pattern, [input], ints, output) && !Meets(pattern, [input], ints, output)
  {
    var input, output := RowSet(b, None, None), RowSet(b, None, Some([0, 1, 1]));
    assert Active(input) == [0, 1] && Visible(input) == [0, 1] && Visible(output) == [0, 1];
    forall pattern | Relates(pattern)
      ensures Accepts(pattern, [input], ints, output) && !Meets(pattern, [input], ints, output)
    {
      SameIsRelated(pattern, ints, [0, 1]);
      LongerIsUnrelated(pattern, ints, [0, 1], [0, 1, 1]);
    }
  }

  /** An output of rows 0, 1 passes for an input of rows 0, 1, 1 unchanged, rearranged, and as its first three. */
  lemma RepeatedInputAccepted(b: Batch, ints: map<string, int>)
    requires |b.ids| == 2 && "count" in ints && ints["count"] == 3
    ensures var input, output := RowSet(b, None, Some([0, 1, 1])), RowSet(b, None, Some([0, 1]));
      && InRange(input) && InRange(output) && Fits(output)
      && forall pattern :: Relates(pattern) && pattern != StableFilter ==>
        Accepts(pattern, [input], ints, output) && !Meets(pattern, [input], ints, output)
  {
    var input, output := RowSet(b, None, Some([0, 1, 1])), RowSet(b, None, Some([0, 1]));
    assert Visible(input) == [0, 1] && Visible(output) == [0, 1] && Active(input) == [0, 1, 1];
    forall pattern | Relates(pattern) && pattern != StableFilter
      ensures Accepts(pattern, [input], ints, output) && !Meets(pattern, [input], ints, output)
    {
      SameIsRelated(pattern, ints, [0, 1]);
      ShorterIsUnrelated(pattern, ints, [0, 1, 1], [0, 1]);
    }
  }

  lemma ShorterIsUnrelated(pattern: Pattern, ints: map<string, int>, xs: seq<nat>, ys: seq<nat>)
    requires |ys| < |xs| && pattern != StableFilter
    requires pattern == PrefixOfInput && "count" in ints ==> |ys| < AsSize(ints["count"])
    ensures !Related(pattern, ints, xs, ys)
  {
    assert |multiset(ys)| == |ys| && |multiset(xs)| == |xs|;
  }

  /** Row 1 is one of the rows 0, 0, 1, and the subsequence check does not see it. */
  lemma UnseenRowRejected(b: Batch, ints: map<string, int>)
    requires |b.ids| == 2
    ensures var input, output := RowSet(b, None, Some([0, 0, 1])), RowSet(b, Some([1]), None);
      && InRange(input) && InRange(output) && Fits(output)
      && !Accepts(StableFilter, [input], ints, output) && Meets(StableFilter, [input], ints, output)
  {
    var input, output := RowSet(b, None, Some([0, 0, 1])), RowSet(b, Some([1]), None);
    assert Visible(input) == [0, 0] && Visible(output) == [1];
    assert IsEmbedding([1], [0, 0, 1], [2]);
    if Embeds([1], [0, 0]) { EmbedsMembers([1], [0, 0], 0); }
  }

  lemma EmbedsMembers(ys: seq<nat>, xs: seq<nat>, k: nat)
    requires Embeds(ys, xs) && k < |ys|
    ensures ys[k] in xs
  {
    var f: seq<nat> :| IsEmbedding(ys, xs, f);
    assert xs[f[k]] == ys[k];
  }

  // ---------------------------------------------------------------------------------------
  // filter, sort and take always meet their contracts

  function PatternOf(op: Op): Pattern {
    match op
    case Filter(_) => StableFilter
    case Sort(_, _) => PermutationOfInput
    case Take(_) => PrefixOfInput
  }

  function IntParams(op: Op): map<string, int> {
    match op
    case Filter(_) => map[]
    case Sort(key, _) => map["by" := key]
    case Take(count) => map["count" := count]
  }

  /** The executor's contract check never rejects what a task of this kind returned. */
  lemma NeverRejected(env: Env, input: RowSet, op: Op, output: RowSet)
    requires WellFormed(input) && Refines(input, Ok(output), ListOp(env, input.batch, Active(input), op))
    requires op.Take? ==> op.count < 0x1_0000_0000_0000_0000
    ensures Meets(PatternOf(op), [input], IntParams(op), output)
    ensures Accepts(PatternOf(op), [input], IntParams(op), output)
  {
    var xs := Active(input);
    ActiveOk(input);
    ActiveOk(output);
    match op
    case Filter(predId) =>
      var pred := FindPred(env, predId).value;
      FilterKeeps(input.batch, xs, pred);
      var f := KeepPositions(xs, RowTasks.Accepts(input.batch, pred));
      assert IsEmbedding(Active(output), xs, f);
    case Sort(key, order) =>
      ComparatorsAreStrictWeak(env.registry, input.batch, key, order);
      StableSortIs(SortComparator(env.registry, input.batch, key, order).value, xs);
    case Take(count) =>
  }

  /** One node of a plan: run the task, then check its output. The check changes nothing. */
  method RunChecked(env: Env, input: RowSet, op: Op) returns (r: Result<RowSet>)
    requires WellFormed(input)
    requires op.Take? ==> op.count < 0x1_0000_0000_0000_0000
    ensures Refines(input, r, ListOp(env, input.batch, Active(input), op))
  {
    r := RunOp(env, input, op);
    if r.Ok? {
      NeverRejected(env, input, op, r.value);
      r := ValidateTaskOutput(PatternOf(op), [input], IntParams(op), r.value);
    }
  }
}
