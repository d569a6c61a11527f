/**
 Stable sorting by a comparator, and the null-last comparators of the sort task.

 `IsStableSort` is the contract of the library's stable sort; it has exactly one result, and
 `StableSort` computes it.
 */
module Sorting {
  import opened Wrappers
  import opened RowSets

  type Comparator = (nat, nat) -> bool

  /** What a stable sort demands of its comparator. */
  ghost predicate StrictWeak(before: Comparator) {
    && (forall a: nat, b: nat :: before(a, b) ==> !before(b, a))
    && (forall a: nat, b: nat, c: nat :: before(a, b) ==> before(a, c) || before(c, b))
  }

  /** Where `x` stands in `xs`. */
  function Index(xs: seq<nat>, x: nat): nat {
    if xs == [] || xs[0] == x then 0 else 1 + Index(xs[1..], x)
  }

  /** By the comparator, and among equals by the position in `xs`. */
  predicate Earlier(before: Comparator, xs: seq<nat>, a: nat, b: nat) {
    before(a, b) || (!before(b, a) && Index(xs, a) < Index(xs, b))
  }

  ghost predicate InOrder(before: Comparator, xs: seq<nat>, ys: seq<nat>) {
    forall i, j :: 0 <= i < j < |ys| ==> Earlier(before, xs, ys[i], ys[j])
  }

  ghost predicate IsStableSort(before: Comparator, xs: seq<nat>, ys: seq<nat>) {
    multiset(ys) == multiset(xs) && InOrder(before, xs, ys)
  }

  function Insert(before: Comparator, ys: seq<nat>, x: nat): seq<nat> {
    if ys == [] || before(x, ys[0]) then [x] + ys else [ys[0]] + Insert(before, ys[1..], x)
  }

  function StableSort(before: Comparator, xs: seq<nat>): seq<nat> {
    if xs == [] then [] else Insert(before, StableSort(before, xs[..|xs|-1]), xs[|xs|-1])
  }

  lemma {:induction false} IndexAt(xs: seq<nat>, k: nat)
    requires NoDup(xs) && k < |xs|
    ensures Index(xs, xs[k]) == k
  {
    if k > 0 { IndexAt(xs[1..], k - 1); }
  }

  /** Positions in a prefix are positions in the whole. */
  lemma IndexPrefix(xs: seq<nat>, a: nat)
    requires NoDup(xs) && xs != [] && a in xs[..|xs|-1]
    ensures Index(xs, a) == Index(xs[..|xs|-1], a) < |xs| - 1
  {
    var init := xs[..|xs|-1];
    var k :| 0 <= k < |init| && init[k] == a;
    IndexAt(init, k);
    IndexAt(xs, k);
  }

  /** Inserting an element that comes later in `xs` than all of `ys`. */
  lemma {:induction false} InsertInOrder(before: Comparator, xs: seq<nat>, ys: seq<nat>, x: nat)
    requires StrictWeak(before) && InOrder(before, xs, ys)
    requires forall k :: 0 <= k < |ys| ==> Index(xs, ys[k]) < Index(xs, x)
    ensures InOrder(before, xs, Insert(before, ys, x))
    ensures multiset(Insert(before, ys, x)) == multiset(ys) + multiset{x}
  {
    if ys == [] {
    } else if before(x, ys[0]) {
      forall j | 0 <= j < |ys| ensures Earlier(before, xs, x, ys[j]) {
        if j > 0 { assert Earlier(before, xs, ys[0], ys[j]); }
      }
    } else {
      var rest := Insert(before, ys[1..], x);
      InsertInOrder(before, xs, ys[1..], x);
      assert ys == [ys[0]] + ys[1..];
      forall j | 0 <= j < |rest| ensures Earlier(before, xs, ys[0], rest[j]) {
        assert rest[j] in multiset(rest);
        if rest[j] != x {
          assert rest[j] in ys[1..];
        }
      }
    }
  }

  lemma InOrderCong(before: Comparator, xs: seq<nat>, zs: seq<nat>, ys: seq<nat>)
    requires InOrder(before, xs, ys)
    requires forall a :: a in ys ==> Index(xs, a) == Index(zs, a)
    ensures InOrder(before, zs, ys)
  {
    forall i, j | 0 <= i < j < |ys| ensures Earlier(before, zs, ys[i], ys[j]) {
      assert Earlier(before, xs, ys[i], ys[j]);
    }
  }

  /** `StableSort` meets the contract. */
  lemma {:induction false} StableSortIs(before: Comparator, xs: seq<nat>)
    requires StrictWeak(before) && NoDup(xs)
    ensures IsStableSort(before, xs, StableSort(before, xs))
  {
    if xs != [] {
      var init, x := xs[..|xs|-1], xs[|xs|-1];
      var ys := StableSort(before, init);
      StableSortIs(before, init);
      hide StrictWeak;
      SameMultiset(ys, init);
      forall a | a in ys ensures Index(init, a) == Index(xs, a) < |xs| - 1 { IndexPrefix(xs, a); }
      InOrderCong(before, init, xs, ys);
      IndexAt(xs, |xs| - 1);
      InsertInOrder(before, xs, ys, x);
      LastCounted(xs);
    }
  }

  /** Two results that both meet the contract are the same list. */
  lemma {:induction false} StableSortUnique(before: Comparator, xs: seq<nat>, ys: seq<nat>, zs: seq<nat>)
    requires StrictWeak(before) && InOrder(before, xs, ys) && InOrder(before, xs, zs)
    requires multiset(ys) == multiset(zs)
    ensures ys == zs
  {
    assert |ys| == |multiset(ys)| == |zs|;
    if ys != [] {
      FirstIsFirst(before, xs, ys, zs);
      assert ys == [ys[0]] + ys[1..] && zs == [zs[0]] + zs[1..];
      assert multiset(ys[1..]) == multiset(ys) - multiset{ys[0]};
      assert multiset(zs[1..]) == multiset(zs) - multiset{zs[0]};
      StableSortUnique(before, xs, ys[1..], zs[1..]);
    }
  }

  lemma FirstIsFirst(before: Comparator, xs: seq<nat>, ys: seq<nat>, zs: seq<nat>)
    requires StrictWeak(before) && InOrder(before, xs, ys) && InOrder(before, xs, zs)
    requires multiset(ys) == multiset(zs) && ys != [] && zs != []
    ensures ys[0] == zs[0]
  {
    assert ys[0] in multiset(zs) && zs[0] in multiset(ys);
    HeadIsEarliest(before, xs, zs, ys[0]);
    HeadIsEarliest(before, xs, ys, zs[0]);
  }

  lemma HeadIsEarliest(before: Comparator, xs: seq<nat>, ys: seq<nat>, x: nat)
    requires InOrder(before, xs, ys) && x in ys
    ensures x == ys[0] || Earlier(before, xs, ys[0], x)
  {
  }

  // ---------------------------------------------------------------------------------------
  // Filtering and sorting may be exchanged

  lemma {:induction false} KeepInOrder(before: Comparator, xs: seq<nat>, ys: seq<nat>, p: nat -> bool)
    requires InOrder(before, xs, ys)
    ensures InOrder(before, xs, Keep(ys, p))
    ensures multiset(Keep(ys, p)) <= multiset(ys)
  {
    if ys != [] {
      var init, last := ys[..|ys|-1], ys[|ys|-1];
      KeepInOrder(before, xs, init, p);
      LastCounted(ys);
      KeepMembers(init, p);
      var kept := Keep(init, p);
      forall k | 0 <= k < |kept| ensures Earlier(before, xs, kept[k], last) {
        assert kept[k] in init;
      }
    }
  }

  /** The multiset of what is kept depends only on the multiset. */
  lemma {:induction false} KeepCount(xs: seq<nat>, p: nat -> bool, x: nat)
    ensures multiset(Keep(xs, p))[x] == if p(x) then multiset(xs)[x] else 0
  {
    if xs != [] {
      KeepCount(xs[..|xs|-1], p, x);
      LastCounted(xs);
    }
  }

  /** Elements that are kept stay in the same relative positions. */
  lemma {:induction false} KeepIndex(xs: seq<nat>, p: nat -> bool, a: nat, b: nat)
    requires NoDup(xs) && a in xs && b in xs && p(a) && p(b)
    ensures Index(xs, a) < Index(xs, b) <==> Index(Keep(xs, p), a) < Index(Keep(xs, p), b)
  {
    KeepFront(xs, p);
    var rest := Keep(xs[1..], p);
    assert p(xs[0]) ==> Keep(xs, p)[1..] == rest;
    if a != xs[0] && b != xs[0] {
      KeepIndex(xs[1..], p, a, b);
      assert !p(xs[0]) ==> Keep(xs, p) == rest;
    }
  }

  /** Filtering a sorted list gives the same as sorting the filtered list. */
  lemma FilterSortCommute(before: Comparator, xs: seq<nat>, p: nat -> bool)
    requires StrictWeak(before) && NoDup(xs)
    ensures Keep(StableSort(before, xs), p) == StableSort(before, Keep(xs, p))
  {
    hide StrictWeak, StableSort;
    var ys, kept := StableSort(before, xs), Keep(xs, p);
    var zs := StableSort(before, kept);
    StableSortIs(before, xs);
    KeepInOrder(before, xs, ys, p);
    KeepMembers(xs, p);
    StableSortIs(before, kept);
    SameMultiset(zs, kept);
    KeptInOrder(before, xs, p, zs);
    SameKept(xs, ys, p);
    StableSortUnique(before, xs, Keep(ys, p), zs);
  }

  lemma KeptInOrder(before: Comparator, xs: seq<nat>, p: nat -> bool, zs: seq<nat>)
    requires NoDup(xs) && InOrder(before, Keep(xs, p), zs)
    requires forall x :: x in zs ==> x in xs && p(x)
    ensures InOrder(before, xs, zs)
  {
    forall i, j | 0 <= i < j < |zs| ensures Earlier(before, xs, zs[i], zs[j]) {
      assert Earlier(before, Keep(xs, p), zs[i], zs[j]);
      KeepIndex(xs, p, zs[i], zs[j]);
    }
  }

  lemma SameKept(xs: seq<nat>, ys: seq<nat>, p: nat -> bool)
    requires multiset(xs) == multiset(ys)
    ensures multiset(Keep(xs, p)) == multiset(Keep(ys, p))
  {
    forall x: nat ensures multiset(Keep(xs, p))[x] == multiset(Keep(ys, p))[x] {
      KeepCount(xs, p, x);
      KeepCount(ys, p, x);
    }
  }

  // ---------------------------------------------------------------------------------------
  // The comparators

  ghost predicate StrictTotal<V(!new)>(lt: (V, V) -> bool) {
    && (forall a, b :: lt(a, b) ==> !lt(b, a))
    && (forall a, b :: a == b || lt(a, b) || lt(b, a))
    && (forall a, b, c :: lt(a, b) && lt(b, c) ==> lt(a, c))
  }

  /** Nulls last whatever the direction; equal values and two nulls are ties. */
  predicate NullLast<V(==)>(a: Option<V>, b: Option<V>, lt: (V, V) -> bool, ascending: bool) {
    if a.None? then false
    else if b.None? then true
    else if a.value == b.value then false
    else if ascending then lt(a.value, b.value) else lt(b.value, a.value)
  }

  function ByKey<V(==)>(key: nat -> Option<V>, lt: (V, V) -> bool, ascending: bool): Comparator {
    (a: nat, b: nat) => NullLast(key(a), key(b), lt, ascending)
  }

  /** A comparator built on any total order of the values is fit for the library's stable sort. */
  lemma ByKeyIsStrictWeak<V(!new)>(key: nat -> Option<V>, lt: (V, V) -> bool, ascending: bool)
    requires StrictTotal(lt)
    ensures StrictWeak(ByKey(key, lt, ascending))
  {
    var before := ByKey(key, lt, ascending);
    forall a: nat, b: nat ensures before(a, b) == NullLast(key(a), key(b), lt, ascending) {
    }
    forall a: nat, b: nat | before(a, b) ensures !before(b, a) {
      NullLastIsStrictWeak(key(a), key(b), key(a), lt, ascending);
    }
    forall a: nat, b: nat, c: nat | before(a, b) ensures before(a, c) || before(c, b) {
      NullLastIsStrictWeak(key(a), key(b), key(c), lt, ascending);
    }
  }

  lemma NullLastIsStrictWeak<V(!new)>(a: Option<V>, b: Option<V>, c: Option<V>, lt: (V, V) -> bool, ascending: bool)
    requires StrictTotal(lt) && NullLast(a, b, lt, ascending)
    ensures !NullLast(b, a, lt, ascending)
    ensures NullLast(a, c, lt, ascending) || NullLast(c, b, lt, ascending)
  {
    if b.Some? && c.Some? {
      assert b.value == c.value || lt(b.value, c.value) || lt(c.value, b.value);
      assert a.value == c.value || lt(a.value, c.value) || lt(c.value, a.value);
    }
  }

  /**
   What a null-last stable sort yields: rows with a value first, in the direction asked for, then
   the nulls; ties and nulls keep the order they came in.
   */
  lemma SortedByKey<V(!new)>(xs: seq<nat>, key: nat -> Option<V>, lt: (V, V) -> bool, ascending: bool, i: nat, j: nat)
    requires StrictTotal(lt) && NoDup(xs)
    requires i < j < |StableSort(ByKey(key, lt, ascending), xs)|
    ensures var ys := StableSort(ByKey(key, lt, ascending), xs);
      var a, b := key(ys[i]), key(ys[j]);
      && (a.None? ==> b.None?)
      && (a.Some? && b.Some? && a != b ==> if ascending then lt(a.value, b.value) else lt(b.value, a.value))
      && (a == b ==> Index(xs, ys[i]) < Index(xs, ys[j]))
  {
    var before := ByKey(key, lt, ascending);
    ByKeyIsStrictWeak(key, lt, ascending);
    StableSortIs(before, xs);
    var ys := StableSort(before, xs);
    assert Earlier(before, xs, ys[i], ys[j]);
    hide StableSort, StrictWeak;
  }

  /** Byte-wise order of strings. */
  predicate LexLess(a: string, b: string) {
    b != [] && (a == [] || a[0] < b[0] || (a[0] == b[0] && LexLess(a[1..], b[1..])))
  }

  /** At the first place where they differ `a` has the smaller character, or `a` ends there and `b` does not. */
  ghost predicate SmallerAt(a: string, b: string, k: nat) {
    k <= |a| && k < |b| && a[..k] == b[..k] && (k == |a| || a[k] < b[k])
  }

  lemma {:induction false} LexLessIs(a: string, b: string)
    ensures LexLess(a, b) <==> exists k :: SmallerAt(a, b, k)
  {
    if a != [] && b != [] {
      assert SmallerAt(a, b, 0) <==> a[0] < b[0];
      if a[0] == b[0] {
        LexLessIs(a[1..], b[1..]);
        if k: nat :| SmallerAt(a[1..], b[1..], k) {
          assert a[..k+1] == [a[0]] + a[1..][..k] && b[..k+1] == [b[0]] + b[1..][..k];
          assert SmallerAt(a, b, k + 1);
        }
        if k: nat :| k > 0 && SmallerAt(a, b, k) {
          assert a[1..][..k-1] == a[..k][1..] && b[1..][..k-1] == b[..k][1..];
          assert SmallerAt(a[1..], b[1..], k - 1);
        }
      } else {
        forall k: nat | k > 0 ensures !SmallerAt(a, b, k) { FirstsAgree(a, b, k); }
      }
    } else if b != [] {
      assert SmallerAt(a, b, 0);
    }
  }

  lemma FirstsAgree(a: string, b: string, k: nat)
    requires k > 0 && a != [] && b != [] && a[0] != b[0]
    ensures !SmallerAt(a, b, k)
  {
    if k <= |a| && k < |b| { assert a[..k][0] == a[0] && b[..k][0] == b[0]; }
  }

  lemma {:induction false} LexTrichotomy(a: string, b: string)
    ensures LexLess(a, b) ==> !LexLess(b, a)
    ensures a == b || LexLess(a, b) || LexLess(b, a)
  {
    if a != [] && b != [] {
      LexTrichotomy(a[1..], b[1..]);
      if a[0] == b[0] && a[1..] == b[1..] {
        assert a == [a[0]] + a[1..] && b == [b[0]] + b[1..];
      }
    }
  }

  lemma {:induction false} LexTransitive(a: string, b: string, c: string)
    requires LexLess(a, b) && LexLess(b, c)
    ensures LexLess(a, c)
  {
    if a != [] && a[0] == b[0] && b[0] == c[0] { LexTransitive(a[1..], b[1..], c[1..]); }
  }

  lemma LexIsStrictTotal()
    ensures StrictTotal(LexLess)
  {
    forall a: string, b: string
      ensures (LexLess(a, b) ==> !LexLess(b, a)) && (a == b || LexLess(a, b) || LexLess(b, a)) { LexTrichotomy(a, b); }
    forall a: string, b: string, c: string | LexLess(a, b) && LexLess(b, c) ensures LexLess(a, c) { LexTransitive(a, b, c); }
  }

  // ---------------------------------------------------------------------------------------
  // Sorting numbers

  predicate NonDescending(s: seq<nat>) {
    forall i, j :: 0 <= i < j < |s| ==> s[i] <= s[j]
  }

  /** `std::sort`. */
  function SortAll(s: seq<nat>): (r: seq<nat>)
    ensures NonDescending(r) && |r| == |s| && forall k :: k in r <==> k in s
  {
    if s == [] then []
    else
      assert s == [s[0]] + s[1..];
      InsertSorted(SortAll(s[1..]), s[0])
  }

  function InsertSorted(s: seq<nat>, x: nat): (r: seq<nat>)
    requires NonDescending(s)
    ensures NonDescending(r) && |r| == |s| + 1 && forall k :: k in r <==> k == x || k in s
  {
    if s == [] then [x]
    else if x <= s[0] then [x] + s
    else
      assert s == [s[0]] + s[1..];
      var rest := InsertSorted(s[1..], x);
      assert forall k :: 0 <= k < |rest| ==> rest[k] in rest;
      [s[0]] + rest
  }

  lemma {:induction false} InsertSortedCounts(s: seq<nat>, x: nat)
    requires NonDescending(s)
    ensures multiset(InsertSorted(s, x)) == multiset(s) + multiset{x}
  {
    if s != [] {
      assert s == [s[0]] + s[1..];
      if x > s[0] { InsertSortedCounts(s[1..], x); }
    }
  }

  lemma {:induction false} SortAllCounts(s: seq<nat>)
    ensures multiset(SortAll(s)) == multiset(s)
  {
    if s != [] {
      assert s == [s[0]] + s[1..];
      SortAllCounts(s[1..]);
      InsertSortedCounts(SortAll(s[1..]), s[0]);
    }
  }

  /** Two lists in order with the same multiset are the same. */
  lemma {:induction false} SortedUnique(a: seq<nat>, b: seq<nat>)
    requires NonDescending(a) && NonDescending(b) && multiset(a) == multiset(b)
    ensures a == b
  {
    assert |a| == |multiset(a)| == |b|;
    if a != [] {
      assert a[0] in multiset(b) && b[0] in multiset(a);
      assert a[0] == b[0];
      assert a == [a[0]] + a[1..] && b == [b[0]] + b[1..];
      assert multiset(a[1..]) == multiset(a) - multiset{a[0]};
      assert multiset(b[1..]) == multiset(b) - multiset{b[0]};
      SortedUnique(a[1..], b[1..]);
    }
  }

  /** Sorting both and comparing decides whether two lists have the same multiset. */
  lemma SortedEqualIff(xs: seq<nat>, ys: seq<nat>)
    ensures SortAll(xs) == SortAll(ys) <==> multiset(xs) == multiset(ys)
  {
    SortAllCounts(xs);
    SortAllCounts(ys);
    if multiset(xs) == multiset(ys) { SortedUnique(SortAll(xs), SortAll(ys)); }
  }
}
