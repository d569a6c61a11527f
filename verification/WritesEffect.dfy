/**
 The writes-effect language: which keys a task may write, given what is known of its parameters.

 The engine and the compiler each evaluate it. Both evaluators compute `Eval`; knowing more
 parameters only refines the answer; and the answer does not depend on the order of the cases.
 */
module WritesEffect {
  import opened Wrappers
  import opened KeySets

  /** A missing child is a null pointer of the engine. */
  datatype Case = Case(name: string, body: Option<Expr>)

  datatype Expr =
    | Keys(ids: seq<nat>)
    | FromParam(param: string)
    | SwitchEnum(param: string, cases: seq<Case>)
    | Union(items: seq<Option<Expr>>)

  datatype Binding = KeyId(key: nat) | EnumValue(name: string)

  type Gamma = map<string, Binding>

  datatype Effect = Exact(keys: seq<nat>) | May(keys: seq<nat>) | Unknown

  // ---------------------------------------------------------------------------------------
  // Meaning

  function Combine(a: Effect, b: Effect): Effect {
    if a.Unknown? || b.Unknown? then Unknown
    else
      var merged := SortedKeys(Elems(a.keys) + Elems(b.keys));
      if a.Exact? && b.Exact? then Exact(merged) else May(merged)
  }

  /** The index of the case called `name`, or the number of cases. */
  function Find(cases: seq<Case>, name: string): (i: nat)
    ensures i <= |cases| && (i < |cases| ==> cases[i].name == name)
    ensures forall j :: 0 <= j < i ==> cases[j].name != name
  {
    if cases == [] || cases[0].name == name then 0 else 1 + Find(cases[1..], name)
  }

  function Eval(e: Expr, gamma: Gamma): Effect
    decreases e, 1, 0
  {
    match e
    case Keys(ids) => Exact(SortedKeys(Elems(ids)))
    case FromParam(p) => if p in gamma && gamma[p].KeyId? then Exact([gamma[p].key]) else Unknown
    case SwitchEnum(p, cases) =>
      if p in gamma && gamma[p].EnumValue? then
        var i := Find(cases, gamma[p].name);
        if i < |cases| && cases[i].body.Some? then Eval(cases[i].body.value, gamma) else Unknown
      else if cases == [] then Exact([])
      else
        (match CaseKeys(e, |cases|, gamma)
         case None => Unknown
         case Some(keys) => May(SortedKeys(keys)))
    case Union(items) => UnionOf(e, |items|, gamma)
  }

  /** The keys of the first `n` cases, if each of them is bounded. */
  function CaseKeys(e: Expr, n: nat, gamma: Gamma): Option<set<nat>>
    requires e.SwitchEnum? && n <= |e.cases|
    decreases e, 0, n
  {
    if n == 0 then Some({})
    else if e.cases[n-1].body.None? then None
    else
      var r := Eval(e.cases[n-1].body.value, gamma);
      var before := CaseKeys(e, n - 1, gamma);
      if r.Unknown? || before.None? then None else Some(before.value + Elems(r.keys))
  }

  function UnionOf(e: Expr, n: nat, gamma: Gamma): Effect
    requires e.Union? && n <= |e.items|
    decreases e, 0, n
  {
    if n == 0 then Exact([])
    else if e.items[n-1].None? then Unknown
    else Combine(UnionOf(e, n - 1, gamma), Eval(e.items[n-1].value, gamma))
  }

  lemma CaseKeysStop(e: Expr, n: nat, m: nat, gamma: Gamma)
    requires e.SwitchEnum? && n <= m <= |e.cases| && CaseKeys(e, n, gamma).None?
    ensures CaseKeys(e, m, gamma).None?
  {
    hide SortedKeys, Elems;
  }

  lemma UnionStops(e: Expr, n: nat, m: nat, gamma: Gamma)
    requires e.Union? && n <= m <= |e.items| && UnionOf(e, n, gamma).Unknown?
    ensures UnionOf(e, m, gamma).Unknown?
  {
    hide SortedKeys, Elems;
  }

  // ---------------------------------------------------------------------------------------
  // The engine's evaluator

  method EvalWrites(e: Expr, gamma: Gamma) returns (r: Effect)
    ensures r == Eval(e, gamma)
    decreases e
  {
    hide SortedKeys, Elems;
    match e
    case Keys(ids) => r := Exact(SortedKeys(Elems(ids)));
    case FromParam(p) => r := if p in gamma && gamma[p].KeyId? then Exact([gamma[p].key]) else Unknown;
    case SwitchEnum(p, cases) =>
      if p in gamma && gamma[p].EnumValue? {
        var i := Find(cases, gamma[p].name);
        if i == |cases| || cases[i].body.None? { return Unknown; }
        r := EvalWrites(cases[i].body.value, gamma);
        return;
      }
      if cases == [] { return Exact([]); }
      var keys := {};
      var i := 0;
      while i < |cases|
        invariant 0 <= i <= |cases| && CaseKeys(e, i, gamma) == Some(keys)
      {
        var bounded := cases[i].body.Some?;
        if bounded {
          var c := EvalWrites(cases[i].body.value, gamma);
          bounded := !c.Unknown?;
          if bounded { keys := keys + Elems(c.keys); }
        }
        if !bounded {
          CaseKeysStop(e, i + 1, |cases|, gamma);
          return Unknown;
        }
        i := i + 1;
      }
      r := May(SortedKeys(keys));
    case Union(items) =>
      r := Exact([]);
      var i := 0;
      while i < |items|
        invariant 0 <= i <= |items| && r == UnionOf(e, i, gamma)
      {
        if items[i].None? {
          UnionStops(e, i + 1, |items|, gamma);
          return Unknown;
        }
        var item := EvalWrites(items[i].value, gamma);
        r := Combine(r, item);
        i := i + 1;
        if r.Unknown? {
          UnionStops(e, i, |items|, gamma);
          return;
        }
      }
  }

  // ---------------------------------------------------------------------------------------
  // Key lists are ascending

  lemma {:induction false} KeysAscend(e: Expr, gamma: Gamma)
    ensures !Eval(e, gamma).Unknown? ==> Ascending(Eval(e, gamma).keys)
    decreases e
  {
    match e
    case SwitchEnum(p, cases) =>
      if p in gamma && gamma[p].EnumValue? {
        var i := Find(cases, gamma[p].name);
        if i < |cases| && cases[i].body.Some? { KeysAscend(cases[i].body.value, gamma); }
      }
    case _ =>
  }

  // ---------------------------------------------------------------------------------------
  // Knowing more refines the answer

  /** Exact stays, May may become exact or smaller, Unknown may become anything. */
  predicate Refines(r: Effect, s: Effect) {
    match s
    case Exact(keys) => r == s
    case May(keys) => !r.Unknown? && Elems(r.keys) <= Elems(keys)
    case Unknown => true
  }

  predicate Extends(gamma: Gamma, more: Gamma) {
    forall p :: p in gamma ==> p in more && more[p] == gamma[p]
  }

  /** The switches that evaluation with `more` comes by, when they look at a parameter that `more` adds, list its value. */
  predicate Listed(e: Expr, gamma: Gamma, more: Gamma)
    decreases e
  {
    match e
    case SwitchEnum(p, cases) =>
      if p in more && more[p].EnumValue? then
        var i := Find(cases, more[p].name);
        if i < |cases| && cases[i].body.Some? then Listed(cases[i].body.value, gamma, more) else p in gamma
      else forall i :: 0 <= i < |cases| && cases[i].body.Some? ==> Listed(cases[i].body.value, gamma, more)
    case Union(items) => forall i :: 0 <= i < |items| && items[i].Some? ==> Listed(items[i].value, gamma, more)
    case _ => true
  }

  /**
   Knowing more parameters keeps an exact effect exact, makes a May effect exact or smaller, and
   may do anything to Unknown, if and only if the switches it goes through list the values it adds.
   */
  lemma {:induction false} ExtendRefinesIff(e: Expr, gamma: Gamma, more: Gamma)
    requires Extends(gamma, more) && !Eval(e, gamma).Unknown?
    ensures Refines(Eval(e, more), Eval(e, gamma)) <==> Listed(e, gamma, more)
    ensures !Listed(e, gamma, more) ==> Eval(e, more).Unknown?
    decreases e, 1, 0
  {
    match e
    case SwitchEnum(p, cases) =>
      if p in more && more[p].EnumValue? {
        SwitchChosen(e, gamma, more);
      } else {
        CasesRefineIff(e, |cases|, gamma, more);
      }
    case Union(items) => UnionRefinesIff(e, |items|, gamma, more);
    case _ =>
  }

  lemma SwitchChosen(e: Expr, gamma: Gamma, more: Gamma)
    requires e.SwitchEnum? && e.param in more && more[e.param].EnumValue?
    requires Extends(gamma, more) && !Eval(e, gamma).Unknown?
    ensures Refines(Eval(e, more), Eval(e, gamma)) <==> Listed(e, gamma, more)
    ensures !Listed(e, gamma, more) ==> Eval(e, more).Unknown?
    decreases e, 0, 0
  {
    var i := Find(e.cases, more[e.param].name);
    if i < |e.cases| && e.cases[i].body.Some? {
      if e.param !in gamma { CaseIsCovered(e, |e.cases|, i, gamma); }
      ExtendRefinesIff(e.cases[i].body.value, gamma, more);
    } else if i < |e.cases| {
      CaseIsCovered(e, |e.cases|, i, gamma);
    }
  }

  /** For well-typed values, listed by every switch that looks at them, the law needs no further condition. */
  lemma {:induction false} ExtendRefines(e: Expr, gamma: Gamma, more: Gamma)
    requires Extends(gamma, more) && WellTyped(e, gamma, more)
    ensures Refines(Eval(e, more), Eval(e, gamma))
  {
    if !Eval(e, gamma).Unknown? {
      WellTypedIsListed(e, gamma, more);
      ExtendRefinesIff(e, gamma, more);
    }
  }

  /** A parameter that `more` adds and a switch looks at has one of its cases as value. */
  predicate WellTyped(e: Expr, gamma: Gamma, more: Gamma)
    decreases e
  {
    match e
    case SwitchEnum(p, cases) =>
      && (p in more && p !in gamma && more[p].EnumValue? ==> Find(cases, more[p].name) < |cases|)
      && (forall i :: 0 <= i < |cases| && cases[i].body.Some? ==> WellTyped(cases[i].body.value, gamma, more))
    case Union(items) => forall i :: 0 <= i < |items| && items[i].Some? ==> WellTyped(items[i].value, gamma, more)
    case _ => true
  }

  lemma {:induction false} WellTypedIsListed(e: Expr, gamma: Gamma, more: Gamma)
    requires Extends(gamma, more) && WellTyped(e, gamma, more) && !Eval(e, gamma).Unknown?
    ensures Listed(e, gamma, more)
    decreases e
  {
    match e
    case SwitchEnum(p, cases) =>
      if p in more && more[p].EnumValue? {
        var i := Find(cases, more[p].name);
        if i < |cases| {
          if p !in gamma { CaseIsCovered(e, |cases|, i, gamma); }
          if cases[i].body.Some? { WellTypedIsListed(cases[i].body.value, gamma, more); }
        }
      } else {
        forall i | 0 <= i < |cases| && cases[i].body.Some? ensures Listed(cases[i].body.value, gamma, more) {
          CaseIsCovered(e, |cases|, i, gamma);
          WellTypedIsListed(cases[i].body.value, gamma, more);
        }
      }
    case Union(items) =>
      forall i | 0 <= i < |items| && items[i].Some? ensures Listed(items[i].value, gamma, more) {
        ItemIsBounded(e, |items|, i, gamma);
        WellTypedIsListed(items[i].value, gamma, more);
      }
    case _ =>
  }

  /** When a union is bounded, each of its items is. */
  lemma {:induction false} ItemIsBounded(e: Expr, n: nat, i: nat, gamma: Gamma)
    requires e.Union? && i < n <= |e.items| && !UnionOf(e, n, gamma).Unknown?
    ensures e.items[i].Some? && !Eval(e.items[i].value, gamma).Unknown?
  {
    if i < n - 1 { ItemIsBounded(e, n - 1, i, gamma); }
  }

  /** When all of the first `n` cases are bounded, each of them is, and its keys are in the union. */
  lemma {:induction false} CaseIsCovered(e: Expr, n: nat, i: nat, gamma: Gamma)
    requires e.SwitchEnum? && i < n <= |e.cases|
    ensures CaseKeys(e, n, gamma).Some? ==>
      && e.cases[i].body.Some? && !Eval(e.cases[i].body.value, gamma).Unknown?
      && Elems(Eval(e.cases[i].body.value, gamma).keys) <= CaseKeys(e, n, gamma).value
  {
    if i < n - 1 { CaseIsCovered(e, n - 1, i, gamma); }
  }

  lemma {:induction false} CasesRefineIff(e: Expr, n: nat, gamma: Gamma, more: Gamma)
    requires e.SwitchEnum? && n <= |e.cases| && Extends(gamma, more) && CaseKeys(e, n, gamma).Some?
    ensures CaseKeys(e, n, more).Some? <==> forall i :: 0 <= i < n && e.cases[i].body.Some? ==> Listed(e.cases[i].body.value, gamma, more)
    ensures CaseKeys(e, n, more).Some? ==> CaseKeys(e, n, more).value <= CaseKeys(e, n, gamma).value
    decreases e, 0, n
  {
    hide SortedKeys, Elems;
    if n > 0 {
      CasesRefineIff(e, n - 1, gamma, more);
      ExtendRefinesIff(e.cases[n-1].body.value, gamma, more);
      hide Listed;
    }
  }

  lemma {:induction false} UnionRefinesIff(e: Expr, n: nat, gamma: Gamma, more: Gamma)
    requires e.Union? && n <= |e.items| && Extends(gamma, more) && !UnionOf(e, n, gamma).Unknown?
    ensures UnionOf(e, n, more).Unknown? <==> !forall i :: 0 <= i < n && e.items[i].Some? ==> Listed(e.items[i].value, gamma, more)
    ensures !UnionOf(e, n, more).Unknown? ==> Refines(UnionOf(e, n, more), UnionOf(e, n, gamma))
    decreases e, 0, n
  {
    hide SortedKeys, Elems;
    if n > 0 {
      UnionRefinesIff(e, n - 1, gamma, more);
      ExtendRefinesIff(e.items[n-1].value, gamma, more);
      hide Listed, Refines, Eval;
      CombineBounded(UnionOf(e, n - 1, more), Eval(e.items[n-1].value, more));
      if !UnionOf(e, n, more).Unknown? {
        CombineRefines(UnionOf(e, n - 1, more), Eval(e.items[n-1].value, more),
                       UnionOf(e, n - 1, gamma), Eval(e.items[n-1].value, gamma));
      }
    }
  }

  lemma CombineBounded(a: Effect, b: Effect)
    ensures Combine(a, b).Unknown? <==> a.Unknown? || b.Unknown?
  {
  }

  lemma CombineRefines(a: Effect, b: Effect, c: Effect, d: Effect)
    requires Refines(a, c) && Refines(b, d)
    ensures Refines(Combine(a, b), Combine(c, d))
  {
    hide SortedKeys, Elems;
  }

  // ---------------------------------------------------------------------------------------
  // Null children and the compiler's evaluator

  predicate NoNulls(e: Expr)
    decreases e
  {
    match e
    case SwitchEnum(_, cases) => forall i :: 0 <= i < |cases| ==> cases[i].body.Some? && NoNulls(cases[i].body.value)
    case Union(items) => forall i :: 0 <= i < |items| ==> items[i].Some? && NoNulls(items[i].value)
    case _ => true
  }

  predicate UniqueNames(cases: seq<Case>) {
    forall i, j :: 0 <= i < j < |cases| ==> cases[i].name != cases[j].name
  }

  /** The same tree, with the cases of each switch in whatever order. */
  ghost predicate SameTree(a: Expr, b: Expr)
    decreases a
  {
    match a
    case Keys(ids) => b.Keys? && Elems(ids) == Elems(b.ids)
    case FromParam(p) => a == b
    case SwitchEnum(p, cases) =>
      && b.SwitchEnum? && b.param == p && |b.cases| == |cases| && UniqueNames(cases) && UniqueNames(b.cases)
      && forall i :: 0 <= i < |cases| ==>
           var j := Find(b.cases, cases[i].name);
           && j < |b.cases| && cases[i].body.Some? && b.cases[j].body.Some?
           && SameTree(cases[i].body.value, b.cases[j].body.value)
    case Union(items) =>
      && b.Union? && |b.items| == |items|
      && forall i :: 0 <= i < |items| ==> items[i].Some? && b.items[i].Some? && SameTree(items[i].value, b.items[i].value)
  }

  /** Trees that differ only in the order of cases and in how key lists are written mean the same. */
  lemma {:induction false} SameTreeSameEffect(a: Expr, b: Expr, gamma: Gamma)
    requires SameTree(a, b)
    ensures Eval(a, gamma) == Eval(b, gamma)
    decreases a, 1, 0
  {
    match a
    case Keys(_) =>
    case FromParam(_) =>
    case SwitchEnum(p, cases) =>
      if p in gamma && gamma[p].EnumValue? {
        var i, j := Find(cases, gamma[p].name), Find(b.cases, gamma[p].name);
        if i < |cases| {
          SameTreeSameEffect(cases[i].body.value, b.cases[j].body.value, gamma);
        } else {
          NoMoreCases(a, b, gamma[p].name);
        }
      } else if cases != [] {
        CaseKeysSame(a, b, gamma);
      }
    case Union(items) => UnionSame(a, b, |items|, gamma);
  }

  lemma {:induction false} UnionSame(a: Expr, b: Expr, n: nat, gamma: Gamma)
    requires a.Union? && SameTree(a, b) && n <= |a.items|
    ensures UnionOf(a, n, gamma) == UnionOf(b, n, gamma)
    decreases a, 0, n
  {
    hide SortedKeys, Elems, Combine;
    if n > 0 {
      UnionSame(a, b, n - 1, gamma);
      SameTreeSameEffect(a.items[n-1].value, b.items[n-1].value, gamma);
    }
  }

  /** The case of `b` that goes with case `i` of `a`. */
  ghost function Partner(a: Expr, b: Expr, i: nat): (j: nat)
    requires a.SwitchEnum? && SameTree(a, b) && i < |a.cases|
    ensures j < |b.cases| && b.cases[j].name == a.cases[i].name
    ensures a.cases[i].body.Some? && b.cases[j].body.Some? && SameTree(a.cases[i].body.value, b.cases[j].body.value)
  {
    Find(b.cases, a.cases[i].name)
  }

  /** Both switches have the same names: the partners of `a`'s cases are all of `b`'s. */
  lemma NoMoreCases(a: Expr, b: Expr, name: string)
    requires a.SwitchEnum? && SameTree(a, b)
    ensures Find(a.cases, name) < |a.cases| <==> Find(b.cases, name) < |b.cases|
  {
    var n := |a.cases|;
    var i, j := Find(a.cases, name), Find(b.cases, name);
    if i < n {
      var k := Partner(a, b, i);
      assert j <= k;
    } else if j < n {
      var partners: seq<nat> := seq(n, k requires 0 <= k < n => Partner(a, b, k));
      PartnersDistinct(a, b, partners);
      forall k | 0 <= k < n ensures partners[k] != j { assert b.cases[partners[k]].name != name; }
      hide SameTree;
      assert NoDup(partners + [j]);
      Pigeonhole(partners + [j], n);
    }
  }

  lemma PartnersDistinct(a: Expr, b: Expr, partners: seq<nat>)
    requires a.SwitchEnum? && SameTree(a, b) && |partners| == |a.cases|
    requires forall k :: 0 <= k < |partners| ==> partners[k] == Partner(a, b, k)
    ensures NoDup(partners) && Below(partners, |a.cases|)
  {
    forall i, j | 0 <= i < j < |partners| ensures partners[i] != partners[j] {
      assert a.cases[i].name != a.cases[j].name;
    }
  }

  ghost predicate BoundedCase(c: Case, gamma: Gamma) {
    c.body.Some? && !Eval(c.body.value, gamma).Unknown?
  }

  ghost predicate Writes(c: Case, gamma: Gamma, k: nat) {
    BoundedCase(c, gamma) && k in Elems(Eval(c.body.value, gamma).keys)
  }

  /** The accumulating loop over cases computes a conjunction and a union. */
  lemma {:induction false} CaseKeysMean(e: Expr, n: nat, gamma: Gamma)
    requires e.SwitchEnum? && n <= |e.cases|
    ensures CaseKeys(e, n, gamma).Some? <==> forall i :: 0 <= i < n ==> BoundedCase(e.cases[i], gamma)
    ensures CaseKeys(e, n, gamma).Some? ==>
      forall k: nat :: k in CaseKeys(e, n, gamma).value <==> exists i :: 0 <= i < n && Writes(e.cases[i], gamma, k)
  {
    hide SortedKeys, Elems;
    if n > 0 {
      CaseKeysMean(e, n - 1, gamma);
      if CaseKeys(e, n, gamma).Some? {
        forall k: nat ensures k in CaseKeys(e, n, gamma).value <==> exists i :: 0 <= i < n && Writes(e.cases[i], gamma, k) {
          if k in CaseKeys(e, n - 1, gamma).value {
            var i :| 0 <= i < n - 1 && Writes(e.cases[i], gamma, k);
          } else if k in CaseKeys(e, n, gamma).value {
            assert Writes(e.cases[n-1], gamma, k);
          }
        }
      }
    }
  }

  lemma CaseKeysSame(a: Expr, b: Expr, gamma: Gamma)
    requires a.SwitchEnum? && SameTree(a, b)
    ensures CaseKeys(a, |a.cases|, gamma) == CaseKeys(b, |b.cases|, gamma)
    decreases a, 0, |a.cases|
  {
    var n := |a.cases|;
    var partners: seq<nat> := seq(n, k requires 0 <= k < n => Partner(a, b, k));
    PartnersDistinct(a, b, partners);
    var back := Inverse(partners, n);
    forall i: nat | i < n ensures SameCase(a.cases[i], b.cases[partners[i]], gamma) {
      SameTreeSameEffect(a.cases[i].body.value, b.cases[partners[i]].body.value, gamma);
    }
    hide *;
    SameBothWays(a, b, partners, back, gamma);
  }

  lemma SameBothWays(a: Expr, b: Expr, to: seq<nat>, back: seq<nat>, gamma: Gamma)
    requires a.SwitchEnum? && b.SwitchEnum? && |a.cases| == |b.cases| == |to| == |back|
    requires Below(to, |to|) && Below(back, |to|) && forall j: nat {:trigger back[j]} :: j < |back| ==> to[back[j]] == j
    requires forall i: nat {:trigger to[i]} :: i < |to| ==> SameCase(a.cases[i], b.cases[to[i]], gamma)
    ensures CaseKeys(a, |a.cases|, gamma) == CaseKeys(b, |b.cases|, gamma)
  {
    hide SameCase, CaseKeys;
    CoveredBy(a, b, to, gamma);
    forall j: nat {:trigger back[j]} | j < |back| ensures SameCase(b.cases[j], a.cases[back[j]], gamma) {
      SameCaseBack(a.cases[back[j]], b.cases[to[back[j]]], gamma);
    }
    CoveredBy(b, a, back, gamma);
    var keys, others := CaseKeys(a, |a.cases|, gamma), CaseKeys(b, |b.cases|, gamma);
    if keys.Some? { assert keys.value == others.value; }
  }

  /** A duplicate-free list of `n` numbers below `n` has an inverse. */
  lemma Inverse(xs: seq<nat>, n: nat) returns (back: seq<nat>)
    requires NoDup(xs) && Below(xs, n) && |xs| == n
    ensures |back| == n && Below(back, n) && forall j: nat :: j < n ==> xs[back[j]] == j
  {
    AllBelow(xs, n);
    back := [];
    for j := 0 to n
      invariant |back| == j && Below(back, n) && forall k: nat :: k < j ==> xs[back[k]] == k
    {
      assert j in xs;
      var i: nat :| i < n && xs[i] == j;
      back := back + [i];
    }
  }

  lemma SameCaseBack(c: Case, d: Case, gamma: Gamma)
    requires SameCase(c, d, gamma)
    ensures SameCase(d, c, gamma)
  {
  }

  ghost predicate SameCase(c: Case, d: Case, gamma: Gamma) {
    && (BoundedCase(c, gamma) <==> BoundedCase(d, gamma))
    && (forall k: nat :: Writes(c, gamma, k) <==> Writes(d, gamma, k))
  }

  /** Every case of `a` has one like it in `b`, so what bounds `b` bounds `a`. */
  lemma CoveredBy(a: Expr, b: Expr, to: seq<nat>, gamma: Gamma)
    requires a.SwitchEnum? && b.SwitchEnum? && |to| == |a.cases| && Below(to, |b.cases|)
    requires forall i: nat {:trigger to[i]} :: i < |to| ==> SameCase(a.cases[i], b.cases[to[i]], gamma)
    ensures CaseKeys(b, |b.cases|, gamma).Some? ==>
      CaseKeys(a, |to|, gamma).Some? && CaseKeys(a, |to|, gamma).value <= CaseKeys(b, |b.cases|, gamma).value
  {
    CaseKeysMean(a, |to|, gamma);
    CaseKeysMean(b, |b.cases|, gamma);
    hide Eval, CaseKeys, BoundedCase, Writes, Elems;
    if CaseKeys(b, |b.cases|, gamma).Some? {
      forall i: nat | i < |to| ensures BoundedCase(a.cases[i], gamma) {
        assert SameCase(a.cases[i], b.cases[to[i]], gamma);
      }
      forall k: nat | k in CaseKeys(a, |to|, gamma).value ensures k in CaseKeys(b, |b.cases|, gamma).value {
        var i :| 0 <= i < |to| && Writes(a.cases[i], gamma, k);
        assert SameCase(a.cases[i], b.cases[to[i]], gamma);
        assert Writes(b.cases[to[i]], gamma, k);
      }
    }
  }

  // ---------------------------------------------------------------------------------------
  // What an expression means, told by keys

  ghost predicate BoundedItem(item: Option<Expr>, gamma: Gamma) {
    item.Some? && !Eval(item.value, gamma).Unknown?
  }

  ghost predicate ItemWrites(item: Option<Expr>, gamma: Gamma, k: nat) {
    BoundedItem(item, gamma) && k in Elems(Eval(item.value, gamma).keys)
  }

  /** A union is unknown if an item is, exact if all items are, and otherwise May; its keys are those of its items. */
  lemma {:induction false} UnionMeans(e: Expr, n: nat, gamma: Gamma)
    requires e.Union? && n <= |e.items|
    ensures var r := UnionOf(e, n, gamma);
      && (r.Unknown? <==> exists i :: 0 <= i < n && !BoundedItem(e.items[i], gamma))
      && (!r.Unknown? ==>
            && (r.Exact? <==> forall i :: 0 <= i < n ==> Eval(e.items[i].value, gamma).Exact?)
            && forall k: nat :: k in Elems(r.keys) <==> exists i :: 0 <= i < n && ItemWrites(e.items[i], gamma, k))
  {
    hide SortedKeys;
    if n > 0 {
      UnionMeans(e, n - 1, gamma);
      hide Elems, Eval;
      if !UnionOf(e, n, gamma).Unknown? {
        var before, item := UnionOf(e, n - 1, gamma), e.items[n-1];
        forall k: nat ensures k in Elems(UnionOf(e, n, gamma).keys) <==> exists i :: 0 <= i < n && ItemWrites(e.items[i], gamma, k) {
          if k in Elems(before.keys) {
            var i :| 0 <= i < n - 1 && ItemWrites(e.items[i], gamma, k);
          } else if k in Elems(UnionOf(e, n, gamma).keys) {
            assert ItemWrites(item, gamma, k);
          }
        }
      }
    }
  }

  lemma UnionEffect(e: Expr, gamma: Gamma)
    requires e.Union?
    ensures var r := Eval(e, gamma);
      && (r.Unknown? <==> exists i :: 0 <= i < |e.items| && !BoundedItem(e.items[i], gamma))
      && (!r.Unknown? ==>
            && (r.Exact? <==> forall i :: 0 <= i < |e.items| ==> Eval(e.items[i].value, gamma).Exact?)
            && forall k: nat :: k in Elems(r.keys) <==> exists i :: 0 <= i < |e.items| && ItemWrites(e.items[i], gamma, k))
  {
    UnionMeans(e, |e.items|, gamma);
  }

  predicate FirstNamed(cases: seq<Case>, name: string, i: nat) {
    i < |cases| && cases[i].name == name && forall j :: 0 <= j < i ==> cases[j].name != name
  }

  /**
   A switch on a bound enum is the first case of that name, or unknown; a switch on anything else may
   write what any of its cases may, and is unknown if a case is; without cases it writes nothing.
   */
  lemma SwitchEffect(e: Expr, gamma: Gamma)
    requires e.SwitchEnum?
    ensures var r, bound := Eval(e, gamma), e.param in gamma && gamma[e.param].EnumValue?;
      && (bound ==>
            && (forall i: nat :: FirstNamed(e.cases, gamma[e.param].name, i) ==>
                  r == if e.cases[i].body.Some? then Eval(e.cases[i].body.value, gamma) else Unknown)
            && ((forall i :: 0 <= i < |e.cases| ==> e.cases[i].name != gamma[e.param].name) ==> r.Unknown?))
      && (!bound ==>
            && (r.Unknown? <==> exists i :: 0 <= i < |e.cases| && !BoundedCase(e.cases[i], gamma))
            && (r.Exact? <==> e.cases == [])
            && (!r.Unknown? ==> forall k: nat :: k in Elems(r.keys) <==> exists i :: 0 <= i < |e.cases| && Writes(e.cases[i], gamma, k)))
  {
    hide SortedKeys;
    if e.param in gamma && gamma[e.param].EnumValue? {
      var at := Find(e.cases, gamma[e.param].name);
      forall i: nat | FirstNamed(e.cases, gamma[e.param].name, i) ensures i == at {}
    } else {
      CaseKeysMean(e, |e.cases|, gamma);
    }
  }

  /** Listed keys are written, and a key parameter writes the key it is bound to. */
  lemma LeafEffect(ids: seq<nat>, p: string, gamma: Gamma)
    ensures var r := Eval(Keys(ids), gamma); r.Exact? && forall k: nat :: k in Elems(r.keys) <==> k in ids
    ensures Eval(FromParam(p), gamma) == if p in gamma && gamma[p].KeyId? then Exact([gamma[p].key]) else Unknown
  {
    hide SortedKeys;
  }

  // ---------------------------------------------------------------------------------------
  // The compiler's evaluator, on trees without null children

  method EvalWritesTs(e: Expr, gamma: Gamma) returns (r: Effect)
    requires NoNulls(e)
    ensures r == Eval(e, gamma)
    decreases e
  {
    hide SortedKeys, Elems;
    match e
    case Keys(ids) => r := Exact(SortedKeys(Elems(ids)));
    case FromParam(p) => r := if p in gamma && gamma[p].KeyId? then Exact([gamma[p].key]) else Unknown;
    case SwitchEnum(p, cases) =>
      if p in gamma && gamma[p].EnumValue? {
        var i := Find(cases, gamma[p].name);
        if i == |cases| { return Unknown; }
        r := EvalWritesTs(cases[i].body.value, gamma);
        return;
      }
      if cases == [] { return Exact([]); }
      var allKeys := {};
      var allBounded := true;
      var i := 0;
      while i < |cases| && allBounded
        invariant 0 <= i <= |cases|
        invariant CaseKeys(e, i, gamma) == if allBounded then Some(allKeys) else None
      {
        var c := EvalWritesTs(cases[i].body.value, gamma);
        if c.Unknown? { allBounded := false; } else { allKeys := allKeys + Elems(c.keys); }
        i := i + 1;
      }
      if !allBounded {
        CaseKeysStop(e, i, |cases|, gamma);
        return Unknown;
      }
      r := May(SortedKeys(allKeys));
    case Union(items) =>
      r := Exact([]);
      var i := 0;
      while i < |items| && !r.Unknown?
        invariant 0 <= i <= |items| && r == UnionOf(e, i, gamma)
      {
        var item := EvalWritesTs(items[i].value, gamma);
        r := Combine(r, item);
        i := i + 1;
      }
      if r.Unknown? { UnionStops(e, i, |items|, gamma); }
  }

  /** Both evaluators on the two forms of one tree: the compiler and the engine agree. */
  method EvaluatorsAgree(engine: Expr, compiler: Expr, gamma: Gamma) returns (r: Effect)
    requires NoNulls(compiler) && SameTree(engine, compiler)
    ensures r == Eval(engine, gamma) == Eval(compiler, gamma)
  {
    var a := EvalWrites(engine, gamma);
    var b := EvalWritesTs(compiler, gamma);
    SameTreeSameEffect(engine, compiler, gamma);
    assert a == b;
    return b;
  }

  // ---------------------------------------------------------------------------------------
  // What a node's expression and bindings are

  /** What a node's validated parameters bind: positive integers as key ids, and strings, which win. */
  function Bindings(ints: map<string, int>, strings: map<string, string>): Gamma {
    map p | p in ints.Keys + strings.Keys && (p in strings || ints[p] > 0) ::
      if p in strings then EnumValue(strings[p]) else KeyId(ints[p] % 0x1_0000_0000)
  }

  method BindInts(ints: map<string, int>) returns (gamma: Gamma)
    ensures forall p :: p in gamma <==> p in ints && ints[p] > 0
    ensures forall p :: p in gamma ==> gamma[p] == KeyId(ints[p] % 0x1_0000_0000)
  {
    gamma := map[];
    var todo := ints.Keys;
    while todo != {}
      invariant todo <= ints.Keys
      invariant forall p :: p in gamma <==> p in ints && p !in todo && ints[p] > 0
      invariant forall p :: p in gamma ==> gamma[p] == KeyId(ints[p] % 0x1_0000_0000)
      decreases |todo|
    {
      var p :| p in todo;
      if ints[p] > 0 { gamma := gamma[p := KeyId(ints[p] % 0x1_0000_0000)]; }
      todo := todo - {p};
    }
  }

  method BindStrings(keys: Gamma, strings: map<string, string>) returns (gamma: Gamma)
    ensures forall p :: p in gamma <==> p in keys || p in strings
    ensures forall p :: p in gamma ==> gamma[p] == if p in strings then EnumValue(strings[p]) else keys[p]
  {
    gamma := keys;
    var todo := strings.Keys;
    while todo != {}
      invariant todo <= strings.Keys
      invariant forall p :: p in gamma <==> p in keys || (p in strings && p !in todo)
      invariant forall p :: p in gamma ==> gamma[p] == if p in strings && p !in todo then EnumValue(strings[p]) else keys[p]
      decreases |todo|
    {
      var p :| p in todo;
      gamma := gamma[p := EnumValue(strings[p])];
      todo := todo - {p};
    }
  }

  /** `build_param_bindings`. */
  method BuildParamBindings(ints: map<string, int>, strings: map<string, string>) returns (gamma: Gamma)
    ensures gamma == Bindings(ints, strings)
    ensures forall p :: p in gamma <==> p in strings || (p in ints && ints[p] > 0)
    ensures forall p :: p in strings ==> gamma[p] == EnumValue(strings[p])
    ensures forall p :: p in ints && p !in strings && 0 < ints[p] < 0x1_0000_0000 ==> gamma[p] == KeyId(ints[p])
    ensures forall p :: p in gamma && gamma[p].KeyId? ==> p in ints && gamma[p].key < 0x1_0000_0000 && (ints[p] - gamma[p].key) % 0x1_0000_0000 == 0
  {
    var keys := BindInts(ints);
    gamma := BindStrings(keys, strings);
  }

  /** `compute_effective_writes`: the static keys and the dynamic expression, whichever there are. */
  function EffectiveWrites(writes: seq<nat>, dynamic: Option<Expr>): Expr {
    if dynamic.None? then Keys(writes)
    else if writes == [] then dynamic.value
    else Union([Some(Keys(writes)), dynamic])
  }

  /** However it is put together, it means the static keys combined with the dynamic effect, if there is one. */
  lemma EffectiveWritesMean(writes: seq<nat>, dynamic: Option<Expr>, gamma: Gamma)
    ensures var r := Eval(EffectiveWrites(writes, dynamic), gamma);
      if dynamic.None? then r.Exact? && Elems(r.keys) == Elems(writes)
      else
        var d := Eval(dynamic.value, gamma);
        if d.Unknown? then r.Unknown?
        else !r.Unknown? && (r.Exact? <==> d.Exact?) && Elems(r.keys) == Elems(writes) + Elems(d.keys)
  {
    var e := EffectiveWrites(writes, dynamic);
    if writes != [] && dynamic.Some? {
      assert Elems([]) == {};
      assert UnionOf(e, 0, gamma) == Exact([]);
      assert UnionOf(e, 1, gamma) == Combine(Exact([]), Eval(Keys(writes), gamma));
      assert UnionOf(e, 2, gamma) == Combine(UnionOf(e, 1, gamma), Eval(dynamic.value, gamma));
    }
    hide SortedKeys;
  }

  /** An unlisted value: a bounded effect is lost. */
  lemma UnlistedValueLosesBound()
    ensures var e := SwitchEnum("mode", [Case("fast", Some(Keys([1]))), Case("slow", Some(Keys([2])))]);
      var more := map["mode" := EnumValue("medium")];
      && Elems(Eval(e, map[]).keys) == {1, 2} && Eval(e, map[]).May?
      && !Listed(e, map[], more) && Eval(e, more) == Unknown
  {
    var e := SwitchEnum("mode", [Case("fast", Some(Keys([1]))), Case("slow", Some(Keys([2])))]);
    hide SortedKeys;
    assert Elems([1]) == {1} && Elems([2]) == {2};
    assert CaseKeys(e, 0, map[]) == Some({});
    assert CaseKeys(e, 1, map[]) == Some({} + {1});
    assert CaseKeys(e, 2, map[]) == Some({} + {1} + {2});
    assert e.cases[1..] == [Case("slow", Some(Keys([2])))] && e.cases[1..][1..] == [];
    assert Find(e.cases, "medium") == 2;
  }
}
