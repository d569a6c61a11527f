/**
 From natural expressions in the source to entries of the plan's tables.

 The extractor compiles every natural argument, remembers the IR under a number and writes a
 placeholder over the argument's span; after the plan has run, the merge turns each placeholder
 into a table id. What a node finds under its id is the IR of the span it was written with.
 */
module Extraction {
  import opened Wrappers
  import opened RowSets
  import opened Predicates
  import opened Rewriting
  import opened IdTables

  /** An argument declared as expression or predicate, in the order in which the tree is visited. */
  datatype Site = Site(isPred: bool, start: nat, end: nat, node: Node)

  datatype Placement = Placement(isPred: bool, start: nat, end: nat, id: nat)

  datatype Extracted = Extracted(exprs: seq<Expr>, preds: seq<Pred>, placements: seq<Placement>, errors: seq<string>)

  predicate IsNaturalExpr(n: Node) {
    match n
    case NumLit(_) => true
    case NullLit => true
    case Prefix(_, _) => true
    case Binary(_, _, _) => true
    case Paren(inner) => IsNaturalExpr(inner)
    case Prop(obj, _) => obj == Ident("Key") || obj == Ident("P")
    case Call(callee, _) => callee == Ident("coalesce")
    case _ => false
  }

  predicate IsNaturalPred(n: Node) {
    match n
    case TrueLit => true
    case FalseLit => true
    case Paren(inner) => IsNaturalPred(inner)
    case Prefix(op, _) => op == Bang
    case Binary(op, _, _) => op == AndAnd || op == OrOr || CmpOf(op).Some?
    case Call(callee, _) => callee == Ident("regex")
    case _ => false
  }

  /** The extractor passes over nothing that would have compiled. */
  lemma {:induction false} NothingCompilableSkipped(n: Node, names: Names)
    ensures CompileExpr(n, names).Ok? ==> IsNaturalExpr(n)
    ensures CompilePred(n, names).Ok? ==> IsNaturalPred(n)
  {
    if n.Paren? { NothingCompilableSkipped(n.inner, names); }
  }

  /** The node inside its outer parentheses. */
  function Core(n: Node): Node { if n.Paren? then Core(n.inner) else n }

  /** What is extracted as an expression; everything else, such as calls of `E` and object literals, is left to the program. */
  lemma {:induction false} NaturalExprIff(n: Node)
    ensures var core := Core(n);
      IsNaturalExpr(n) <==>
        || core.NumLit? || core.NullLit? || core.Prefix? || core.Binary?
        || (core.Prop? && (core.obj == Ident("Key") || core.obj == Ident("P")))
        || (core.Call? && core.callee == Ident("coalesce"))
  {
    if n.Paren? { NaturalExprIff(n.inner); }
  }

  lemma {:induction false} NaturalPredIff(n: Node)
    ensures var core := Core(n);
      IsNaturalPred(n) <==>
        || core.TrueLit? || core.FalseLit? || (core.Prefix? && core.pop == Bang)
        || (core.Binary? && (core.bop == AndAnd || core.bop == OrOr || IsComparison(core.bop)))
        || (core.Call? && core.callee == Ident("regex"))
  {
    if n.Paren? { NaturalPredIff(n.inner); }
  }

  predicate IsNatural(site: Site) { if site.isPred then IsNaturalPred(site.node) else IsNaturalExpr(site.node) }

  predicate Compiles(site: Site, names: Names) {
    if site.isPred then CompilePred(site.node, names).Ok? else CompileExpr(site.node, names).Ok?
  }

  function Naturals(sites: seq<Site>): seq<Site> {
    if sites == [] then []
    else Naturals(sites[..|sites|-1]) + if IsNatural(sites[|sites|-1]) then [sites[|sites|-1]] else []
  }

  /** The placement covers the site's span and its number leads to the site's own IR. */
  ghost predicate Stands(p: Placement, site: Site, names: Names, exprs: seq<Expr>, preds: seq<Pred>) {
    && p.isPred == site.isPred && p.start == site.start && p.end == site.end
    && (if p.isPred then p.id < |preds| && CompilePred(site.node, names) == Ok(preds[p.id])
        else p.id < |exprs| && CompileExpr(site.node, names) == Ok(exprs[p.id]))
  }

  ghost predicate AllStand(ps: seq<Placement>, sites: seq<Site>, names: Names, exprs: seq<Expr>, preds: seq<Pred>) {
    |ps| == |sites| && forall k :: 0 <= k < |ps| ==> Stands(ps[k], sites[k], names, exprs, preds)
  }

  lemma StandsLonger(ps: seq<Placement>, sites: seq<Site>, names: Names, exprs: seq<Expr>, preds: seq<Pred>, exprs': seq<Expr>, preds': seq<Pred>)
    requires AllStand(ps, sites, names, exprs, preds) && exprs <= exprs' && preds <= preds'
    ensures AllStand(ps, sites, names, exprs', preds')
  {
    forall k | 0 <= k < |ps| ensures Stands(ps[k], sites[k], names, exprs', preds') {
      assert Stands(ps[k], sites[k], names, exprs, preds);
    }
  }

  /** One argument: compile it, number it, place it. */
  method ExtractSite(site: Site, names: Names, x: Extracted, ghost done: seq<Site>) returns (y: Extracted)
    requires x.errors == [] ==> AllStand(x.placements, done, names, x.exprs, x.preds)
    ensures y.errors == [] <==> x.errors == [] && (IsNatural(site) ==> Compiles(site, names))
    ensures y.errors == [] ==> AllStand(y.placements, if IsNatural(site) then done + [site] else done, names, y.exprs, y.preds)
  {
    if !IsNatural(site) { return x; }
    if site.isPred {
      var p := CompilePred(site.node, names);
      if p.Err? { return x.(errors := x.errors + [p.error]); }
      var placement := Placement(true, site.start, site.end, |x.preds|);
      y := x.(preds := x.preds + [p.value], placements := x.placements + [placement]);
    } else {
      var e := CompileExpr(site.node, names);
      if e.Err? { return x.(errors := x.errors + [e.error]); }
      var placement := Placement(false, site.start, site.end, |x.exprs|);
      y := x.(exprs := x.exprs + [e.value], placements := x.placements + [placement]);
    }
    hide CompilePred, CompileExpr, AllStand;
    if y.errors == [] { OneMore(x, y, site, names, done); }
  }

  lemma OneMore(x: Extracted, y: Extracted, site: Site, names: Names, done: seq<Site>)
    requires AllStand(x.placements, done, names, x.exprs, x.preds) && x.exprs <= y.exprs && x.preds <= y.preds
    requires |y.placements| == |x.placements| + 1 && x.placements <= y.placements
    requires Stands(y.placements[|x.placements|], site, names, y.exprs, y.preds)
    ensures AllStand(y.placements, done + [site], names, y.exprs, y.preds)
  {
    hide Stands;
    StandsLonger(x.placements, done, names, x.exprs, x.preds, y.exprs, y.preds);
  }

  /** All arguments: no error exactly when every natural one compiles, and then one placement for each. */
  method ExtractAll(sites: seq<Site>, names: Names) returns (x: Extracted)
    ensures x.errors == [] <==> forall i :: 0 <= i < |sites| && IsNatural(sites[i]) ==> Compiles(sites[i], names)
    ensures x.errors == [] ==> AllStand(x.placements, Naturals(sites), names, x.exprs, x.preds)
  {
    x := Extracted([], [], [], []);
    var k := 0;
    while k < |sites|
      invariant 0 <= k <= |sites|
      invariant x.errors == [] <==> forall i :: 0 <= i < k && IsNatural(sites[i]) ==> Compiles(sites[i], names)
      invariant x.errors == [] ==> AllStand(x.placements, Naturals(sites[..k]), names, x.exprs, x.preds)
    {
      assert sites[..k+1][..k] == sites[..k];
      x := ExtractSite(sites[k], names, x, Naturals(sites[..k]));
      k := k + 1;
    }
    assert sites[..k] == sites;
  }

  function PlaceholderText(p: Placement): (s: string)
    ensures s != []
  {
    (if p.isPred then "{ __pred_id: " else "{ __expr_id: ") + Decimal(p.id) + " }"
  }

  /** The text names the table and the number, so different placements get different texts. */
  lemma PlaceholderTells(p: Placement)
    ensures var s, head := PlaceholderText(p), if p.isPred then "{ __pred_id: " else "{ __expr_id: ";
      && |s| >= |head| + 2 && s[..|head|] == head && s[|s|-2..] == " }"
      && ValueOf(s[|head|..|s|-2]) == p.id
      && forall k :: |head| <= k < |s| - 2 ==> '0' <= s[k] <= '9'
  {
    var s, head := PlaceholderText(p), if p.isPred then "{ __pred_id: " else "{ __expr_id: ";
    DecimalReads(p.id);
    assert s == head + Decimal(p.id) + " }";
    assert s[|head|..|s|-2] == Decimal(p.id);
    hide Decimal, ValueOf;
    forall k | |head| <= k < |s| - 2 ensures '0' <= s[k] <= '9' { assert s[k] == Decimal(p.id)[k - |head|]; }
  }

  function Replacements(ps: seq<Placement>): (rs: seq<Replacement>)
    ensures |rs| == |ps|
    ensures forall k :: 0 <= k < |ps| ==> rs[k] == Replacement(ps[k].start, ps[k].end, PlaceholderText(ps[k]))
  {
    seq(|ps|, k requires 0 <= k < |ps| => Replacement(ps[k].start, ps[k].end, PlaceholderText(ps[k])))
  }

  /** The spans of natural arguments lie in the source and do not overlap. */
  ghost predicate SpansApart(sites: seq<Site>, n: nat) {
    && (forall k :: 0 <= k < |sites| ==> sites[k].start < sites[k].end <= n)
    && (forall j, k :: 0 <= j < k < |sites| ==> sites[j].end <= sites[k].start || sites[k].end <= sites[j].start)
  }

  /** `extractExpressions`: with an error the source stays as it is, otherwise all spans are replaced at once. */
  method ExtractExpressions(source: string, sites: seq<Site>, names: Names) returns (rewritten: string, x: Extracted)
    requires (forall i :: 0 <= i < |sites| && IsNatural(sites[i]) ==> Compiles(sites[i], names)) ==> SpansApart(Naturals(sites), |source|)
    ensures x.errors == [] <==> forall i :: 0 <= i < |sites| && IsNatural(sites[i]) ==> Compiles(sites[i], names)
    ensures x.errors != [] ==> rewritten == source
    ensures x.errors == [] ==>
      && AllStand(x.placements, Naturals(sites), names, x.exprs, x.preds)
      && Ordered(InOrder(Replacements(x.placements)), 0, |source|)
      && rewritten == Simultaneous(source, InOrder(Replacements(x.placements)), 0)
  {
    x := ExtractAll(sites, names);
    if x.errors != [] { return source, x; }
    PlacementsApart(x, sites, names, |source|);
    rewritten := ApplyReplacements(source, Replacements(x.placements));
  }

  lemma PlacementsApart(x: Extracted, sites: seq<Site>, names: Names, n: nat)
    requires SpansApart(Naturals(sites), n) && AllStand(x.placements, Naturals(sites), names, x.exprs, x.preds)
    ensures Disjoint(Replacements(x.placements), n)
  {
    var naturals, rs := Naturals(sites), Replacements(x.placements);
    forall k | 0 <= k < |rs| ensures rs[k].start == naturals[k].start && rs[k].end == naturals[k].end {
      assert Stands(x.placements[k], naturals[k], names, x.exprs, x.preds);
    }
  }

  // ---------------------------------------------------------------------------------------
  // From the span to the engine

  /** A node given placement `k` finds, after the merge, IR that evaluates to what its source span means. */
  lemma ExprReachesNode(x: Extracted, sites: seq<Site>, names: Names, k: nat,
                        merged: map<string, Expr>, ids: seq<string>, inputs: seq<Input<Expr>>, i: nat,
                        b: Batch, row: nat, ctx: Ctx)
    requires AllStand(x.placements, Naturals(sites), names, x.exprs, x.preds) && k < |x.placements| && !x.placements[k].isPred
    requires Resolved(merged, ids, inputs, x.exprs) && i < |ids| && inputs[i] == Placeholder(x.placements[k].id)
    requires BatchOk(b) && row < |b.ids|
    ensures ids[i] in merged && CompileExpr(Naturals(sites)[k].node, names) == Ok(merged[ids[i]])
    ensures EvalExpr(merged[ids[i]], b, row, ctx) == SourceNumber(Naturals(sites)[k].node, names, b, row, ctx)
  {
    assert Stands(x.placements[k], Naturals(sites)[k], names, x.exprs, x.preds);
    CompiledExprMeans(Naturals(sites)[k].node, names, b, row, ctx);
    hide CompileExpr, EvalExpr, SourceNumber, BatchOk;
  }

  lemma PredReachesNode(x: Extracted, sites: seq<Site>, names: Names, k: nat,
                        merged: map<string, Pred>, ids: seq<string>, inputs: seq<Input<Pred>>, i: nat,
                        b: Batch, row: nat, ctx: Ctx)
    requires AllStand(x.placements, Naturals(sites), names, x.exprs, x.preds) && k < |x.placements| && x.placements[k].isPred
    requires Resolved(merged, ids, inputs, x.preds) && i < |ids| && inputs[i] == Placeholder(x.placements[k].id)
    requires BatchOk(b) && row < |b.ids|
    ensures ids[i] in merged && CompilePred(Naturals(sites)[k].node, names) == Ok(merged[ids[i]])
    ensures EvalPred(merged[ids[i]], b, row, ctx) == Definite(SourcePred(Naturals(sites)[k].node, names, b, row, ctx))
  {
    assert Stands(x.placements[k], Naturals(sites)[k], names, x.exprs, x.preds);
    CompiledPredMeans(Naturals(sites)[k].node, names, b, row, ctx);
    hide CompilePred, EvalPred, SourcePred, BatchOk;
  }
}
