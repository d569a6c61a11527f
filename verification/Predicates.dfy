/**
 Natural expressions and predicates: the source tree, the compilers to IR, and null-aware
 evaluation of the IR on a row.

 Whenever a predicate compiles, its IR evaluates on every row to what the source means.
 */
module Predicates {
  import opened Wrappers
  import opened RowSets

  // ---------------------------------------------------------------------------------------
  // The source tree, as far as the compilers look at it

  datatype PrefixOp = Bang | MinusSign | PlusSign | OtherPrefix

  datatype BinaryOp = AndAnd | OrOr | EqEq | EqEqEq | NotEq | NotEqEq | Lt | Le | Gt | Ge | Plus | Minus | Times | Slash | OtherBinary

  /** A numeric literal carries its value, or none when it is not finite. */
  datatype Node =
    | NumLit(value: Option<real>) | StrLit(text: string) | NullLit | TrueLit | FalseLit
    | Ident(name: string) | Paren(inner: Node) | Prefix(pop: PrefixOp, operand: Node)
    | Binary(bop: BinaryOp, left: Node, right: Node)
    | Prop(obj: Node, prop: string) | Call(callee: Node, args: seq<Node>) | OtherNode

  // ---------------------------------------------------------------------------------------
  // IR

  datatype Expr =
    | ConstNumber(value: real) | ConstNull | KeyRef(key: nat) | ParamRef(param: nat)
    | Add(a: Expr, b: Expr) | Sub(a: Expr, b: Expr) | Mul(a: Expr, b: Expr) | Neg(x: Expr) | Coalesce(a: Expr, b: Expr)

  datatype CmpOp = CmpEq | CmpNe | CmpLt | CmpLe | CmpGt | CmpGe

  datatype Pattern = Literal(text: string) | FromParam(param: nat)

  datatype Pred =
    | ConstBool(value: bool) | And(p: Pred, q: Pred) | Or(p: Pred, q: Pred) | Not(p: Pred)
    | IsNull(x: Expr) | NotNull(x: Expr) | Cmp(cmp: CmpOp, a: Expr, b: Expr)
    | In(lhs: Expr, numbers: seq<real>, strings: seq<string>)
    | Regex(key: nat, pattern: Pattern, flags: string)

  datatype Names = Names(keys: map<string, nat>, params: map<string, nat>)

  // ---------------------------------------------------------------------------------------
  // The compilers

  /** Objects and functions are compared by their text, so a name in parentheses is not the name. */
  function CompileProp(obj: Node, prop: string, names: Names): Result<Expr> {
    if obj == Ident("Key") then if prop in names.keys then Ok(KeyRef(names.keys[prop])) else Err("Unknown key")
    else if obj == Ident("P") then if prop in names.params then Ok(ParamRef(names.params[prop])) else Err("Unknown param")
    else Err("Unsupported property access")
  }

  function CompileExpr(n: Node, names: Names): Result<Expr> {
    match n
    case NumLit(value) => if value.Some? then Ok(ConstNumber(value.value)) else Err("Invalid numeric literal")
    case NullLit => Ok(ConstNull)
    case Prefix(op, operand) =>
      if op == MinusSign then
        match CompileExpr(operand, names)
        case Err(e) => Err(e)
        case Ok(x) => Ok(Neg(x))
      else if op == PlusSign then CompileExpr(operand, names)
      else Err("Unsupported unary operator")
    case Binary(op, left, right) =>
      var a, b := CompileExpr(left, names), CompileExpr(right, names);
      if a.Err? then a
      else if b.Err? then b
      else
        (match op
         case Plus => Ok(Add(a.value, b.value))
         case Minus => Ok(Sub(a.value, b.value))
         case Times => Ok(Mul(a.value, b.value))
         case _ => Err("Unsupported binary operator"))
    case Prop(obj, prop) => CompileProp(obj, prop, names)
    case Call(callee, args) =>
      if callee != Ident("coalesce") then Err("Unsupported function call")
      else if |args| != 2 then Err("coalesce() requires exactly 2 arguments")
      else
        var a, b := CompileExpr(args[0], names), CompileExpr(args[1], names);
        if a.Err? then a else if b.Err? then b else Ok(Coalesce(a.value, b.value))
    case Paren(inner) => CompileExpr(inner, names)
    case _ => Err("Unsupported expression type")
  }

  /** `compileTerm`: an operand of a comparison. */
  function CompileTerm(n: Node, names: Names): Result<Expr> {
    match n
    case NumLit(value) => if value.Some? then Ok(ConstNumber(value.value)) else Err("Invalid numeric literal")
    case NullLit => Ok(ConstNull)
    case Prop(obj, prop) => CompileProp(obj, prop, names)
    case Paren(inner) => CompileTerm(inner, names)
    case _ => Err("Unsupported term in predicate comparison")
  }

  function CmpOf(op: BinaryOp): Option<CmpOp> {
    match op
    case EqEq => Some(CmpEq)
    case EqEqEq => Some(CmpEq)
    case NotEq => Some(CmpNe)
    case NotEqEq => Some(CmpNe)
    case Lt => Some(CmpLt)
    case Le => Some(CmpLe)
    case Gt => Some(CmpGt)
    case Ge => Some(CmpGe)
    case _ => None
  }

  function CompileComparison(cmp: CmpOp, left: Node, right: Node, names: Names): Result<Pred> {
    if left == Ident("undefined") || right == Ident("undefined") then Err("Comparisons with 'undefined' are not allowed")
    else if left.NullLit? || right.NullLit? then
      var term := CompileTerm(if left.NullLit? then right else left, names);
      if term.Err? then Err(term.error)
      else if cmp == CmpEq then Ok(IsNull(term.value))
      else if cmp == CmpNe then Ok(NotNull(term.value))
      else Err("Null comparisons only support == and !=")
    else
      var a, b := CompileTerm(left, names), CompileTerm(right, names);
      if a.Err? then Err(a.error) else if b.Err? then Err(b.error) else Ok(Cmp(cmp, a.value, b.value))
  }

  function CompileRegex(args: seq<Node>, names: Names): Result<Pred> {
    if |args| < 2 || |args| > 3 then Err("regex() requires 2 or 3 arguments")
    else if !args[0].Prop? || args[0].obj != Ident("Key") then Err("regex() first argument must be Key.<name>")
    else if args[0].prop !in names.keys then Err("Unknown key")
    else if !args[1].StrLit? && !(args[1].Prop? && args[1].obj == Ident("P")) then Err("regex() pattern must be a string literal or P.<name>")
    else if args[1].Prop? && args[1].prop !in names.params then Err("Unknown param")
    else if |args| == 3 && !(args[2].StrLit? && (args[2].text == "" || args[2].text == "i")) then Err("regex() flags must be a string literal")
    else
      var pattern := if args[1].StrLit? then Literal(args[1].text) else FromParam(names.params[args[1].prop]);
      Ok(Regex(names.keys[args[0].prop], pattern, if |args| == 3 then args[2].text else ""))
  }

  function CompilePred(n: Node, names: Names): Result<Pred> {
    match n
    case TrueLit => Ok(ConstBool(true))
    case FalseLit => Ok(ConstBool(false))
    case Paren(inner) => CompilePred(inner, names)
    case Prefix(op, operand) =>
      if op != Bang then Err("Unsupported unary operator in predicate")
      else
        (match CompilePred(operand, names)
         case Err(e) => Err(e)
         case Ok(p) => Ok(Not(p)))
    case Binary(op, left, right) =>
      if op == AndAnd || op == OrOr then
        var p, q := CompilePred(left, names), CompilePred(right, names);
        if p.Err? then p else if q.Err? then q
        else if op == AndAnd then Ok(And(p.value, q.value)) else Ok(Or(p.value, q.value))
      else if CmpOf(op).Some? then CompileComparison(CmpOf(op).value, left, right, names)
      else Err("Unsupported binary operator in predicate")
    case Call(callee, args) => if callee == Ident("regex") then CompileRegex(args, names) else Err("Unsupported function call in predicate")
    case _ => Err("Unsupported predicate expression")
  }

  // ---------------------------------------------------------------------------------------
  // What a row and a request supply

  datatype ParamType = IntParam | FloatParam | OtherParam

  datatype ParamValue = NullValue | IntValue(i: int) | FloatValue(r: real) | StringValue(s: string)

  /** RE2: which patterns are well-formed, and whether one matches somewhere in a string. */
  datatype RegexEngine = RegexEngine(wellFormed: (string, bool) -> bool, partialMatch: (string, string, bool) -> bool)

  datatype Ctx = Ctx(paramTypes: map<nat, ParamType>, params: Option<map<nat, ParamValue>>, regex: RegexEngine)

  /** What `key_ref` reads: the id, or a float column; anything else reads as null. */
  function KeyValue(b: Batch, row: nat, key: nat): Option<real>
    requires BatchOk(b) && row < |b.ids|
  {
    if key == ID_KEY then if b.idValid[row] then Some(b.ids[row] as real) else None
    else if key in b.floats then FloatAt(b.floats[key], row)
    else None
  }

  function ParamNumber(ctx: Ctx, param: nat): Option<real> {
    if ctx.params.None? || param !in ctx.paramTypes || param !in ctx.params.value then None
    else
      match (ctx.paramTypes[param], ctx.params.value[param])
      case (IntParam, IntValue(i)) => Some(i as real)
      case (FloatParam, FloatValue(r)) => Some(r)
      case _ => None
  }

  function ParamString(ctx: Ctx, param: nat): Option<string> {
    if ctx.params.Some? && param in ctx.params.value && ctx.params.value[param].StringValue? then Some(ctx.params.value[param].s) else None
  }

  // ---------------------------------------------------------------------------------------
  // Evaluation of IR, as the engine does it

  function EvalExpr(e: Expr, b: Batch, row: nat, ctx: Ctx): Option<real>
    requires BatchOk(b) && row < |b.ids|
  {
    match e
    case ConstNumber(v) => Some(v)
    case ConstNull => None
    case KeyRef(key) => KeyValue(b, row, key)
    case ParamRef(param) => ParamNumber(ctx, param)
    case Add(x, y) => Arithmetic(Plus, EvalExpr(x, b, row, ctx), EvalExpr(y, b, row, ctx))
    case Sub(x, y) => Arithmetic(Minus, EvalExpr(x, b, row, ctx), EvalExpr(y, b, row, ctx))
    case Mul(x, y) => Arithmetic(Times, EvalExpr(x, b, row, ctx), EvalExpr(y, b, row, ctx))
    case Neg(x) => var v := EvalExpr(x, b, row, ctx); if v.None? then None else Some(-v.value)
    case Coalesce(x, y) => var v := EvalExpr(x, b, row, ctx); if v.Some? then v else EvalExpr(y, b, row, ctx)
  }

  /** Multiplication, as a name the solver need not look into. */
  function Product(a: real, b: real): real { a * b }

  /** Arithmetic on optional numbers: null if either side is. */
  function Arithmetic(op: BinaryOp, u: Option<real>, v: Option<real>): Option<real> {
    if u.None? || v.None? then None
    else if op == Plus then Some(u.value + v.value)
    else if op == Minus then Some(u.value - v.value)
    else Some(Product(u.value, v.value))
  }

  function Compare(cmp: CmpOp, a: real, b: real): bool {
    match cmp
    case CmpEq => a == b
    case CmpNe => a != b
    case CmpLt => a < b
    case CmpLe => a <= b
    case CmpGt => a > b
    case CmpGe => a >= b
  }

  /** True, false, or unknown. */
  type Truth = Option<bool>

  function PatternText(pattern: Pattern, ctx: Ctx): Result<string> {
    match pattern
    case Literal(text) => Ok(text)
    case FromParam(param) =>
      if ctx.params.None? then Err("regex: param_ref pattern but no params in context")
      else if ParamString(ctx, param).None? then Err("regex: param pattern is null or missing")
      else Ok(ParamString(ctx, param).value)
  }

  /** Matching one string directly, without a table. */
  function DirectMatch(s: string, pattern: string, flags: string, regex: RegexEngine): Result<bool> {
    if regex.wellFormed(pattern, flags != "i") then Ok(regex.partialMatch(s, pattern, flags != "i"))
    else Err("Invalid regex pattern")
  }

  function EvalRegex(key: nat, pattern: Pattern, flags: string, b: Batch, row: nat, ctx: Ctx): Result<Truth>
    requires BatchOk(b) && row < |b.ids|
  {
    if key !in b.strings || !b.strings[key].valid[row] then Ok(Some(false))
    else
      match PatternText(pattern, ctx)
      case Err(e) => Err(e)
      case Ok(text) =>
        match DirectMatch(b.strings[key].dict[b.strings[key].codes[row]], text, flags, ctx.regex)
        case Err(e) => Err(e)
        case Ok(m) => Ok(Some(m))
  }

  function EvalIn(lhs: Expr, numbers: seq<real>, strings: seq<string>, b: Batch, row: nat, ctx: Ctx): Result<Truth>
    requires BatchOk(b) && row < |b.ids|
  {
    if strings != [] then
      if !lhs.KeyRef? then Err("String in-list requires key_ref as lhs")
      else if lhs.key !in b.strings || !b.strings[lhs.key].valid[row] then Ok(Some(false))
      else Ok(Some(b.strings[lhs.key].dict[b.strings[lhs.key].codes[row]] in strings))
    else
      var v := EvalExpr(lhs, b, row, ctx);
      Ok(Some(v.Some? && v.value in numbers))
  }

  function EvalCmp(cmp: CmpOp, x: Expr, y: Expr, b: Batch, row: nat, ctx: Ctx): bool
    requires BatchOk(b) && row < |b.ids|
  {
    var u, v := EvalExpr(x, b, row, ctx), EvalExpr(y, b, row, ctx);
    if (x.ConstNull? || y.ConstNull?) && cmp == CmpEq then u.None? && v.None?
    else if (x.ConstNull? || y.ConstNull?) && cmp == CmpNe then u.None? != v.None?
    else if u.None? || v.None? then false
    else Compare(cmp, u.value, v.value)
  }

  /** `eval_pred_impl`, three-valued, with its short cuts; an error ends the evaluation. */
  function EvalPred(p: Pred, b: Batch, row: nat, ctx: Ctx): Result<Truth>
    requires BatchOk(b) && row < |b.ids|
  {
    match p
    case ConstBool(v) => Ok(Some(v))
    case And(x, y) =>
      var u := EvalPred(x, b, row, ctx);
      if u.Err? || u.value == Some(false) then u
      else
        var v := EvalPred(y, b, row, ctx);
        if v.Err? || v.value == Some(false) then v
        else if u.value.None? || v.value.None? then Ok(None) else Ok(Some(true))
    case Or(x, y) =>
      var u := EvalPred(x, b, row, ctx);
      if u.Err? || u.value == Some(true) then u
      else
        var v := EvalPred(y, b, row, ctx);
        if v.Err? || v.value == Some(true) then v
        else if u.value.None? || v.value.None? then Ok(None) else Ok(Some(false))
    case Not(x) =>
      var u := EvalPred(x, b, row, ctx);
      if u.Err? || u.value.None? then u else Ok(Some(!u.value.value))
    case IsNull(x) => Ok(Some(EvalExpr(x, b, row, ctx).None?))
    case NotNull(x) => Ok(Some(EvalExpr(x, b, row, ctx).Some?))
    case Cmp(cmp, x, y) => Ok(Some(EvalCmp(cmp, x, y, b, row, ctx)))
    case In(lhs, numbers, strings) => EvalIn(lhs, numbers, strings, b, row, ctx)
    case Regex(key, pattern, flags) => EvalRegex(key, pattern, flags, b, row, ctx)
  }

  /** An evaluation that returns never returns "unknown". */
  lemma {:induction false} NeverUnknown(p: Pred, b: Batch, row: nat, ctx: Ctx)
    requires BatchOk(b) && row < |b.ids|
    ensures EvalPred(p, b, row, ctx).Ok? ==> EvalPred(p, b, row, ctx).value.Some?
  {
    match p
    case And(x, y) =>
      NeverUnknown(x, b, row, ctx);
      NeverUnknown(y, b, row, ctx);
    case Or(x, y) =>
      NeverUnknown(x, b, row, ctx);
      NeverUnknown(y, b, row, ctx);
    case Not(x) => NeverUnknown(x, b, row, ctx);
    case _ =>
  }

  /** So and, or and not are the classical connectives wherever their operands return. */
  lemma Classical(p: Pred, q: Pred, b: Batch, row: nat, ctx: Ctx)
    requires BatchOk(b) && row < |b.ids|
    requires EvalPred(p, b, row, ctx).Ok? && EvalPred(q, b, row, ctx).Ok?
    ensures var u, v := EvalPred(p, b, row, ctx).value, EvalPred(q, b, row, ctx).value;
      && u.Some? && v.Some?
      && EvalPred(And(p, q), b, row, ctx) == Ok(Some(u.value && v.value))
      && EvalPred(Or(p, q), b, row, ctx) == Ok(Some(u.value || v.value))
      && EvalPred(Not(p), b, row, ctx) == Ok(Some(!u.value))
  {
    NeverUnknown(p, b, row, ctx);
    NeverUnknown(q, b, row, ctx);
  }

  /** The two encodings of a null check agree, whichever side the literal null is on. */
  lemma NullChecksAgree(x: Expr, b: Batch, row: nat, ctx: Ctx)
    requires BatchOk(b) && row < |b.ids|
    ensures EvalPred(IsNull(x), b, row, ctx) == EvalPred(Cmp(CmpEq, x, ConstNull), b, row, ctx) == EvalPred(Cmp(CmpEq, ConstNull, x), b, row, ctx)
    ensures EvalPred(NotNull(x), b, row, ctx) == EvalPred(Cmp(CmpNe, x, ConstNull), b, row, ctx) == EvalPred(Cmp(CmpNe, ConstNull, x), b, row, ctx)
    ensures EvalPred(IsNull(x), b, row, ctx) == EvalPred(Not(NotNull(x)), b, row, ctx)
  {
  }

  /** What arithmetic computes: the operators of the reals, and null exactly if an operand is null. */
  lemma ArithmeticMeans(x: Expr, y: Expr, b: Batch, row: nat, ctx: Ctx, p: real, q: real)
    requires BatchOk(b) && row < |b.ids|
    ensures EvalExpr(x, b, row, ctx) == Some(p) && EvalExpr(y, b, row, ctx) == Some(q) ==>
      && EvalExpr(Add(x, y), b, row, ctx) == Some(p + q)
      && EvalExpr(Sub(x, y), b, row, ctx) == Some(p - q)
      && EvalExpr(Mul(x, y), b, row, ctx) == Some(p * q)
      && EvalExpr(Neg(x), b, row, ctx) == Some(0.0 - p)
      && EvalExpr(Coalesce(x, y), b, row, ctx) == Some(p)
    ensures EvalExpr(x, b, row, ctx).None? || EvalExpr(y, b, row, ctx).None? ==>
      && EvalExpr(Add(x, y), b, row, ctx).None? && EvalExpr(Sub(x, y), b, row, ctx).None? && EvalExpr(Mul(x, y), b, row, ctx).None?
    ensures EvalExpr(x, b, row, ctx).None? ==>
      EvalExpr(Neg(x), b, row, ctx).None? && EvalExpr(Coalesce(x, y), b, row, ctx) == EvalExpr(y, b, row, ctx)
  {
    ArithmeticIs(p, q);
    ArithmeticOf(x, y, b, row, ctx);
    var u, v := EvalExpr(x, b, row, ctx), EvalExpr(y, b, row, ctx);
    if u.None? || v.None? {
      NullArithmetic(Plus, u, v);
      NullArithmetic(Minus, u, v);
      NullArithmetic(Times, u, v);
    }
    hide Arithmetic, BatchOk, KeyValue, ParamNumber;
  }

  lemma ArithmeticOf(x: Expr, y: Expr, b: Batch, row: nat, ctx: Ctx)
    requires BatchOk(b) && row < |b.ids|
    ensures EvalExpr(Add(x, y), b, row, ctx) == Arithmetic(Plus, EvalExpr(x, b, row, ctx), EvalExpr(y, b, row, ctx))
    ensures EvalExpr(Sub(x, y), b, row, ctx) == Arithmetic(Minus, EvalExpr(x, b, row, ctx), EvalExpr(y, b, row, ctx))
    ensures EvalExpr(Mul(x, y), b, row, ctx) == Arithmetic(Times, EvalExpr(x, b, row, ctx), EvalExpr(y, b, row, ctx))
  {
    hide Arithmetic, KeyValue, ParamNumber;
  }

  lemma NullArithmetic(op: BinaryOp, u: Option<real>, v: Option<real>)
    requires u.None? || v.None?
    ensures Arithmetic(op, u, v) == None
  {
  }

  lemma ArithmeticIs(p: real, q: real)
    ensures Arithmetic(Plus, Some(p), Some(q)) == Some(p + q)
    ensures Arithmetic(Minus, Some(p), Some(q)) == Some(p - q)
    ensures Arithmetic(Times, Some(p), Some(q)) == Some(Product(p, q)) == Some(p * q)
  {
    assert Product(p, q) == p * q;
    hide Product;
  }

  /** What a key and a parameter read: the id or a float column, and an integer or float parameter; all else is null. */
  lemma ReadsMean(key: nat, param: nat, b: Batch, row: nat, ctx: Ctx)
    requires BatchOk(b) && row < |b.ids|
    ensures var r := EvalExpr(KeyRef(key), b, row, ctx);
      && (key == 1 ==> (r.Some? <==> b.idValid[row]) && (r.Some? ==> r.value == b.ids[row] as real))
      && (key != 1 ==> (r.Some? <==> key in b.floats && b.floats[key].valid[row]) && (r.Some? ==> r.value == b.floats[key].values[row]))
    ensures forall v :: EvalExpr(ParamRef(param), b, row, ctx) == Some(v) <==>
      && ctx.params.Some? && param in ctx.params.value && param in ctx.paramTypes
      && ((ctx.paramTypes[param].IntParam? && ctx.params.value[param].IntValue? && ctx.params.value[param].i as real == v)
          || (ctx.paramTypes[param].FloatParam? && ctx.params.value[param] == FloatValue(v)))
  {
  }

  /** What a comparison says of two numbers; with a null it says no, unless it asks about a literal null. */
  lemma CompareMeans(x: Expr, y: Expr, b: Batch, row: nat, ctx: Ctx)
    requires BatchOk(b) && row < |b.ids| && !x.ConstNull? && !y.ConstNull?
    ensures var u, v := EvalExpr(x, b, row, ctx), EvalExpr(y, b, row, ctx);
      && EvalPred(Cmp(CmpEq, x, y), b, row, ctx) == Ok(Some(u.Some? && v.Some? && u.value == v.value))
      && EvalPred(Cmp(CmpNe, x, y), b, row, ctx) == Ok(Some(u.Some? && v.Some? && u.value != v.value))
      && EvalPred(Cmp(CmpLt, x, y), b, row, ctx) == Ok(Some(u.Some? && v.Some? && u.value < v.value))
      && EvalPred(Cmp(CmpLe, x, y), b, row, ctx) == Ok(Some(u.Some? && v.Some? && u.value <= v.value))
      && EvalPred(Cmp(CmpGt, x, y), b, row, ctx) == Ok(Some(u.Some? && v.Some? && u.value > v.value))
      && EvalPred(Cmp(CmpGe, x, y), b, row, ctx) == Ok(Some(u.Some? && v.Some? && u.value >= v.value))
  {
  }

  /** What an in-list says: the number is one of those listed, or the decoded string of the key's column is; a null is in no list. */
  lemma InMeans(lhs: Expr, numbers: seq<real>, strings: seq<string>, b: Batch, row: nat, ctx: Ctx)
    requires BatchOk(b) && row < |b.ids|
    ensures strings == [] ==>
      EvalPred(In(lhs, numbers, strings), b, row, ctx)
        == Ok(Some(exists k :: 0 <= k < |numbers| && EvalExpr(lhs, b, row, ctx) == Some(numbers[k])))
    ensures strings != [] && !lhs.KeyRef? ==> EvalPred(In(lhs, numbers, strings), b, row, ctx).Err?
    ensures strings != [] && lhs.KeyRef? ==>
      EvalPred(In(lhs, numbers, strings), b, row, ctx)
        == Ok(Some(lhs.key in b.strings && exists k :: 0 <= k < |strings| && StringAt(b.strings[lhs.key], row) == Some(strings[k])))
  {
    var v := EvalExpr(lhs, b, row, ctx);
    if v.Some? { assert v.value in numbers <==> exists k :: 0 <= k < |numbers| && v == Some(numbers[k]); }
    if lhs.KeyRef? && lhs.key in b.strings {
      var s := StringAt(b.strings[lhs.key], row);
      if s.Some? { assert s.value in strings <==> exists k :: 0 <= k < |strings| && s == Some(strings[k]); }
    }
    hide EvalExpr;
  }

  /** What a regex test says of one string: an error for a pattern that is not well-formed, else whether it matches somewhere. */
  predicate RegexSays(r: Result<Truth>, s: string, text: string, flags: string, regex: RegexEngine) {
    if !regex.wellFormed(text, flags != "i") then r.Err? else r == Ok(Some(regex.partialMatch(s, text, flags != "i")))
  }

  /** A null matches nothing; otherwise the decoded string is tested against the literal, or against the parameter's string, without which it is an error. */
  lemma RegexEvalMeans(key: nat, pattern: Pattern, flags: string, b: Batch, row: nat, ctx: Ctx)
    requires BatchOk(b) && row < |b.ids|
    ensures var r := EvalPred(Regex(key, pattern, flags), b, row, ctx);
      if key !in b.strings || !b.strings[key].valid[row] then r == Ok(Some(false))
      else
        var s := b.strings[key].dict[b.strings[key].codes[row]];
        match pattern
        case Literal(text) => RegexSays(r, s, text, flags, ctx.regex)
        case FromParam(param) =>
          if ctx.params.Some? && param in ctx.params.value && ctx.params.value[param].StringValue?
          then RegexSays(r, s, ctx.params.value[param].s, flags, ctx.regex)
          else r.Err?
  {
  }

  // ---------------------------------------------------------------------------------------
  // The source language, with names and parentheses

  /** The tree without its parentheses. */
  function Strip(n: Node): Node {
    match n
    case Paren(inner) => Strip(inner)
    case Prefix(op, operand) => Prefix(op, Strip(operand))
    case Binary(op, left, right) => Binary(op, Strip(left), Strip(right))
    case Prop(obj, prop) => Prop(Strip(obj), prop)
    case Call(callee, args) => Call(Strip(callee), seq(|args|, i requires 0 <= i < |args| => Strip(args[i])))
    case _ => n
  }

  /** The number an operand stands for; nothing for null and for what has no number. */
  function SourceNumber(n: Node, names: Names, b: Batch, row: nat, ctx: Ctx): Option<real>
    requires BatchOk(b) && row < |b.ids|
  {
    match n
    case NumLit(value) => value
    case Paren(inner) => SourceNumber(inner, names, b, row, ctx)
    case Prefix(op, operand) =>
      var v := SourceNumber(operand, names, b, row, ctx);
      if v.None? then None else if op == MinusSign then Some(0.0 - v.value) else v
    case Binary(op, left, right) =>
      var u, v := SourceNumber(left, names, b, row, ctx), SourceNumber(right, names, b, row, ctx);
      if u.None? || v.None? then None
      else
        (match op
         case Plus => Some(u.value + v.value)
         case Minus => Some(u.value - v.value)
         case Times => Some(Product(u.value, v.value))
         case _ => None)
    case Prop(obj, prop) =>
      if Strip(obj) == Ident("Key") && prop in names.keys then KeyValue(b, row, names.keys[prop])
      else if Strip(obj) == Ident("P") && prop in names.params then ParamNumber(ctx, names.params[prop])
      else None
    case Call(_, args) =>
      if |args| != 2 then None
      else
        var v := SourceNumber(args[0], names, b, row, ctx);
        if v.Some? then v else SourceNumber(args[1], names, b, row, ctx)
    case _ => None
  }

  /** A compiled expression evaluates to the number the source stands for. */
  lemma {:induction false} CompiledExprMeans(n: Node, names: Names, b: Batch, row: nat, ctx: Ctx)
    requires BatchOk(b) && row < |b.ids| && CompileExpr(n, names).Ok?
    ensures EvalExpr(CompileExpr(n, names).value, b, row, ctx) == SourceNumber(n, names, b, row, ctx)
  {
    hide KeyValue, ParamNumber;
    match n
    case Paren(inner) => CompiledExprMeans(inner, names, b, row, ctx);
    case Prefix(_, operand) => CompiledExprMeans(operand, names, b, row, ctx);
    case Binary(_, left, right) =>
      CompiledExprMeans(left, names, b, row, ctx);
      CompiledExprMeans(right, names, b, row, ctx);
      ArithmeticOf(CompileExpr(left, names).value, CompileExpr(right, names).value, b, row, ctx);
      var u, v := SourceNumber(left, names, b, row, ctx), SourceNumber(right, names, b, row, ctx);
      if u.Some? && v.Some? { ArithmeticIs(u.value, v.value); } else { NullArithmetic(n.bop, u, v); }
      hide Arithmetic, Product;
    case Call(_, args) =>
      CompiledExprMeans(args[0], names, b, row, ctx);
      CompiledExprMeans(args[1], names, b, row, ctx);
    case _ =>
  }

  /** Operands of comparisons are compiled as expressions are. */
  lemma {:induction false} TermIsExpr(n: Node, names: Names)
    requires CompileTerm(n, names).Ok?
    ensures CompileExpr(n, names) == CompileTerm(n, names)
    ensures CompileTerm(n, names).value.ConstNull? <==> Strip(n).NullLit?
  {
    if n.Paren? { TermIsExpr(n.inner, names); }
  }

  predicate IsEquality(op: BinaryOp) { op == EqEq || op == EqEqEq }

  predicate IsInequality(op: BinaryOp) { op == NotEq || op == NotEqEq }

  predicate OperatorHolds(op: BinaryOp, a: real, b: real) {
    || (IsEquality(op) && a == b) || (IsInequality(op) && a != b)
    || (op == Lt && a < b) || (op == Le && a <= b) || (op == Gt && a > b) || (op == Ge && a >= b)
  }

  /** Equality with a literal null asks about null; any other comparison with a null is false. */
  function SourceComparison(op: BinaryOp, left: Node, right: Node, names: Names, b: Batch, row: nat, ctx: Ctx): bool
    requires BatchOk(b) && row < |b.ids|
  {
    var u, v := SourceNumber(left, names, b, row, ctx), SourceNumber(right, names, b, row, ctx);
    if Strip(left).NullLit? && (IsEquality(op) || IsInequality(op)) then v.None? == IsEquality(op)
    else if Strip(right).NullLit? && (IsEquality(op) || IsInequality(op)) then u.None? == IsEquality(op)
    else u.Some? && v.Some? && OperatorHolds(op, u.value, v.value)
  }

  function SourceMatch(s: string, pattern: string, sensitive: bool, regex: RegexEngine): Result<bool> {
    if !regex.wellFormed(pattern, sensitive) then Err("Invalid regex pattern") else Ok(regex.partialMatch(s, pattern, sensitive))
  }

  function SourceRegex(args: seq<Node>, names: Names, b: Batch, row: nat, ctx: Ctx): Result<bool>
    requires BatchOk(b) && row < |b.ids|
  {
    if |args| < 2 || !args[0].Prop? || args[0].prop !in names.keys then Err("not a predicate")
    else
      var key := names.keys[args[0].prop];
      var sensitive := !(|args| == 3 && args[2] == StrLit("i"));
      if key !in b.strings then Ok(false)
      else
        match StringAt(b.strings[key], row)
        case None => Ok(false)
        case Some(s) =>
          match args[1]
          case StrLit(text) => SourceMatch(s, text, sensitive, ctx.regex)
          case Prop(_, prop) =>
            if prop !in names.params then Err("not a predicate")
            else if ctx.params.None? then Err("regex: param_ref pattern but no params in context")
            else
              (match ParamString(ctx, names.params[prop])
               case None => Err("regex: param pattern is null or missing")
               case Some(text) => SourceMatch(s, text, sensitive, ctx.regex))
          case _ => Err("not a predicate")
  }

  /** What a source predicate says of a row; `&&` and `||` look at the right side only when they must. */
  function SourcePred(n: Node, names: Names, b: Batch, row: nat, ctx: Ctx): Result<bool>
    requires BatchOk(b) && row < |b.ids|
  {
    match n
    case TrueLit => Ok(true)
    case FalseLit => Ok(false)
    case Paren(inner) => SourcePred(inner, names, b, row, ctx)
    case Prefix(_, operand) =>
      (match SourcePred(operand, names, b, row, ctx)
       case Err(e) => Err(e)
       case Ok(v) => Ok(!v))
    case Binary(op, left, right) =>
      if op == AndAnd || op == OrOr then
        match SourcePred(left, names, b, row, ctx)
        case Err(e) => Err(e)
        case Ok(u) => if u == (op == OrOr) then Ok(u) else SourcePred(right, names, b, row, ctx)
      else if CmpOf(op).Some? then Ok(SourceComparison(op, left, right, names, b, row, ctx))
      else Err("not a predicate")
    case Call(_, args) => SourceRegex(args, names, b, row, ctx)
    case _ => Err("not a predicate")
  }

  function Definite(r: Result<bool>): Result<Truth> {
    match r
    case Err(e) => Err(e)
    case Ok(v) => Ok(Some(v))
  }

  lemma OperandMeans(n: Node, names: Names, b: Batch, row: nat, ctx: Ctx)
    requires BatchOk(b) && row < |b.ids| && CompileTerm(n, names).Ok?
    ensures EvalExpr(CompileTerm(n, names).value, b, row, ctx) == SourceNumber(n, names, b, row, ctx)
    ensures CompileTerm(n, names).value.ConstNull? <==> Strip(n).NullLit?
    ensures Strip(n).NullLit? ==> SourceNumber(n, names, b, row, ctx).None?
  {
    TermIsExpr(n, names);
    hide CompileTerm, SourceNumber, Strip;
    CompiledExprMeans(n, names, b, row, ctx);
  }

  /** A comparison of two operands, one of them perhaps the null constant. */
  lemma CmpMeans(op: BinaryOp, x: Expr, y: Expr, b: Batch, row: nat, ctx: Ctx)
    requires BatchOk(b) && row < |b.ids| && CmpOf(op).Some?
    ensures var u, v := EvalExpr(x, b, row, ctx), EvalExpr(y, b, row, ctx);
      EvalCmp(CmpOf(op).value, x, y, b, row, ctx) ==
        if (x.ConstNull? || y.ConstNull?) && (IsEquality(op) || IsInequality(op)) then (u.None? == v.None?) == IsEquality(op)
        else u.Some? && v.Some? && OperatorHolds(op, u.value, v.value)
  {
    assert x.ConstNull? ==> EvalExpr(x, b, row, ctx).None?;
    assert y.ConstNull? ==> EvalExpr(y, b, row, ctx).None?;
    hide EvalExpr, BatchOk;
  }

  lemma ComparisonMeans(op: BinaryOp, left: Node, right: Node, names: Names, b: Batch, row: nat, ctx: Ctx)
    requires BatchOk(b) && row < |b.ids| && CmpOf(op).Some? && CompileComparison(CmpOf(op).value, left, right, names).Ok?
    ensures EvalPred(CompileComparison(CmpOf(op).value, left, right, names).value, b, row, ctx)
         == Ok(Some(SourceComparison(op, left, right, names, b, row, ctx)))
  {
    assert left.NullLit? ==> Strip(left).NullLit? && CompileTerm(left, names) == Ok(ConstNull);
    assert right.NullLit? ==> Strip(right).NullLit? && CompileTerm(right, names) == Ok(ConstNull);
    OperandMeans(left, names, b, row, ctx);
    OperandMeans(right, names, b, row, ctx);
    var x, y := CompileTerm(left, names).value, CompileTerm(right, names).value;
    CmpMeans(op, x, y, b, row, ctx);
    CompiledComparison(op, left, right, names);
    hide CompileTerm, SourceNumber, Strip, EvalExpr, BatchOk, EvalCmp, OperatorHolds, CompileComparison, CmpOf;
    LeavesEvaluate(CmpOf(op).value, x, y, b, row, ctx);
    LeavesEvaluate(CmpOf(op).value, y, x, b, row, ctx);
    hide EvalPred;
  }

  lemma LeavesEvaluate(cmp: CmpOp, x: Expr, y: Expr, b: Batch, row: nat, ctx: Ctx)
    requires BatchOk(b) && row < |b.ids|
    ensures EvalPred(IsNull(x), b, row, ctx) == Ok(Some(EvalExpr(x, b, row, ctx).None?))
    ensures EvalPred(NotNull(x), b, row, ctx) == Ok(Some(EvalExpr(x, b, row, ctx).Some?))
    ensures EvalPred(Cmp(cmp, x, y), b, row, ctx) == Ok(Some(EvalCmp(cmp, x, y, b, row, ctx)))
  {
  }

  /** The two forms a comparison compiles to. */
  lemma CompiledComparison(op: BinaryOp, left: Node, right: Node, names: Names)
    requires CmpOf(op).Some? && CompileComparison(CmpOf(op).value, left, right, names).Ok?
    ensures CompileTerm(left, names).Ok? && CompileTerm(right, names).Ok?
    ensures var x, y := CompileTerm(left, names).value, CompileTerm(right, names).value;
      var r := CompileComparison(CmpOf(op).value, left, right, names).value;
      if left.NullLit? || right.NullLit? then
        && (IsEquality(op) || IsInequality(op))
        && r == if IsEquality(op) then IsNull(if left.NullLit? then y else x) else NotNull(if left.NullLit? then y else x)
      else r == Cmp(CmpOf(op).value, x, y)
  {
    assert CompileTerm(NullLit, names) == Ok(ConstNull);
    hide CompileTerm;
  }

  lemma RegexMeans(args: seq<Node>, names: Names, b: Batch, row: nat, ctx: Ctx)
    requires BatchOk(b) && row < |b.ids| && CompileRegex(args, names).Ok?
    ensures EvalPred(CompileRegex(args, names).value, b, row, ctx) == Definite(SourceRegex(args, names, b, row, ctx))
  {
  }

  /** Whenever a predicate compiles, its IR means on every row what the source means, errors included. */
  lemma {:induction false} CompiledPredMeans(n: Node, names: Names, b: Batch, row: nat, ctx: Ctx)
    requires BatchOk(b) && row < |b.ids| && CompilePred(n, names).Ok?
    ensures EvalPred(CompilePred(n, names).value, b, row, ctx) == Definite(SourcePred(n, names, b, row, ctx))
  {
    hide BatchOk, EvalCmp, EvalIn, EvalRegex, EvalExpr, CompileComparison, SourceComparison, CompileRegex, SourceRegex;
    match n
    case Paren(inner) => CompiledPredMeans(inner, names, b, row, ctx);
    case Prefix(_, operand) => CompiledPredMeans(operand, names, b, row, ctx);
    case Binary(op, left, right) =>
      if op == AndAnd || op == OrOr {
        CompiledPredMeans(left, names, b, row, ctx);
        CompiledPredMeans(right, names, b, row, ctx);
      } else {
        ComparisonMeans(op, left, right, names, b, row, ctx);
      }
    case Call(_, args) => RegexMeans(args, names, b, row, ctx);
    case _ =>
  }

  // ---------------------------------------------------------------------------------------
  // What is accepted

  predicate KnownName(n: Node, names: Names) {
    n.Prop? && ((n.obj == Ident("Key") && n.prop in names.keys) || (n.obj == Ident("P") && n.prop in names.params))
  }

  /** The expressions of the language. */
  predicate ExprGrammar(n: Node, names: Names) {
    match n
    case NumLit(value) => value.Some?
    case NullLit => true
    case Paren(inner) => ExprGrammar(inner, names)
    case Prefix(op, operand) => (op == MinusSign || op == PlusSign) && ExprGrammar(operand, names)
    case Binary(op, left, right) => (op == Plus || op == Minus || op == Times) && ExprGrammar(left, names) && ExprGrammar(right, names)
    case Call(callee, args) => callee == Ident("coalesce") && |args| == 2 && forall i :: 0 <= i < |args| ==> ExprGrammar(args[i], names)
    case _ => KnownName(n, names)
  }

  /** An operand of a comparison: a number, null or a known name, in any parentheses. */
  predicate TermGrammar(n: Node, names: Names) {
    match n
    case Paren(inner) => TermGrammar(inner, names)
    case NumLit(value) => value.Some?
    case NullLit => true
    case _ => KnownName(n, names)
  }

  predicate RegexGrammar(args: seq<Node>, names: Names) {
    && (|args| == 2 || |args| == 3)
    && KnownName(args[0], names) && args[0].obj == Ident("Key")
    && (args[1].StrLit? || (KnownName(args[1], names) && args[1].obj == Ident("P")))
    && (|args| == 3 ==> args[2] == StrLit("") || args[2] == StrLit("i"))
  }

  predicate IsComparison(op: BinaryOp) { IsEquality(op) || IsInequality(op) || op == Lt || op == Le || op == Gt || op == Ge }

  /** The predicates of the language. A null literal without parentheses takes part in (in)equalities only. */
  predicate PredGrammar(n: Node, names: Names) {
    match n
    case TrueLit => true
    case FalseLit => true
    case Paren(inner) => PredGrammar(inner, names)
    case Prefix(op, operand) => op == Bang && PredGrammar(operand, names)
    case Binary(op, left, right) =>
      if op == AndAnd || op == OrOr then PredGrammar(left, names) && PredGrammar(right, names)
      else
        && IsComparison(op) && TermGrammar(left, names) && TermGrammar(right, names)
        && (left == NullLit || right == NullLit ==> IsEquality(op) || IsInequality(op))
    case Call(callee, args) => callee == Ident("regex") && RegexGrammar(args, names)
    case _ => false
  }

  lemma {:induction false} ExprAcceptedIff(n: Node, names: Names)
    ensures CompileExpr(n, names).Ok? <==> ExprGrammar(n, names)
  {
    match n
    case Paren(inner) => ExprAcceptedIff(inner, names);
    case Prefix(_, operand) => ExprAcceptedIff(operand, names);
    case Binary(_, left, right) =>
      ExprAcceptedIff(left, names);
      ExprAcceptedIff(right, names);
    case Call(_, args) =>
      if |args| == 2 {
        ExprAcceptedIff(args[0], names);
        ExprAcceptedIff(args[1], names);
      }
    case _ =>
  }

  lemma {:induction false} TermAcceptedIff(n: Node, names: Names)
    ensures CompileTerm(n, names).Ok? <==> TermGrammar(n, names)
  {
    if n.Paren? { TermAcceptedIff(n.inner, names); }
  }

  lemma ComparisonOk(cmp: CmpOp, left: Node, right: Node, names: Names)
    ensures CompileComparison(cmp, left, right, names).Ok? <==>
      && CompileTerm(left, names).Ok? && CompileTerm(right, names).Ok?
      && (left.NullLit? || right.NullLit? ==> cmp == CmpEq || cmp == CmpNe)
  {
    assert CompileTerm(NullLit, names).Ok? && CompileTerm(Ident("undefined"), names).Err?;
    hide CompileTerm;
    var undefined := Ident("undefined");
    if left == undefined || right == undefined {
    } else if left.NullLit? || right.NullLit? {
    } else {
    }
  }

  lemma ComparisonAcceptedIff(op: BinaryOp, left: Node, right: Node, names: Names)
    requires CmpOf(op).Some?
    ensures CompileComparison(CmpOf(op).value, left, right, names).Ok? <==>
      && TermGrammar(left, names) && TermGrammar(right, names)
      && (left == NullLit || right == NullLit ==> IsEquality(op) || IsInequality(op))
  {
    TermAcceptedIff(left, names);
    TermAcceptedIff(right, names);
    ComparisonOk(CmpOf(op).value, left, right, names);
    hide CompileTerm, TermGrammar, CompileComparison;
  }

  /** The predicate compiler accepts exactly the predicates of the language. */
  lemma {:induction false} PredAcceptedIff(n: Node, names: Names)
    ensures CompilePred(n, names).Ok? <==> PredGrammar(n, names)
  {
    hide CompileComparison, TermGrammar;
    match n
    case Paren(inner) => PredAcceptedIff(inner, names);
    case Prefix(_, operand) => PredAcceptedIff(operand, names);
    case Binary(op, left, right) =>
      if op == AndAnd || op == OrOr {
        PredAcceptedIff(left, names);
        PredAcceptedIff(right, names);
      } else if CmpOf(op).Some? {
        ComparisonAcceptedIff(op, left, right, names);
      }
    case _ =>
  }

  // ---------------------------------------------------------------------------------------
  // Parentheses

  lemma {:induction false} StripTwice(n: Node)
    ensures Strip(Strip(n)) == Strip(n) && !Strip(n).Paren?
  {
    match n
    case Paren(inner) => StripTwice(inner);
    case Prefix(_, operand) => StripTwice(operand);
    case Binary(_, left, right) =>
      StripTwice(left);
      StripTwice(right);
    case Prop(obj, _) => StripTwice(obj);
    case Call(callee, args) =>
      StripTwice(callee);
      forall i | 0 <= i < |args| ensures Strip(Strip(args[i])) == Strip(args[i]) { StripTwice(args[i]); }
      assert Strip(Strip(n)).args == Strip(n).args;
    case _ =>
  }

  lemma {:induction false} StripNumber(n: Node, names: Names, b: Batch, row: nat, ctx: Ctx)
    requires BatchOk(b) && row < |b.ids|
    ensures SourceNumber(Strip(n), names, b, row, ctx) == SourceNumber(n, names, b, row, ctx)
  {
    hide KeyValue, ParamNumber, Product;
    match n
    case Paren(inner) => StripNumber(inner, names, b, row, ctx);
    case Prefix(_, operand) => StripNumber(operand, names, b, row, ctx);
    case Binary(_, left, right) =>
      StripNumber(left, names, b, row, ctx);
      StripNumber(right, names, b, row, ctx);
    case Prop(obj, _) => StripTwice(obj);
    case Call(_, args) =>
      if |args| == 2 {
        StripNumber(args[0], names, b, row, ctx);
        StripNumber(args[1], names, b, row, ctx);
      }
    case _ =>
  }

  /** An ordering comparison has a literal null, in parentheses or not, on one side. */
  predicate OrdersNull(n: Node) {
    match n
    case Paren(inner) => OrdersNull(inner)
    case Prefix(_, operand) => OrdersNull(operand)
    case Binary(op, left, right) =>
      if op == AndAnd || op == OrOr then OrdersNull(left) || OrdersNull(right)
      else CmpOf(op).Some? && CmpOf(op) != Some(CmpEq) && CmpOf(op) != Some(CmpNe) && (Strip(left).NullLit? || Strip(right).NullLit?)
    case _ => false
  }

  /** An object or a function is written in parentheses: `(Key).x`, `(coalesce)(a, b)`. */
  predicate NameInParens(n: Node) {
    match n
    case Paren(inner) => NameInParens(inner)
    case Prefix(_, operand) => NameInParens(operand)
    case Binary(_, left, right) => NameInParens(left) || NameInParens(right)
    case Prop(obj, _) => obj.Paren?
    case Call(callee, args) => callee.Paren? || exists i :: 0 <= i < |args| && NameInParens(args[i])
    case _ => false
  }

  /** Parentheses where the predicate compiler sees them: around a name, or in an argument of a call. */
  predicate ParenBlocks(n: Node) {
    match n
    case Paren(inner) => ParenBlocks(inner)
    case Prefix(_, operand) => ParenBlocks(operand)
    case Binary(op, left, right) =>
      if op == AndAnd || op == OrOr then ParenBlocks(left) || ParenBlocks(right) else NameInParens(left) || NameInParens(right)
    case Call(callee, args) => callee.Paren? || exists i :: 0 <= i < |args| && Strip(args[i]) != args[i]
    case _ => false
  }

  lemma StripProp(obj: Node, prop: string, names: Names)
    ensures CompileProp(obj, prop, names).Ok? <==> CompileProp(Strip(obj), prop, names).Ok? && !obj.Paren?
    ensures CompileProp(obj, prop, names).Ok? ==> Strip(obj) == obj
  {
    StripTwice(obj);
  }

  /** Without its parentheses an expression compiles to the same, and more expressions do: those with a name in parentheses. */
  lemma {:induction false} StripExprIff(n: Node, names: Names)
    ensures CompileExpr(n, names).Ok? <==> CompileExpr(Strip(n), names).Ok? && !NameInParens(n)
    ensures CompileExpr(n, names).Ok? ==> CompileExpr(Strip(n), names) == CompileExpr(n, names)
  {
    hide CompileProp;
    match n
    case Paren(inner) => StripExprIff(inner, names);
    case Prefix(_, operand) => StripExprIff(operand, names);
    case Binary(_, left, right) =>
      StripExprIff(left, names);
      StripExprIff(right, names);
    case Prop(obj, prop) => StripProp(obj, prop, names);
    case Call(callee, args) =>
      StripTwice(callee);
      if |args| == 2 {
        StripExprIff(args[0], names);
        StripExprIff(args[1], names);
      }
    case _ =>
  }

  lemma {:induction false} StripTermIff(n: Node, names: Names)
    ensures CompileTerm(n, names).Ok? <==> CompileTerm(Strip(n), names).Ok? && !NameInParens(n)
    ensures Strip(n).NullLit? ==> CompileTerm(Strip(n), names).Ok?
    ensures Strip(n).Ident? ==> CompileTerm(Strip(n), names).Err?
    ensures n.NullLit? || n.Ident? ==> Strip(n) == n
  {
    if n.Paren? { StripTermIff(n.inner, names); }
  }

  /** `regex` takes its arguments as they are written: none of those it accepts has parentheses to lose. */
  lemma StripRegexIff(args: seq<Node>, names: Names)
    ensures var stripped := seq(|args|, i requires 0 <= i < |args| => Strip(args[i]));
      CompileRegex(args, names).Ok? <==> CompileRegex(stripped, names).Ok? && stripped == args
  {
    assert Strip(Ident("Key")) == Ident("Key") && Strip(Ident("P")) == Ident("P");
  }

  lemma StripComparisonIff(cmp: CmpOp, left: Node, right: Node, names: Names)
    ensures var orders := cmp != CmpEq && cmp != CmpNe && (Strip(left).NullLit? || Strip(right).NullLit?);
      var blocked := NameInParens(left) || NameInParens(right);
      && (CompileComparison(cmp, left, right, names).Ok? ==> !blocked)
      && (CompileComparison(cmp, Strip(left), Strip(right), names).Ok? ==> !orders)
      && (!orders && !blocked ==> CompileComparison(cmp, left, right, names).Ok? == CompileComparison(cmp, Strip(left), Strip(right), names).Ok?)
  {
    StripTermIff(left, names);
    StripTermIff(right, names);
    hide CompileTerm, Strip, NameInParens;
  }

  /**
   With and without its parentheses, a predicate is accepted alike, up to two exceptions: what
   orders against null is accepted only with them (`Key.x < (null)`), and what has them around a
   name or in an argument of `regex` only without (`(Key).x < 1`, `regex((Key.x), "p")`).
   */
  lemma {:induction false} StripAcceptedIff(n: Node, names: Names)
    ensures CompilePred(n, names).Ok? ==> (CompilePred(Strip(n), names).Ok? <==> !OrdersNull(n))
    ensures CompilePred(Strip(n), names).Ok? ==> (CompilePred(n, names).Ok? <==> !ParenBlocks(n))
  {
    hide CompileComparison, CompileRegex, NameInParens;
    match n
    case Paren(inner) => StripAcceptedIff(inner, names);
    case Prefix(_, operand) => StripAcceptedIff(operand, names);
    case Binary(op, left, right) =>
      if op == AndAnd || op == OrOr {
        StripAcceptedIff(left, names);
        StripAcceptedIff(right, names);
      } else if CmpOf(op).Some? {
        StripComparisonIff(CmpOf(op).value, left, right, names);
      }
    case Call(callee, args) =>
      StripTwice(callee);
      StripRegexIff(args, names);
    case _ =>
  }

  lemma ParenthesesReachNull(names: Names)
    requires "x" in names.keys
    ensures var x := Prop(Ident("Key"), "x");
      && CompilePred(Binary(Lt, x, NullLit), names).Err?
      && CompilePred(Binary(Lt, x, Paren(NullLit)), names) == Ok(Cmp(CmpLt, KeyRef(names.keys["x"]), ConstNull))
  {
    var x := Prop(Ident("Key"), "x");
    assert CompileTerm(x, names) == Ok(KeyRef(names.keys["x"]));
    assert CompileTerm(Paren(NullLit), names) == CompileTerm(NullLit, names);
    assert CompileComparison(CmpLt, x, Paren(NullLit), names) == Ok(Cmp(CmpLt, KeyRef(names.keys["x"]), ConstNull));
    hide CompileComparison;
  }

  lemma ParenthesesReachRegex(names: Names)
    requires "x" in names.keys
    ensures var x, p := Prop(Ident("Key"), "x"), StrLit("p");
      && CompilePred(Call(Ident("regex"), [Paren(x), p]), names).Err?
      && CompilePred(Call(Ident("regex"), [x, p]), names) == Ok(Regex(names.keys["x"], Literal("p"), ""))
  {
  }

  lemma {:induction false} StripMeans(n: Node, names: Names, b: Batch, row: nat, ctx: Ctx)
    requires BatchOk(b) && row < |b.ids| && CompilePred(n, names).Ok?
    ensures SourcePred(Strip(n), names, b, row, ctx) == SourcePred(n, names, b, row, ctx)
  {
    match n
    case Paren(inner) => StripMeans(inner, names, b, row, ctx);
    case Prefix(_, operand) => StripMeans(operand, names, b, row, ctx);
    case Binary(op, left, right) =>
      if op == AndAnd || op == OrOr {
        StripMeans(left, names, b, row, ctx);
        StripMeans(right, names, b, row, ctx);
      } else {
        StripNumber(left, names, b, row, ctx);
        StripNumber(right, names, b, row, ctx);
        StripTwice(left);
        StripTwice(right);
      }
    case Call(_, args) => StripRegexIff(args, names);
    case _ =>
  }

  /** With or without parentheses, a predicate that is accepted both ways evaluates the same on every row. */
  lemma ParenthesesTransparent(n: Node, names: Names, b: Batch, row: nat, ctx: Ctx)
    requires BatchOk(b) && row < |b.ids|
    requires CompilePred(n, names).Ok? && CompilePred(Strip(n), names).Ok?
    ensures EvalPred(CompilePred(Strip(n), names).value, b, row, ctx) == EvalPred(CompilePred(n, names).value, b, row, ctx)
  {
    CompiledPredMeans(n, names, b, row, ctx);
    CompiledPredMeans(Strip(n), names, b, row, ctx);
    StripMeans(n, names, b, row, ctx);
  }
}
