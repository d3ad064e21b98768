/** Symbolic expressions and their meaning. */
module Expressions {

  datatype Type = FloatType | BoolType

  datatype Unary = Neg | Exp | Log | Tanh | Sigmoid | Relu | Abs
  datatype Binary = Add | Sub | Mul | Div | MaxOp | MinOp
  datatype Compare = Lt | Le | Gt | Ge | Eq | Ne
  datatype Logic = AndOp | OrOp

  datatype Expr =
    | Const(value: real)
    | Flag(flag: bool)
    | Var(name: string)
    | Un(un: Unary, arg: Expr)
    | Bin(bin: Binary, left: Expr, right: Expr)
    | Cmp(cmp: Compare, left: Expr, right: Expr)
    | Log2(logic: Logic, left: Expr, right: Expr)
    | Not(arg: Expr)
    | Where(cond: Expr, left: Expr, right: Expr)

  /** The type the builders give an expression, or nothing when they would refuse it. Variables are float. */
  function TypeOf(e: Expr): (t: (bool, Type)) {
    match e
    case Const(_) => (true, FloatType)
    case Flag(_) => (true, BoolType)
    case Var(_) => (true, FloatType)
    case Un(_, a) => (TypeOf(a) == (true, FloatType), FloatType)
    case Bin(_, a, b) => (TypeOf(a) == (true, FloatType) && TypeOf(b) == (true, FloatType), FloatType)
    case Cmp(_, a, b) => (TypeOf(a) == (true, FloatType) && TypeOf(b) == (true, FloatType), BoolType)
    case Log2(_, a, b) => (TypeOf(a) == (true, BoolType) && TypeOf(b) == (true, BoolType), BoolType)
    case Not(a) => (TypeOf(a) == (true, BoolType), BoolType)
    case Where(c, a, b) => (TypeOf(c) == (true, BoolType) && TypeOf(a).0 && TypeOf(b) == TypeOf(a), TypeOf(a).1)
  }

  predicate IsFloat(e: Expr) { TypeOf(e) == (true, FloatType) }

  predicate IsBool(e: Expr) { TypeOf(e) == (true, BoolType) }

  /** The real functions an expression may call; division is one of them, so that it is total. */
  datatype Functions = Functions(exp: real -> real, log: real -> real, tanh: real -> real, div: (real, real) -> real)

  datatype Value = F(r: real) | B(b: bool)

  type Env = string -> real

  function Real(v: Value): real {
    if v.F? then v.r else if v.b then 1.0 else 0.0
  }

  function Truth(v: Value): bool {
    if v.B? then v.b else v.r != 0.0
  }

  function ApplyUnary(f: Functions, op: Unary, x: real): real {
    match op
    case Neg => -x
    case Exp => f.exp(x)
    case Log => f.log(x)
    case Tanh => f.tanh(x)
    case Sigmoid => f.div(1.0, 1.0 + f.exp(-x))
    case Relu => if x < 0.0 then 0.0 else x
    case Abs => if x < 0.0 then -x else x
  }

  function ApplyBinary(f: Functions, op: Binary, x: real, y: real): real {
    match op
    case Add => x + y
    case Sub => x - y
    case Mul => x * y
    case Div => f.div(x, y)
    case MaxOp => if x < y then y else x
    case MinOp => if y < x then y else x
  }

  predicate ApplyCompare(op: Compare, x: real, y: real) {
    match op
    case Lt => x < y
    case Le => x <= y
    case Gt => x > y
    case Ge => x >= y
    case Eq => x == y
    case Ne => x != y
  }

  predicate ApplyLogic(op: Logic, x: bool, y: bool) {
    match op
    case AndOp => x && y
    case OrOp => x || y
  }

  /** The meaning of an expression in an environment. */
  function Evaluate(f: Functions, e: Expr, env: Env): Value {
    match e
    case Const(r) => F(r)
    case Flag(b) => B(b)
    case Var(name) => F(env(name))
    case Un(op, a) => F(ApplyUnary(f, op, Real(Evaluate(f, a, env))))
    case Bin(op, a, b) => F(ApplyBinary(f, op, Real(Evaluate(f, a, env)), Real(Evaluate(f, b, env))))
    case Cmp(op, a, b) => B(ApplyCompare(op, Real(Evaluate(f, a, env)), Real(Evaluate(f, b, env))))
    case Log2(op, a, b) => B(ApplyLogic(op, Truth(Evaluate(f, a, env)), Truth(Evaluate(f, b, env))))
    case Not(a) => B(!Truth(Evaluate(f, a, env)))
    case Where(c, a, b) => if Truth(Evaluate(f, c, env)) then Evaluate(f, a, env) else Evaluate(f, b, env)
  }

  function Variables(e: Expr): set<string> {
    match e
    case Const(_) => {}
    case Flag(_) => {}
    case Var(name) => {name}
    case Un(_, a) => Variables(a)
    case Bin(_, a, b) => Variables(a) + Variables(b)
    case Cmp(_, a, b) => Variables(a) + Variables(b)
    case Log2(_, a, b) => Variables(a) + Variables(b)
    case Not(a) => Variables(a)
    case Where(c, a, b) => Variables(c) + Variables(a) + Variables(b)
  }

  /** Well-typed expressions evaluate to values of their type. */
  lemma {:induction false} WellTyped(f: Functions, e: Expr, env: Env)
    requires TypeOf(e).0
    ensures Evaluate(f, e, env).F? <==> TypeOf(e).1.FloatType?
  {
    match e
    case Where(c, a, b) =>
      WellTyped(f, a, env);
      WellTyped(f, b, env);
    case _ =>
  }

  /** Only an expression's own variables matter. */
  lemma {:induction false} SameVariables(f: Functions, e: Expr, env: Env, env': Env)
    requires forall name :: name in Variables(e) ==> env(name) == env'(name)
    ensures Evaluate(f, e, env) == Evaluate(f, e, env')
  {
    match e
    case Const(_) =>
    case Flag(_) =>
    case Var(name) => assert name in Variables(e);
    case Un(_, a) => SameVariables(f, a, env, env');
    case Bin(_, a, b) => SameVariables(f, a, env, env'); SameVariables(f, b, env, env');
    case Cmp(_, a, b) => SameVariables(f, a, env, env'); SameVariables(f, b, env, env');
    case Log2(_, a, b) => SameVariables(f, a, env, env'); SameVariables(f, b, env, env');
    case Not(a) => SameVariables(f, a, env, env');
    case Where(c, a, b) =>
      SameVariables(f, c, env, env');
      SameVariables(f, a, env, env');
      SameVariables(f, b, env, env');
  }

  // ---- Causal masks ------------------------------------------------------------

  /** Whether a mask structurally guarantees key_index <= query_index. */
  predicate ImpliesCausality(e: Expr) {
    match e
    case Log2(AndOp, a, b) => ImpliesCausality(a) || ImpliesCausality(b)
    case Cmp(Le, Var(x), Var(y)) => x == "key_index" && y == "query_index"
    case Cmp(Ge, Var(x), Var(y)) => y == "key_index" && x == "query_index"
    case _ => false
  }

  /** The expressions a conjunction joins. */
  function Conjuncts(e: Expr): set<Expr> {
    match e
    case Log2(AndOp, a, b) => Conjuncts(a) + Conjuncts(b)
    case _ => {e}
  }

  /** A mask is accepted exactly when one of its conjuncts compares the two indices, in either spelling. */
  lemma {:induction false} CausalMasks(e: Expr)
    ensures ImpliesCausality(e) <==>
      (Cmp(Le, Var("key_index"), Var("query_index")) in Conjuncts(e)
       || Cmp(Ge, Var("query_index"), Var("key_index")) in Conjuncts(e))
  {
    match e
    case Log2(AndOp, a, b) =>
      CausalMasks(a);
      CausalMasks(b);
    case _ =>
  }

  /** An accepted mask is false at every key past the query. */
  lemma {:induction false} CausalMaskSound(f: Functions, e: Expr, env: Env)
    requires ImpliesCausality(e) && Truth(Evaluate(f, e, env))
    ensures env("key_index") <= env("query_index")
  {
    match e
    case Log2(AndOp, a, b) =>
      if ImpliesCausality(a) { CausalMaskSound(f, a, env); } else { CausalMaskSound(f, b, env); }
    case Cmp(Le, Var(x), Var(y)) =>
      assert Evaluate(f, e.left, env) == F(env("key_index")) && Evaluate(f, e.right, env) == F(env("query_index"));
    case Cmp(Ge, Var(x), Var(y)) =>
      assert Evaluate(f, e.right, env) == F(env("key_index")) && Evaluate(f, e.left, env) == F(env("query_index"));
  }
}
