/** Lowering an expression to scalar C and to vector code. */
module Lowering {
  import opened Vectors
  import opened Softmax
  import opened Expressions

  // ---- Scalar C ----------------------------------------------------------------

  datatype COp =
    | Plus | Minus | Multiply | Divide | Less | LessEq | Greater | GreaterEq | Equal | NotEqual | AndAnd | OrOr
  datatype CCall = Expf | Logf | Tanhf | Fabsf
  datatype CCall2 = Fmaxf | Fminf

  /** The C expressions the emitter produces; an access stands for the text bound to a variable. */
  datatype CExpr =
    | Literal(value: real)
    | IntLiteral(n: int)
    | Access(name: string)
    | Infix(op: COp, left: CExpr, right: CExpr)
    | Minus1(arg: CExpr)
    | Bang(arg: CExpr)
    | Call(fn: CCall, arg: CExpr)
    | Call2(fn2: CCall2, left: CExpr, right: CExpr)
    | Ternary(cond: CExpr, left: CExpr, right: CExpr)

  function InfixOf(op: Binary): COp
    requires op.Add? || op.Sub? || op.Mul? || op.Div?
  {
    match op case Add => Plus case Sub => Minus case Mul => Multiply case Div => Divide
  }

  function CompareOf(op: Compare): COp {
    match op
    case Lt => Less case Le => LessEq case Gt => Greater case Ge => GreaterEq case Eq => Equal case Ne => NotEqual
  }

  function Emit(e: Expr): CExpr {
    match e
    case Const(r) => Literal(r)
    case Flag(b) => IntLiteral(if b then 1 else 0)
    case Var(name) => Access(name)
    case Un(Neg, a) => Minus1(Emit(a))
    case Un(Exp, a) => Call(Expf, Emit(a))
    case Un(Log, a) => Call(Logf, Emit(a))
    case Un(Tanh, a) => Call(Tanhf, Emit(a))
    case Un(Sigmoid, a) => Infix(Divide, Literal(1.0), Infix(Plus, Literal(1.0), Call(Expf, Minus1(Emit(a)))))
    case Un(Relu, a) => Call2(Fmaxf, Emit(a), Literal(0.0))
    case Un(Abs, a) => Call(Fabsf, Emit(a))
    case Bin(MaxOp, a, b) => Call2(Fmaxf, Emit(a), Emit(b))
    case Bin(MinOp, a, b) => Call2(Fminf, Emit(a), Emit(b))
    case Bin(op, a, b) => Infix(InfixOf(op), Emit(a), Emit(b))
    case Cmp(op, a, b) => Infix(CompareOf(op), Emit(a), Emit(b))
    case Log2(AndOp, a, b) => Infix(AndAnd, Emit(a), Emit(b))
    case Log2(OrOp, a, b) => Infix(OrOr, Emit(a), Emit(b))
    case Not(a) => Bang(Emit(a))
    case Where(c, a, b) => Ternary(Emit(c), Emit(a), Emit(b))
  }

  /** A C value: a float, or the int that a truth value is. */
  datatype CValue = CFloat(r: real) | CInt(n: int)

  function AsFloat(v: CValue): real {
    if v.CFloat? then v.r else v.n as real
  }

  function NonZero(v: CValue): bool {
    if v.CFloat? then v.r != 0.0 else v.n != 0
  }

  function FromBool(b: bool): CValue { CInt(if b then 1 else 0) }

  function RunInfix(f: Functions, op: COp, x: CValue, y: CValue): CValue {
    match op
    case Plus => CFloat(AsFloat(x) + AsFloat(y))
    case Minus => CFloat(AsFloat(x) - AsFloat(y))
    case Multiply => CFloat(AsFloat(x) * AsFloat(y))
    case Divide => CFloat(f.div(AsFloat(x), AsFloat(y)))
    case Less => FromBool(AsFloat(x) < AsFloat(y))
    case LessEq => FromBool(AsFloat(x) <= AsFloat(y))
    case Greater => FromBool(AsFloat(x) > AsFloat(y))
    case GreaterEq => FromBool(AsFloat(x) >= AsFloat(y))
    case Equal => FromBool(AsFloat(x) == AsFloat(y))
    case NotEqual => FromBool(AsFloat(x) != AsFloat(y))
    case AndAnd => FromBool(NonZero(x) && NonZero(y))
    case OrOr => FromBool(NonZero(x) || NonZero(y))
  }

  function Run(f: Functions, c: CExpr, env: Env): CValue {
    match c
    case Literal(r) => CFloat(r)
    case IntLiteral(n) => CInt(n)
    case Access(name) => CFloat(env(name))
    case Infix(op, a, b) => RunInfix(f, op, Run(f, a, env), Run(f, b, env))
    case Minus1(a) => CFloat(-AsFloat(Run(f, a, env)))
    case Bang(a) => FromBool(!NonZero(Run(f, a, env)))
    case Call(fn, a) =>
      var x := AsFloat(Run(f, a, env));
      CFloat(
        match fn
        case Expf => f.exp(x) case Logf => f.log(x) case Tanhf => f.tanh(x)
        case Fabsf => if x < 0.0 then -x else x)
    case Call2(fn, a, b) =>
      var x, y := AsFloat(Run(f, a, env)), AsFloat(Run(f, b, env));
      CFloat(match fn case Fmaxf => if x < y then y else x case Fminf => if y < x then y else x)
    case Ternary(t, a, b) => if NonZero(Run(f, t, env)) then Run(f, a, env) else Run(f, b, env)
  }

  /** The C value that stands for an expression value. */
  function Encode(v: Value): CValue {
    if v.F? then CFloat(v.r) else FromBool(v.b)
  }

  lemma EmitUnaryMeans(f: Functions, op: Unary, a: Expr, env: Env, x: real)
    requires Run(f, Emit(a), env) == CFloat(x)
    ensures Run(f, Emit(Un(op, a)), env) == CFloat(ApplyUnary(f, op, x))
  {
    if op == Sigmoid {
      var negated := Minus1(Emit(a));
      assert Run(f, negated, env) == CFloat(-x);
      assert Run(f, Call(Expf, negated), env) == CFloat(f.exp(-x));
      assert Run(f, Infix(Plus, Literal(1.0), Call(Expf, negated)), env) == CFloat(1.0 + f.exp(-x));
    }
  }

  lemma EmitBinaryMeans(f: Functions, op: Binary, a: Expr, b: Expr, env: Env, x: real, y: real)
    requires Run(f, Emit(a), env) == CFloat(x) && Run(f, Emit(b), env) == CFloat(y)
    ensures Run(f, Emit(Bin(op, a, b)), env) == CFloat(ApplyBinary(f, op, x, y))
  {
    if op == MaxOp || op == MinOp {
      assert Emit(Bin(op, a, b)) == Call2(if op == MaxOp then Fmaxf else Fminf, Emit(a), Emit(b));
    } else {
      assert Emit(Bin(op, a, b)) == Infix(InfixOf(op), Emit(a), Emit(b));
    }
  }

  lemma EmitCompareMeans(f: Functions, op: Compare, a: Expr, b: Expr, env: Env, x: real, y: real)
    requires Run(f, Emit(a), env) == CFloat(x) && Run(f, Emit(b), env) == CFloat(y)
    ensures Run(f, Emit(Cmp(op, a, b)), env) == FromBool(ApplyCompare(op, x, y))
  {
  }

  /** Scalar lowering preserves meaning. */
  lemma {:induction false} EmitMeans(f: Functions, e: Expr, env: Env)
    requires TypeOf(e).0
    ensures Run(f, Emit(e), env) == Encode(Evaluate(f, e, env))
  {
    match e
    case Const(_) =>
    case Flag(_) =>
    case Var(_) =>
    case Un(op, a) =>
      EmitMeans(f, a, env);
      WellTyped(f, a, env);
      EmitUnaryMeans(f, op, a, env, Evaluate(f, a, env).r);
    case Bin(op, a, b) =>
      EmitMeans(f, a, env); EmitMeans(f, b, env);
      WellTyped(f, a, env); WellTyped(f, b, env);
      EmitBinaryMeans(f, op, a, b, env, Evaluate(f, a, env).r, Evaluate(f, b, env).r);
    case Cmp(op, a, b) =>
      EmitMeans(f, a, env); EmitMeans(f, b, env);
      WellTyped(f, a, env); WellTyped(f, b, env);
      EmitCompareMeans(f, op, a, b, env, Evaluate(f, a, env).r, Evaluate(f, b, env).r);
    case Log2(_, a, b) =>
      EmitMeans(f, a, env); EmitMeans(f, b, env);
      WellTyped(f, a, env); WellTyped(f, b, env);
    case Not(a) =>
      EmitMeans(f, a, env);
      WellTyped(f, a, env);
    case Where(c, a, b) =>
      EmitMeans(f, c, env); EmitMeans(f, a, env); EmitMeans(f, b, env);
      WellTyped(f, c, env);
  }

  // ---- Vector code -------------------------------------------------------------

  datatype VOp = VAdd | VSub | VMul | VDiv | VMax | VMin
  datatype VCompare = VLt | VLe | VGt | VGe | VEq | VNe
  datatype VCall = VExp | VLog | VAbs

  /** The primitive vector operations; the derived ones (neg, sigmoid, tanh, relu, constant masks) expand to them. */
  datatype VExpr =
    | Set1(value: real)
    | VAccess(name: string)
    | VBin(op: VOp, left: VExpr, right: VExpr)
    | VCmp(cmp: VCompare, left: VExpr, right: VExpr)
    | VFn(fn: VCall, arg: VExpr)
    | MaskAnd(left: VExpr, right: VExpr)
    | MaskOr(left: VExpr, right: VExpr)
    | MaskNot(arg: VExpr)
    | Select(mask: VExpr, left: VExpr, right: VExpr)

  function VNeg(a: VExpr): VExpr { VBin(VSub, Set1(0.0), a) }

  function VSigmoid(a: VExpr): VExpr {
    VBin(VDiv, Set1(1.0), VBin(VAdd, Set1(1.0), VFn(VExp, VNeg(a))))
  }

  function VTanh(a: VExpr): VExpr {
    VBin(VSub, VBin(VMul, Set1(2.0), VSigmoid(VBin(VMul, Set1(2.0), a))), Set1(1.0))
  }

  function EmitVectorUnary(op: Unary, v: VExpr): VExpr {
    match op
    case Neg => VNeg(v)
    case Exp => VFn(VExp, v)
    case Log => VFn(VLog, v)
    case Tanh => VTanh(v)
    case Sigmoid => VSigmoid(v)
    case Relu => VBin(VMax, v, Set1(0.0))
    case Abs => VFn(VAbs, v)
  }

  function VOpOf(op: Binary): VOp {
    match op case Add => VAdd case Sub => VSub case Mul => VMul case Div => VDiv case MaxOp => VMax case MinOp => VMin
  }

  function VCompareOf(op: Compare): VCompare {
    match op case Lt => VLt case Le => VLe case Gt => VGt case Ge => VGe case Eq => VEq case Ne => VNe
  }

  function EmitVector(e: Expr): VExpr {
    match e
    case Const(r) => Set1(r)
    case Flag(b) => VCmp(if b then VEq else VNe, Set1(0.0), Set1(0.0))
    case Var(name) => VAccess(name)
    case Un(op, a) => EmitVectorUnary(op, EmitVector(a))
    case Bin(op, a, b) => VBin(VOpOf(op), EmitVector(a), EmitVector(b))
    case Cmp(op, a, b) => VCmp(VCompareOf(op), EmitVector(a), EmitVector(b))
    case Log2(AndOp, a, b) => MaskAnd(EmitVector(a), EmitVector(b))
    case Log2(OrOp, a, b) => MaskOr(EmitVector(a), EmitVector(b))
    case Not(a) => MaskNot(EmitVector(a))
    case Where(c, a, b) => Select(EmitVector(c), EmitVector(a), EmitVector(b))
  }

  /** A vector register or a lane mask. */
  datatype Register = Vector(lanes: seq<real>) | Mask(bits: seq<bool>)

  predicate IsVector(r: Register, lanes: nat) { r.Vector? && |r.lanes| == lanes }

  predicate IsMask(r: Register, lanes: nat) { r.Mask? && |r.bits| == lanes }

  function LaneBin(f: Functions, op: VOp, x: real, y: real): real {
    match op
    case VAdd => x + y
    case VSub => x - y
    case VMul => x * y
    case VDiv => f.div(x, y)
    case VMax => if x < y then y else x
    case VMin => if y < x then y else x
  }

  predicate LaneCmp(op: VCompare, x: real, y: real) {
    match op
    case VLt => x < y
    case VLe => x <= y
    case VGt => x > y
    case VGe => x >= y
    case VEq => x == y
    case VNe => x != y
  }

  function LaneFn(f: Functions, fn: VCall, x: real): real {
    match fn case VExp => f.exp(x) case VLog => f.log(x) case VAbs => if x < 0.0 then -x else x
  }

  /** Lane i of a register, zero where the register has no such lane. */
  function LaneOf(r: Register, i: nat): real {
    if r.Vector? && i < |r.lanes| then r.lanes[i] else 0.0
  }

  predicate BitOf(r: Register, i: nat) {
    r.Mask? && i < |r.bits| && r.bits[i]
  }

  type VEnv = string -> seq<real>

  function RunVector(f: Functions, v: VExpr, env: VEnv, lanes: nat): Register {
    match v
    case Set1(x) => Vector(seq(lanes, i => x))
    case VAccess(name) => Vector(env(name))
    case VBin(op, a, b) =>
      var x, y := RunVector(f, a, env, lanes), RunVector(f, b, env, lanes);
      Vector(seq(lanes, i requires 0 <= i < lanes => LaneBin(f, op, LaneOf(x, i), LaneOf(y, i))))
    case VCmp(op, a, b) =>
      var x, y := RunVector(f, a, env, lanes), RunVector(f, b, env, lanes);
      Mask(seq(lanes, i requires 0 <= i < lanes => LaneCmp(op, LaneOf(x, i), LaneOf(y, i))))
    case VFn(fn, a) =>
      var x := RunVector(f, a, env, lanes);
      Vector(seq(lanes, i requires 0 <= i < lanes => LaneFn(f, fn, LaneOf(x, i))))
    case MaskAnd(a, b) =>
      var x, y := RunVector(f, a, env, lanes), RunVector(f, b, env, lanes);
      Mask(seq(lanes, i requires 0 <= i < lanes => BitOf(x, i) && BitOf(y, i)))
    case MaskOr(a, b) =>
      var x, y := RunVector(f, a, env, lanes), RunVector(f, b, env, lanes);
      Mask(seq(lanes, i requires 0 <= i < lanes => BitOf(x, i) || BitOf(y, i)))
    case MaskNot(a) =>
      var x := RunVector(f, a, env, lanes);
      Mask(seq(lanes, i requires 0 <= i < lanes => !BitOf(x, i)))
    case Select(m, a, b) =>
      var c, x, y := RunVector(f, m, env, lanes), RunVector(f, a, env, lanes), RunVector(f, b, env, lanes);
      if x.Mask? then Mask(seq(lanes, i requires 0 <= i < lanes => if BitOf(c, i) then BitOf(x, i) else BitOf(y, i)))
      else Vector(seq(lanes, i requires 0 <= i < lanes => if BitOf(c, i) then LaneOf(x, i) else LaneOf(y, i)))
  }

  /** Every selection in the expression is between floats. */
  predicate FloatBranches(e: Expr) {
    match e
    case Const(_) => true
    case Flag(_) => true
    case Var(_) => true
    case Un(_, a) => FloatBranches(a)
    case Bin(_, a, b) => FloatBranches(a) && FloatBranches(b)
    case Cmp(_, a, b) => FloatBranches(a) && FloatBranches(b)
    case Log2(_, a, b) => FloatBranches(a) && FloatBranches(b)
    case Not(a) => FloatBranches(a)
    case Where(c, a, b) => TypeOf(a).1.FloatType? && FloatBranches(c) && FloatBranches(a) && FloatBranches(b)
  }

  /** The C type of a vector expression on an instruction set whose masks have a type of their own, or nothing where
      an operation is handed the wrong one. */
  datatype VKind = FloatVector | LaneMask | NoKind

  function Expecting(ok: bool, kind: VKind): VKind { if ok then kind else NoKind }

  function KindOf(v: VExpr): VKind {
    match v
    case Set1(_) => FloatVector
    case VAccess(_) => FloatVector
    case VBin(_, a, b) => Expecting(KindOf(a).FloatVector? && KindOf(b).FloatVector?, FloatVector)
    case VCmp(_, a, b) => Expecting(KindOf(a).FloatVector? && KindOf(b).FloatVector?, LaneMask)
    case VFn(_, a) => Expecting(KindOf(a).FloatVector?, FloatVector)
    case MaskAnd(a, b) => Expecting(KindOf(a).LaneMask? && KindOf(b).LaneMask?, LaneMask)
    case MaskOr(a, b) => Expecting(KindOf(a).LaneMask? && KindOf(b).LaneMask?, LaneMask)
    case MaskNot(a) => Expecting(KindOf(a).LaneMask?, LaneMask)
    case Select(m, a, b) =>
      Expecting(KindOf(m).LaneMask? && KindOf(a).FloatVector? && KindOf(b).FloatVector?, FloatVector)
  }

  /** There the vector form of a well-typed expression is well-typed C exactly when no selection is between truth
      values: the select takes float vectors only. */
  lemma {:induction false} VectorCompiles(e: Expr)
    requires TypeOf(e).0
    ensures FloatBranches(e) ==> KindOf(EmitVector(e)) == if TypeOf(e).1.FloatType? then FloatVector else LaneMask
    ensures !FloatBranches(e) ==> KindOf(EmitVector(e)).NoKind?
  {
    match e
    case Const(_) =>
    case Flag(_) =>
    case Var(_) =>
    case Un(op, a) => VectorCompiles(a); UnaryKind(op, EmitVector(a));
    case Bin(_, a, b) => VectorCompiles(a); VectorCompiles(b);
    case Cmp(_, a, b) => VectorCompiles(a); VectorCompiles(b);
    case Log2(_, a, b) => VectorCompiles(a); VectorCompiles(b);
    case Not(a) => VectorCompiles(a);
    case Where(c, a, b) => VectorCompiles(c); VectorCompiles(a); VectorCompiles(b);
  }

  /** Derived operations are typed as the primitive ones are. */
  lemma UnaryKind(op: Unary, v: VExpr)
    ensures KindOf(EmitVectorUnary(op, v)) == Expecting(KindOf(v).FloatVector?, FloatVector)
  {
    SigmoidKind(v);
    var doubled := VBin(VMul, Set1(2.0), v);
    assert KindOf(doubled) == Expecting(KindOf(v).FloatVector?, FloatVector);
    SigmoidKind(doubled);
    assert KindOf(VBin(VMul, Set1(2.0), VSigmoid(doubled))) == KindOf(doubled);
    assert KindOf(VTanh(v)) == KindOf(doubled);
  }

  lemma SigmoidKind(v: VExpr)
    ensures KindOf(VSigmoid(v)) == Expecting(KindOf(v).FloatVector?, FloatVector)
  {
    var e := VFn(VExp, VNeg(v));
    assert KindOf(VNeg(v)) == Expecting(KindOf(v).FloatVector?, FloatVector);
    assert KindOf(e) == KindOf(VNeg(v));
    assert KindOf(VBin(VAdd, Set1(1.0), e)) == KindOf(e);
  }

  /** The functions are the real ones: division, an exponential, and its hyperbolic tangent. */
  ghost predicate RealMath(f: Functions) {
    && IsExp(f.exp)
    && (forall x, y :: y != 0.0 ==> f.div(x, y) == x / y)
    && forall x :: f.tanh(x) == (f.exp(x) - f.exp(-x)) / (f.exp(x) + f.exp(-x))
  }

  /** With a b = 1, (a - b) / (a + b) is what the expansion computes from b squared. */
  lemma TanhOfProducts(a: real, b: real, c: real, t: real, s: real)
    requires a > 0.0 && b > 0.0 && c > 0.0 && Times(a, b) == 1.0 && c == Times(b, b)
    requires t == (a - b) / (a + b) && s == 1.0 / (1.0 + c)
    ensures t == 2.0 * s - 1.0
  {
    assert t * (a + b) == a - b && s * (1.0 + c) == 1.0;
    assert t * (1.0 + c) == 1.0 - c by {
      assert t * (a + b) * b == (a - b) * b;
      assert t * (a + b) * b == t * (a * b + b * b);
      assert (a - b) * b == a * b - b * b;
    }
    assert (t - (2.0 * s - 1.0)) * (1.0 + c) == 0.0;
  }

  /** The expansion of tanh through the sigmoid is tanh. */
  lemma TanhBySigmoid(f: Functions, x: real)
    requires RealMath(f)
    ensures f.tanh(x) == 2.0 * f.div(1.0, 1.0 + f.exp(-(2.0 * x))) - 1.0
  {
    hide *;
    MathHasExp(f);
    ExpFacts(f.exp, x);
    MathAt(f, x);
    TanhOfProducts(f.exp(x), f.exp(-x), f.exp(-(2.0 * x)), f.tanh(x), f.div(1.0, 1.0 + f.exp(-(2.0 * x))));
  }

  /** The exponentials the expansion meets. */
  lemma ExpFacts(e: real -> real, x: real)
    requires IsExp(e)
    ensures e(x) > 0.0 && e(-x) > 0.0 && e(-(2.0 * x)) > 0.0
    ensures Times(e(x), e(-x)) == 1.0 && e(-(2.0 * x)) == Times(e(-x), e(-x))
  {
    hide IsExp;
    ExpPositive(e, x);
    ExpPositive(e, -x);
    ExpPositive(e, -(2.0 * x));
    ExpAdd(e, x, -x);
    ExpAdd(e, -x, -x);
    ExpZero(e);
    assert -x + -x == -(2.0 * x) && x + -x == 0.0;
  }

  lemma MathHasExp(f: Functions)
    requires RealMath(f)
    ensures IsExp(f.exp)
  {
    hide IsExp;
  }

  /** The quotients the expansion meets. */
  lemma MathAt(f: Functions, x: real)
    requires RealMath(f) && f.exp(x) > 0.0 && f.exp(-x) > 0.0 && f.exp(-(2.0 * x)) > 0.0
    ensures f.tanh(x) == (f.exp(x) - f.exp(-x)) / (f.exp(x) + f.exp(-x))
    ensures f.div(1.0, 1.0 + f.exp(-(2.0 * x))) == 1.0 / (1.0 + f.exp(-(2.0 * x)))
  {
    hide IsExp;
  }

  lemma ExpZero(e: real -> real)
    requires IsExp(e)
    ensures e(0.0) == 1.0
  {
  }

  /** The scalar environment of one lane. */
  function LaneEnv(env: VEnv, i: nat): Env {
    name => if i < |env(name)| then env(name)[i] else 0.0
  }

  ghost predicate LanesReady(e: Expr, env: VEnv, lanes: nat) {
    forall name :: name in Variables(e) ==> |env(name)| == lanes
  }

  /** What register stands for a value in every lane. */
  ghost predicate LaneMeans(r: Register, lanes: nat, i: nat, v: Value) {
    if v.F? then IsVector(r, lanes) && i < lanes && r.lanes[i] == v.r
    else IsMask(r, lanes) && i < lanes && r.bits[i] == v.b
  }

  /** A sub-expression's register, in one lane. */
  lemma NegLane(f: Functions, v: VExpr, env: VEnv, lanes: nat, i: nat, x: real)
    requires LaneMeans(RunVector(f, v, env, lanes), lanes, i, F(x))
    ensures LaneMeans(RunVector(f, VNeg(v), env, lanes), lanes, i, F(-x))
  {
  }

  lemma BinLane(f: Functions, op: VOp, v: VExpr, w: VExpr, env: VEnv, lanes: nat, i: nat, x: real, y: real)
    requires LaneMeans(RunVector(f, v, env, lanes), lanes, i, F(x))
    requires LaneMeans(RunVector(f, w, env, lanes), lanes, i, F(y))
    ensures LaneMeans(RunVector(f, VBin(op, v, w), env, lanes), lanes, i, F(LaneBin(f, op, x, y)))
  {
  }

  lemma FnLane(f: Functions, fn: VCall, v: VExpr, env: VEnv, lanes: nat, i: nat, x: real)
    requires LaneMeans(RunVector(f, v, env, lanes), lanes, i, F(x))
    ensures LaneMeans(RunVector(f, VFn(fn, v), env, lanes), lanes, i, F(LaneFn(f, fn, x)))
  {
  }

  lemma ConstantLane(f: Functions, x: real, env: VEnv, lanes: nat, i: nat)
    requires i < lanes
    ensures LaneMeans(RunVector(f, Set1(x), env, lanes), lanes, i, F(x))
  {
  }

  lemma SigmoidLane(f: Functions, v: VExpr, env: VEnv, lanes: nat, i: nat, x: real)
    requires i < lanes && LaneMeans(RunVector(f, v, env, lanes), lanes, i, F(x))
    ensures LaneMeans(RunVector(f, VSigmoid(v), env, lanes), lanes, i, F(f.div(1.0, 1.0 + f.exp(-x))))
  {
    hide RunVector, LaneMeans;
    ConstantLane(f, 1.0, env, lanes, i);
    NegLane(f, v, env, lanes, i, x);
    FnLane(f, VExp, VNeg(v), env, lanes, i, -x);
    BinLane(f, VAdd, Set1(1.0), VFn(VExp, VNeg(v)), env, lanes, i, 1.0, f.exp(-x));
    BinLane(f, VDiv, Set1(1.0), VBin(VAdd, Set1(1.0), VFn(VExp, VNeg(v))), env, lanes, i, 1.0, 1.0 + f.exp(-x));
  }

  lemma TanhLane(f: Functions, v: VExpr, env: VEnv, lanes: nat, i: nat, x: real)
    requires RealMath(f) && i < lanes && LaneMeans(RunVector(f, v, env, lanes), lanes, i, F(x))
    ensures LaneMeans(RunVector(f, VTanh(v), env, lanes), lanes, i, F(f.tanh(x)))
  {
    hide RunVector, LaneMeans, RealMath;
    TanhBySigmoid(f, x);
    var doubled := VBin(VMul, Set1(2.0), v);
    var s := f.div(1.0, 1.0 + f.exp(-(2.0 * x)));
    ConstantLane(f, 1.0, env, lanes, i);
    ConstantLane(f, 2.0, env, lanes, i);
    BinLane(f, VMul, Set1(2.0), v, env, lanes, i, 2.0, x);
    SigmoidLane(f, doubled, env, lanes, i, 2.0 * x);
    BinLane(f, VMul, Set1(2.0), VSigmoid(doubled), env, lanes, i, 2.0, s);
    BinLane(f, VSub, VBin(VMul, Set1(2.0), VSigmoid(doubled)), Set1(1.0), env, lanes, i, 2.0 * s, 1.0);
  }

  /** The derived unary operations, in one lane. */
  lemma UnaryLane(f: Functions, op: Unary, v: VExpr, env: VEnv, lanes: nat, i: nat, x: real)
    requires RealMath(f) && i < lanes && LaneMeans(RunVector(f, v, env, lanes), lanes, i, F(x))
    ensures LaneMeans(RunVector(f, EmitVectorUnary(op, v), env, lanes), lanes, i, F(ApplyUnary(f, op, x)))
  {
    hide RunVector, LaneMeans, RealMath;
    match op
    case Neg => NegLane(f, v, env, lanes, i, x);
    case Exp => FnLane(f, VExp, v, env, lanes, i, x);
    case Log => FnLane(f, VLog, v, env, lanes, i, x);
    case Tanh => TanhLane(f, v, env, lanes, i, x);
    case Sigmoid => SigmoidLane(f, v, env, lanes, i, x);
    case Relu =>
      ConstantLane(f, 0.0, env, lanes, i);
      BinLane(f, VMax, v, Set1(0.0), env, lanes, i, x, 0.0);
    case Abs => FnLane(f, VAbs, v, env, lanes, i, x);
  }

  lemma BinaryLane(f: Functions, op: Binary, v: VExpr, w: VExpr, env: VEnv, lanes: nat, i: nat, x: real, y: real)
    requires LaneMeans(RunVector(f, v, env, lanes), lanes, i, F(x))
    requires LaneMeans(RunVector(f, w, env, lanes), lanes, i, F(y))
    ensures LaneMeans(RunVector(f, VBin(VOpOf(op), v, w), env, lanes), lanes, i, F(ApplyBinary(f, op, x, y)))
  {
    hide RunVector, LaneMeans;
    BinLane(f, VOpOf(op), v, w, env, lanes, i, x, y);
    assert LaneBin(f, VOpOf(op), x, y) == ApplyBinary(f, op, x, y);
  }

  lemma CmpLane(f: Functions, op: Compare, v: VExpr, w: VExpr, env: VEnv, lanes: nat, i: nat, x: real, y: real)
    requires LaneMeans(RunVector(f, v, env, lanes), lanes, i, F(x))
    requires LaneMeans(RunVector(f, w, env, lanes), lanes, i, F(y))
    ensures LaneMeans(RunVector(f, VCmp(VCompareOf(op), v, w), env, lanes), lanes, i, B(ApplyCompare(op, x, y)))
  {
  }

  lemma LogicLane(f: Functions, op: Logic, v: VExpr, w: VExpr, env: VEnv, lanes: nat, i: nat, x: bool, y: bool)
    requires LaneMeans(RunVector(f, v, env, lanes), lanes, i, B(x))
    requires LaneMeans(RunVector(f, w, env, lanes), lanes, i, B(y))
    ensures LaneMeans(RunVector(f, if op == AndOp then MaskAnd(v, w) else MaskOr(v, w), env, lanes), lanes, i,
                      B(ApplyLogic(op, x, y)))
  {
  }

  lemma NotLane(f: Functions, v: VExpr, env: VEnv, lanes: nat, i: nat, x: bool)
    requires LaneMeans(RunVector(f, v, env, lanes), lanes, i, B(x))
    ensures LaneMeans(RunVector(f, MaskNot(v), env, lanes), lanes, i, B(!x))
  {
  }

  lemma SelectLane(
    f: Functions, m: VExpr, v: VExpr, w: VExpr, env: VEnv, lanes: nat, i: nat, c: bool, x: Value, y: Value)
    requires LaneMeans(RunVector(f, m, env, lanes), lanes, i, B(c)) && (x.F? <==> y.F?)
    requires LaneMeans(RunVector(f, v, env, lanes), lanes, i, x)
    requires LaneMeans(RunVector(f, w, env, lanes), lanes, i, y)
    ensures LaneMeans(RunVector(f, Select(m, v, w), env, lanes), lanes, i, if c then x else y)
  {
  }

  lemma LeafLane(f: Functions, e: Expr, env: VEnv, lanes: nat, i: nat)
    requires (e.Const? || e.Flag? || e.Var?) && LanesReady(e, env, lanes) && i < lanes
    ensures LaneMeans(RunVector(f, EmitVector(e), env, lanes), lanes, i, Evaluate(f, e, LaneEnv(env, i)))
  {
    if e.Var? { assert e.name in Variables(e); }
  }

  /** Lane i of the vector form is the scalar meaning in lane i's environment. */
  lemma {:induction false} VectorMeans(f: Functions, e: Expr, env: VEnv, lanes: nat, i: nat)
    requires TypeOf(e).0 && RealMath(f) && LanesReady(e, env, lanes) && i < lanes
    ensures LaneMeans(RunVector(f, EmitVector(e), env, lanes), lanes, i, Evaluate(f, e, LaneEnv(env, i)))
  {
    hide RealMath, RunVector, LaneMeans, LaneEnv;
    var lane := LaneEnv(env, i);
    match e
    case Const(_) => LeafLane(f, e, env, lanes, i);
    case Flag(_) => LeafLane(f, e, env, lanes, i);
    case Var(_) => LeafLane(f, e, env, lanes, i);
    case Un(op, a) =>
      VectorMeans(f, a, env, lanes, i);
      WellTyped(f, a, lane);
      UnaryLane(f, op, EmitVector(a), env, lanes, i, Evaluate(f, a, lane).r);
    case Bin(op, a, b) =>
      VectorMeans(f, a, env, lanes, i); VectorMeans(f, b, env, lanes, i);
      WellTyped(f, a, lane); WellTyped(f, b, lane);
      BinaryLane(f, op, EmitVector(a), EmitVector(b), env, lanes, i, Evaluate(f, a, lane).r, Evaluate(f, b, lane).r);
    case Cmp(op, a, b) =>
      VectorMeans(f, a, env, lanes, i); VectorMeans(f, b, env, lanes, i);
      WellTyped(f, a, lane); WellTyped(f, b, lane);
      CmpLane(f, op, EmitVector(a), EmitVector(b), env, lanes, i, Evaluate(f, a, lane).r, Evaluate(f, b, lane).r);
    case Log2(op, a, b) =>
      VectorMeans(f, a, env, lanes, i); VectorMeans(f, b, env, lanes, i);
      WellTyped(f, a, lane); WellTyped(f, b, lane);
      LogicLane(f, op, EmitVector(a), EmitVector(b), env, lanes, i, Evaluate(f, a, lane).b, Evaluate(f, b, lane).b);
    case Not(a) =>
      VectorMeans(f, a, env, lanes, i);
      WellTyped(f, a, lane);
      NotLane(f, EmitVector(a), env, lanes, i, Evaluate(f, a, lane).b);
    case Where(c, a, b) =>
      VectorMeans(f, c, env, lanes, i); VectorMeans(f, a, env, lanes, i); VectorMeans(f, b, env, lanes, i);
      WellTyped(f, c, lane); WellTyped(f, a, lane); WellTyped(f, b, lane);
      SelectLane(f, EmitVector(c), EmitVector(a), EmitVector(b), env, lanes, i,
                 Evaluate(f, c, lane).b, Evaluate(f, a, lane), Evaluate(f, b, lane));
  }
}
