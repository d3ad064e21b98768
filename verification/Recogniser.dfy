/** Recognising chunkable recurrences in a Linear operator, and what an accepted operator is compiled to. */
module Recogniser {
  import opened Options
  import opened Arrays
  import opened Vectors
  import opened Expressions
  import opened Lowering
  import opened Arguments
  import opened BlockAlgebra
  import Scan = ScanReference
  import LinearBlocks
  import DeltaKernel
  import ChunkedKernel

  // ---- Operators and their meaning -------------------------------------------------

  datatype Step = ScaleBy(factor: Expr) | Rank1By(left: Expr, right: Expr) | OuterBy(left: Expr, right: Expr)

  datatype Operator = Operator(steps: seq<Step>, query: Expr, timing: Scan.Timing, arguments: map<string, seq<Axis>>) {
    /** The argument names an expression reads. */
    function Reads(e: Expr): set<string> { Variables(e) * arguments.Keys }
  }

  /** One token: its modded vectors, and every argument's element at component d of D and dv of DV.
      An argument without one of those axes is the same along it. */
  datatype TokenData = TokenData(q: Vec, k: Vec, v: Vec, element: (string, nat, nat) -> real)

  ghost predicate Respects(op: Operator, tok: TokenData) {
    forall name: string, d: nat, dv: nat :: name in op.arguments ==>
      && (Axis.D !in op.arguments[name] ==> tok.element(name, d, dv) == tok.element(name, 0, dv))
      && (Axis.DV !in op.arguments[name] ==> tok.element(name, d, dv) == tok.element(name, d, 0))
  }

  /** What an expression evaluated along D, or along DV, reads for a name. */
  function AlongD(tok: TokenData, d: nat): Env
    requires d < |tok.q| == |tok.k|
  {
    (name: string) => if name == "q" then tok.q[d] else if name == "k" then tok.k[d] else tok.element(name, d, 0)
  }

  function AlongDv(tok: TokenData, dv: nat): Env
    requires dv < |tok.v|
  {
    (name: string) => if name == "v" then tok.v[dv] else tok.element(name, 0, dv)
  }

  ghost predicate Fits(tok: TokenData, height: nat, width: nat) {
    |tok.q| == |tok.k| == height && |tok.v| == width
  }

  function VectorD(f: Functions, e: Expr, tok: TokenData, height: nat): (r: Vec)
    requires |tok.q| == |tok.k| == height
    ensures |r| == height
  {
    seq(height, d requires 0 <= d < height => Real(Evaluate(f, e, AlongD(tok, d))))
  }

  function VectorDv(f: Functions, e: Expr, tok: TokenData, width: nat): (r: Vec)
    requires |tok.v| == width
    ensures |r| == width
  {
    seq(width, dv requires 0 <= dv < width => Real(Evaluate(f, e, AlongDv(tok, dv))))
  }

  function StepOf(f: Functions, step: Step, tok: TokenData, height: nat, width: nat): (r: Scan.Step)
    requires Fits(tok, height, width)
    ensures Scan.StepFits(r, height, width)
  {
    match step
    case ScaleBy(factor) => Scan.Scale(VectorD(f, factor, tok, height))
    case Rank1By(left, right) => Scan.Rank1(VectorD(f, left, tok, height), VectorD(f, right, tok, height))
    case OuterBy(left, right) => Scan.Outer(VectorD(f, left, tok, height), VectorDv(f, right, tok, width))
  }

  /** The operator's program at one token. */
  function TokenOf(f: Functions, op: Operator, tok: TokenData, height: nat, width: nat): (r: Scan.Token)
    requires Fits(tok, height, width)
    ensures Scan.TokenFits(r, height, width)
  {
    Scan.Token(seq(|op.steps|, i requires 0 <= i < |op.steps| => StepOf(f, op.steps[i], tok, height, width)),
               VectorD(f, op.query, tok, height))
  }

  // ---- Recognition -----------------------------------------------------------------

  predicate IsVariable(e: Expr, name: string) { e.Var? && e.name == name }

  /** The c in e == c * name, for the spellings a definition may use. */
  function CoefficientOf(e: Expr, name: string): Option<Expr> {
    if IsVariable(e, name) then Some(Const(1.0))
    else if e.Un? && e.un == Neg then
      var inner := CoefficientOf(e.arg, name);
      if inner.None? then None else Some(Un(Neg, inner.value))
    else if e.Bin? && e.bin == Mul then
      if IsVariable(e.right, name) then Some(e.left)
      else if IsVariable(e.left, name) then Some(e.right)
      else if e.right.Un? && e.right.un == Neg && IsVariable(e.right.arg, name) then Some(Un(Neg, e.left))
      else if e.left.Un? && e.left.un == Neg && IsVariable(e.left.arg, name) then Some(Un(Neg, e.right))
      else None
    else None
  }

  /** In every environment the expression is its coefficient times the variable, and the coefficient reads nothing
      new. */
  lemma {:induction false} CoefficientSound(f: Functions, e: Expr, name: string, env: Env)
    requires CoefficientOf(e, name).Some?
    ensures Real(Evaluate(f, e, env)) == Times(Real(Evaluate(f, CoefficientOf(e, name).value, env)), env(name))
    ensures Variables(CoefficientOf(e, name).value) <= Variables(e)
  {
    hide Evaluate, Times;
    if IsVariable(e, name) {
      VariableMeans(f, name, env);
    } else if e.Un? {
      CoefficientSound(f, e.arg, name, env);
      var c := CoefficientOf(e.arg, name).value;
      NegMeans(f, e.arg, env);
      NegMeans(f, c, env);
      SignMoves(Real(Evaluate(f, c, env)), env(name));
    } else {
      MulMeans(f, e.left, e.right, env);
      VariableMeans(f, name, env);
      NegMeans(f, Var(name), env);
      NegMeans(f, e.left, env);
      NegMeans(f, e.right, env);
      SignMoves(Real(Evaluate(f, e.left, env)), env(name));
      SignMoves(Real(Evaluate(f, e.right, env)), env(name));
    }
  }

  lemma VariableMeans(f: Functions, name: string, env: Env)
    ensures Real(Evaluate(f, Var(name), env)) == env(name)
    ensures Real(Evaluate(f, Const(1.0), env)) == 1.0 && Times(1.0, env(name)) == env(name)
  {
  }

  lemma NegMeans(f: Functions, e: Expr, env: Env)
    ensures Real(Evaluate(f, Un(Neg, e), env)) == -Real(Evaluate(f, e, env))
  {
  }

  lemma MulMeans(f: Functions, a: Expr, b: Expr, env: Env)
    ensures Real(Evaluate(f, Bin(Mul, a, b), env)) == Times(Real(Evaluate(f, a, env)), Real(Evaluate(f, b, env)))
  {
  }

  lemma SignMoves(c: real, x: real)
    ensures Times(-c, x) == -Times(c, x) == Times(c, -x) && Times(x, c) == Times(c, x) && Times(-x, c) == -Times(c, x)
  {
  }

  /** What the delta lowering needs of an operator it accepts. */
  datatype DeltaPlan = DeltaPlan(scale: Option<Expr>, beta: Expr)

  predicate UsesVectorAxis(op: Operator, e: Expr) {
    exists name :: name in op.Reads(e) && (Axis.D in op.arguments[name] || Axis.DV in op.arguments[name])
  }

  function DeltaBlockPlan(op: Operator): Option<DeltaPlan> {
    var scale := if op.steps != [] && op.steps[0].ScaleBy? then Some(op.steps[0].factor) else None;
    var steps := if scale.Some? then op.steps[1..] else op.steps;
    if |steps| != 2 || !steps[0].Rank1By? || !steps[1].OuterBy? then None
    else if !(IsVariable(steps[0].right, "k") && IsVariable(steps[1].left, "k")) then None
    else
      var left := CoefficientOf(steps[0].left, "k");
      if left.None? || !(left.value.Un? && left.value.un == Neg) then None
      else
        var beta := left.value.arg;
        if CoefficientOf(steps[1].right, "v") != Some(beta) then None
        else if !IsVariable(op.query, "q") || op.timing != Scan.After then None
        else if scale.Some? && Variables(scale.value) * {"q", "k", "v"} != {} then None
        else if UsesVectorAxis(op, beta) || (scale.Some? && UsesVectorAxis(op, scale.value)) then None
        else Some(DeltaPlan(scale, beta))
  }

  /** What the chunked lowering needs. */
  function LinearBlockPlan(op: Operator): Option<Option<Expr>> {
    var plain := |op.steps| == 1 && op.steps[0].OuterBy?;
    var gated := |op.steps| == 2 && op.steps[0].ScaleBy? && op.steps[1].OuterBy?;
    if !plain && !gated then None
    else
      var scale := if |op.steps| == 2 then Some(op.steps[0].factor) else None;
      var outer := op.steps[|op.steps| - 1];
      if !(IsVariable(outer.left, "k") && IsVariable(outer.right, "v")) || !IsVariable(op.query, "q") then None
      else if scale.Some? && Variables(scale.value) * {"q", "k", "v"} != {} then None
      else if scale.Some? && UsesVectorAxis(op, scale.value) then None
      else Some(scale)
  }

  /** One context of the variable check: which vectors an expression may read, and along which axis arguments may
      run. */
  predicate ContextOk(op: Operator, e: Expr, vectors: set<string>, axis: Axis) {
    && Variables(e) * {"q", "k", "v"} <= vectors
    && forall name :: name in op.Reads(e) ==>
      (Axis.D in op.arguments[name] ==> axis == Axis.D) && (Axis.DV in op.arguments[name] ==> axis == Axis.DV)
  }

  predicate StepOk(op: Operator, step: Step) {
    match step
    case ScaleBy(factor) => ContextOk(op, factor, {"q", "k"}, Axis.D)
    case Rank1By(left, right) => ContextOk(op, left, {"q", "k"}, Axis.D) && ContextOk(op, right, {"q", "k"}, Axis.D)
    case OuterBy(left, right) => ContextOk(op, left, {"q", "k"}, Axis.D) && ContextOk(op, right, {"v"}, Axis.DV)
  }

  predicate CheckContexts(op: Operator) {
    && ContextOk(op, op.query, {"q", "k"}, Axis.D)
    && forall i :: 0 <= i < |op.steps| ==> StepOk(op, op.steps[i])
  }

  // ---- Soundness -------------------------------------------------------------------

  /** An expression with one value per token: it reads no vector and no argument along D or DV. */
  predicate PerToken(op: Operator, e: Expr) {
    Variables(e) * {"q", "k", "v"} == {} && !UsesVectorAxis(op, e) && Variables(e) <= op.arguments.Keys
  }

  /** The value of a per-token expression. */
  function ScalarOf(f: Functions, e: Expr, tok: TokenData): real {
    Real(Evaluate(f, e, (name: string) => tok.element(name, 0, 0)))
  }

  lemma PerTokenValue(f: Functions, op: Operator, e: Expr, tok: TokenData)
    requires PerToken(op, e) && Respects(op, tok) && |tok.q| == |tok.k|
    ensures forall d: nat :: d < |tok.k| ==> Real(Evaluate(f, e, AlongD(tok, d))) == ScalarOf(f, e, tok)
    ensures forall dv: nat :: dv < |tok.v| ==> Real(Evaluate(f, e, AlongDv(tok, dv))) == ScalarOf(f, e, tok)
  {
    var scalar: Env := (name: string) => tok.element(name, 0, 0);
    forall d: nat | d < |tok.k| ensures Real(Evaluate(f, e, AlongD(tok, d))) == ScalarOf(f, e, tok) {
      forall name | name in Variables(e) ensures AlongD(tok, d)(name) == scalar(name) {
        SameElement(op, e, tok, name, d, 0);
      }
      SameVariables(f, e, AlongD(tok, d), scalar);
    }
    forall dv: nat | dv < |tok.v| ensures Real(Evaluate(f, e, AlongDv(tok, dv))) == ScalarOf(f, e, tok) {
      forall name | name in Variables(e) ensures AlongDv(tok, dv)(name) == scalar(name) {
        SameElement(op, e, tok, name, 0, dv);
      }
      SameVariables(f, e, AlongDv(tok, dv), scalar);
    }
  }

  lemma SameElement(op: Operator, e: Expr, tok: TokenData, name: string, d: nat, dv: nat)
    requires PerToken(op, e) && Respects(op, tok) && name in Variables(e)
    ensures name != "q" && name != "k" && name != "v" && tok.element(name, d, dv) == tok.element(name, 0, 0)
  {
    assert name in op.Reads(e);
    assert name !in Variables(e) * {"q", "k", "v"};
    assert tok.element(name, d, dv) == tok.element(name, 0, dv);
    assert tok.element(name, 0, dv) == tok.element(name, 0, 0);
  }

  /** Operators are validated first: besides the token's vectors, expressions name declared arguments only. */
  ghost predicate Declared(op: Operator) {
    && {"q", "k", "v"} !! op.arguments.Keys && Variables(op.query) <= {"q", "k", "v"} + op.arguments.Keys
    && (forall i :: 0 <= i < |op.steps| ==> StepVariables(op.steps[i]) <= {"q", "k", "v"} + op.arguments.Keys)
  }

  function StepVariables(step: Step): set<string> {
    if step.ScaleBy? then Variables(step.factor) else Variables(step.left) + Variables(step.right)
  }

  /** A coefficient shared by the rank-1 and the value term can read neither q and k nor v: the two contexts
      allow disjoint vectors. */
  lemma BetaIsPerToken(op: Operator, plan: DeltaPlan)
    requires DeltaBlockPlan(op) == Some(plan) && CheckContexts(op) && Declared(op)
    ensures PerToken(op, plan.beta) && (plan.scale.Some? ==> PerToken(op, plan.scale.value))
  {
    hide UsesVectorAxis, CoefficientOf, Evaluate;
    var first := if plan.scale.Some? then 1 else 0;
    assert |op.steps| == first + 2;
    var rank1, outer := op.steps[first], op.steps[first + 1];
    assert StepOk(op, rank1) && StepOk(op, outer);
    var f := Functions((x: real) => x, (x: real) => x, (x: real) => x, (x: real, y: real) => x);
    CoefficientSound(f, rank1.left, "k", (name: string) => 0.0);
    CoefficientSound(f, outer.right, "v", (name: string) => 0.0);
    DisjointContexts(Variables(plan.beta), Variables(rank1.left), Variables(outer.right));
    assert StepVariables(outer) <= {"q", "k", "v"} + op.arguments.Keys;
    ArgumentsOnly(Variables(plan.beta), op.arguments.Keys);
    if plan.scale.Some? {
      assert StepVariables(op.steps[0]) <= {"q", "k", "v"} + op.arguments.Keys;
      ArgumentsOnly(Variables(plan.scale.value), op.arguments.Keys);
    }
  }

  lemma ArgumentsOnly(names: set<string>, arguments: set<string>)
    requires names <= {"q", "k", "v"} + arguments && names * {"q", "k", "v"} == {}
    ensures names <= arguments
  {
    forall name | name in names ensures name in arguments {
      assert name !in names * {"q", "k", "v"};
    }
  }

  lemma DisjointContexts(both: set<string>, left: set<string>, right: set<string>)
    requires both <= left && both <= right && left * {"q", "k", "v"} <= {"q", "k"} && right * {"q", "k", "v"} <= {"v"}
    ensures both * {"q", "k", "v"} == {}
  {
    assert both * {"q", "k", "v"} <= left * {"q", "k", "v"};
    assert both * {"q", "k", "v"} <= right * {"q", "k", "v"};
    assert {"q", "k"} * {"v"} == {};
  }

  function GateOf(f: Functions, scale: Option<Expr>, tok: TokenData): real {
    if scale.Some? then ScalarOf(f, scale.value, tok) else 1.0
  }

  lemma ScaleIsGate(f: Functions, op: Operator, factor: Expr, tok: TokenData, height: nat, width: nat)
    requires PerToken(op, factor) && Respects(op, tok) && Fits(tok, height, width)
    ensures StepOf(f, ScaleBy(factor), tok, height, width) == Scan.Scale(Constant(ScalarOf(f, factor, tok), height))
  {
    PerTokenValue(f, op, factor, tok);
    assert VectorD(f, factor, tok, height) == Constant(ScalarOf(f, factor, tok), height);
  }

  lemma VariableVectors(f: Functions, tok: TokenData, height: nat, width: nat)
    requires Fits(tok, height, width)
    ensures VectorD(f, Var("q"), tok, height) == tok.q && VectorD(f, Var("k"), tok, height) == tok.k
    ensures VectorDv(f, Var("v"), tok, width) == tok.v
  {
  }

  /** The accepted correction and value steps are the delta rule's. */
  lemma DeltaSteps(
    f: Functions, op: Operator, rank1: Step, outer: Step, beta: Expr, tok: TokenData, height: nat, width: nat)
    requires rank1.Rank1By? && outer.OuterBy? && IsVariable(rank1.right, "k") && IsVariable(outer.left, "k")
    requires CoefficientOf(rank1.left, "k") == Some(Un(Neg, beta)) && CoefficientOf(outer.right, "v") == Some(beta)
    requires PerToken(op, beta) && Respects(op, tok) && Fits(tok, height, width)
    ensures var b := ScalarOf(f, beta, tok);
      && StepOf(f, rank1, tok, height, width) == Scan.Rank1(Scaled(-b, tok.k), tok.k)
      && StepOf(f, outer, tok, height, width) == Scan.Outer(tok.k, Scaled(b, tok.v))
  {
    hide Evaluate, ScalarOf, PerToken, Respects, VectorD, VectorDv;
    VariableVectors(f, tok, height, width);
    CorrectionVector(f, op, rank1.left, beta, tok, height);
    ValueVector(f, op, outer.right, beta, tok, width);
  }

  lemma CorrectionVector(f: Functions, op: Operator, left: Expr, beta: Expr, tok: TokenData, height: nat)
    requires CoefficientOf(left, "k") == Some(Un(Neg, beta)) && PerToken(op, beta) && Respects(op, tok)
    requires |tok.q| == |tok.k| == height
    ensures VectorD(f, left, tok, height) == Scaled(-ScalarOf(f, beta, tok), tok.k)
  {
    hide CoefficientOf, ScalarOf, PerToken, Respects, Evaluate, Variables;
    PerTokenValue(f, op, beta, tok);
    forall d | 0 <= d < height ensures VectorD(f, left, tok, height)[d] == Scaled(-ScalarOf(f, beta, tok), tok.k)[d] {
      CoefficientSound(f, left, "k", AlongD(tok, d));
      NegMeans(f, beta, AlongD(tok, d));
      assert AlongD(tok, d)("k") == tok.k[d];
    }
  }

  lemma ValueVector(f: Functions, op: Operator, right: Expr, beta: Expr, tok: TokenData, width: nat)
    requires CoefficientOf(right, "v") == Some(beta) && PerToken(op, beta) && Respects(op, tok)
    requires |tok.q| == |tok.k| && |tok.v| == width
    ensures VectorDv(f, right, tok, width) == Scaled(ScalarOf(f, beta, tok), tok.v)
  {
    hide CoefficientOf, ScalarOf, PerToken, Respects, Evaluate, Variables;
    PerTokenValue(f, op, beta, tok);
    forall dv | 0 <= dv < width
      ensures VectorDv(f, right, tok, width)[dv] == Scaled(ScalarOf(f, beta, tok), tok.v)[dv]
    {
      CoefficientSound(f, right, "v", AlongDv(tok, dv));
      assert AlongDv(tok, dv)("v") == tok.v[dv];
    }
  }

  /** Two tokens with the same effect on every state, and the same query. */
  ghost predicate SameToken(a: Scan.Token, b: Scan.Token, height: nat, width: nat) {
    && Scan.TokenFits(a, height, width) && Scan.TokenFits(b, height, width) && a.query == b.query
    && forall m: Scan.Matrix {:trigger Scan.ApplySteps(a.steps, |a.steps|, m, height, width)} ::
      Scan.IsMatrix(m, height, width) ==>
      Scan.ApplySteps(a.steps, |a.steps|, m, height, width) == Scan.ApplySteps(b.steps, |b.steps|, m, height, width)
  }

  /** A gate of one is no step at all. */
  lemma UnitGate(steps: seq<Scan.Step>, n: nat, m: Scan.Matrix, height: nat, width: nat)
    requires Scan.IsMatrix(m, height, width) && n <= |steps|
    requires forall i :: 0 <= i < |steps| ==> Scan.StepFits(steps[i], height, width)
    ensures var gated := [Scan.Scale(Constant(1.0, height))] + steps;
      Scan.ApplySteps(gated, n + 1, m, height, width) == Scan.ApplySteps(steps, n, m, height, width)
  {
    var gated := [Scan.Scale(Constant(1.0, height))] + steps;
    if n == 0 {
      var once := Scan.ApplyStep(gated[0], m, height, width);
      assert Scan.ApplySteps(gated, 0, m, height, width) == m;
      assert Scan.ApplySteps(gated, 1, m, height, width) == once;
      forall d | 0 <= d < height ensures once[d] == m[d] {
      }
      assert once == m;
    } else {
      UnitGate(steps, n - 1, m, height, width);
    }
  }

  lemma UngatedToken(op: Scan.Token, gated: Scan.Token, height: nat, width: nat)
    requires Scan.TokenFits(op, height, width) && op.query == gated.query
    requires gated.steps == [Scan.Scale(Constant(1.0, height))] + op.steps
    ensures SameToken(op, gated, height, width)
  {
    forall i | 0 <= i < |gated.steps| ensures Scan.StepFits(gated.steps[i], height, width) {
      if i > 0 { assert gated.steps[i] == op.steps[i - 1]; }
    }
    forall m: Scan.Matrix | Scan.IsMatrix(m, height, width)
      ensures Scan.ApplySteps(op.steps, |op.steps|, m, height, width)
           == Scan.ApplySteps(gated.steps, |gated.steps|, m, height, width)
    {
      UnitGate(op.steps, |op.steps|, m, height, width);
    }
  }

  /** An accepted operator's program means exactly the gated delta rule, at every token. */
  lemma DeltaRecognised(f: Functions, op: Operator, plan: DeltaPlan, tok: TokenData, height: nat, width: nat)
    requires DeltaBlockPlan(op) == Some(plan) && CheckContexts(op) && Declared(op)
    requires Respects(op, tok) && Fits(tok, height, width)
    ensures op.timing == Scan.After
    ensures SameToken(TokenOf(f, op, tok, height, width),
                      DeltaToken(GateOf(f, plan.scale, tok), ScalarOf(f, plan.beta, tok), tok.q, tok.k, tok.v),
                      height, width)
  {
    hide Scan.ApplySteps, Scan.IsMatrix, Evaluate, ScalarOf, CoefficientOf, PerToken, CheckContexts, Respects, VectorD,
      VectorDv;
    BetaIsPerToken(op, plan);
    VariableVectors(f, tok, height, width);
    var first := if plan.scale.Some? then 1 else 0;
    var mine, delta := TokenOf(f, op, tok, height, width),
      DeltaToken(GateOf(f, plan.scale, tok), ScalarOf(f, plan.beta, tok), tok.q, tok.k, tok.v);
    DeltaSteps(f, op, op.steps[first], op.steps[first + 1], plan.beta, tok, height, width);
    if plan.scale.Some? {
      ScaleIsGate(f, op, plan.scale.value, tok, height, width);
      assert mine.steps == delta.steps;
    } else {
      assert delta.steps == [Scan.Scale(Constant(1.0, height))] + mine.steps;
      UngatedToken(mine, delta, height, width);
    }
  }

  lemma GateIsPerToken(op: Operator, gate: Expr)
    requires LinearBlockPlan(op) == Some(Some(gate)) && Declared(op)
    ensures PerToken(op, gate)
  {
    hide UsesVectorAxis;
    assert op.steps[0] == ScaleBy(gate);
    assert StepVariables(op.steps[0]) <= {"q", "k", "v"} + op.arguments.Keys;
    ArgumentsOnly(Variables(gate), op.arguments.Keys);
  }

  /** And the chunkable recurrence, read before or after. */
  lemma ChunkRecognised(f: Functions, op: Operator, scale: Option<Expr>, tok: TokenData, height: nat, width: nat)
    requires LinearBlockPlan(op) == Some(scale) && Declared(op)
    requires Respects(op, tok) && Fits(tok, height, width)
    ensures SameToken(TokenOf(f, op, tok, height, width), ChunkToken(GateOf(f, scale, tok), tok.q, tok.k, tok.v),
      height, width)
  {
    hide Scan.ApplySteps, Scan.IsMatrix, Evaluate, ScalarOf, Respects, VectorD, VectorDv, PerToken, Declared;
    VariableVectors(f, tok, height, width);
    var mine, chunk := TokenOf(f, op, tok, height, width), ChunkToken(GateOf(f, scale, tok), tok.q, tok.k, tok.v);
    if scale.Some? {
      GateIsPerToken(op, scale.value);
      ScaleIsGate(f, op, scale.value, tok, height, width);
      assert mine.steps == chunk.steps;
    } else {
      assert chunk.steps == [Scan.Scale(Constant(1.0, height))] + mine.steps;
      UngatedToken(mine, chunk, height, width);
    }
  }

  // ---- Compiled operators ----------------------------------------------------------

  /** The builders type every expression. */
  predicate Typed(op: Operator) {
    IsFloat(op.query) && forall i :: 0 <= i < |op.steps| ==>
      if op.steps[i].ScaleBy? then IsFloat(op.steps[i].factor)
      else IsFloat(op.steps[i].left) && IsFloat(op.steps[i].right)
  }

  lemma {:induction false} CoefficientTyped(e: Expr, name: string)
    requires IsFloat(e) && CoefficientOf(e, name).Some?
    ensures IsFloat(CoefficientOf(e, name).value)
  {
    if !IsVariable(e, name) && e.Un? { CoefficientTyped(e.arg, name); }
  }

  /** What the scalar code emitted for a per-token expression computes. */
  function ScalarCode(f: Functions, e: Expr, tok: TokenData): real {
    AsFloat(Run(f, Emit(e), (name: string) => tok.element(name, 0, 0)))
  }

  lemma ScalarCodeMeans(f: Functions, e: Expr, tok: TokenData)
    requires IsFloat(e)
    ensures ScalarCode(f, e, tok) == ScalarOf(f, e, tok)
  {
    hide Run, Emit, Evaluate;
    EmitMeans(f, e, (name: string) => tok.element(name, 0, 0));
    WellTyped(f, e, (name: string) => tok.element(name, 0, 0));
  }

  /** A row's per-token scalars, one for every token; without an expression they are ones. */
  method Scalars(f: Functions, e: Option<Expr>, toks: seq<TokenData>) returns (r: Vec)
    requires e.Some? ==> IsFloat(e.value)
    ensures |r| == |toks| && forall t :: 0 <= t < |toks| ==> r[t] == GateOf(f, e, toks[t])
  {
    hide ScalarCode, ScalarOf, TypeOf;
    r := [];
    for t := 0 to |toks|
      invariant |r| == t && forall i :: 0 <= i < t ==> r[i] == GateOf(f, e, toks[i])
    {
      var value := 1.0;
      if e.Some? {
        value := ScalarCode(f, e.value, toks[t]);
        ScalarCodeMeans(f, e.value, toks[t]);
      }
      r := r + [value];
    }
  }

  lemma DeltaPlanTyped(op: Operator)
    requires Typed(op) && DeltaBlockPlan(op).Some?
    ensures IsFloat(DeltaBlockPlan(op).value.beta)
    ensures DeltaBlockPlan(op).value.scale.Some? ==> IsFloat(DeltaBlockPlan(op).value.scale.value)
  {
    var outer := op.steps[|op.steps| - 1];
    CoefficientTyped(outer.right, "v");
  }

  ghost predicate AllFit(op: Operator, toks: seq<TokenData>, height: nat, width: nat) {
    forall t :: 0 <= t < |toks| ==> Fits(toks[t], height, width) && Respects(op, toks[t])
  }

  /** The operator's own program over a sequence. */
  ghost function TokensOf(
    f: Functions, op: Operator, toks: seq<TokenData>, height: nat, width: nat): (r: seq<Scan.Token>)
    requires AllFit(op, toks, height, width)
    ensures |r| == |toks| && Scan.TokensFit(r, height, width)
  {
    seq(|toks|, t requires 0 <= t < |toks| => TokenOf(f, op, toks[t], height, width))
  }

  /** Token by token the same means the same scan. */
  lemma {:induction false} SameScan(
    a: seq<Scan.Token>, b: seq<Scan.Token>, n: nat, m: Scan.Matrix, height: nat, width: nat)
    requires |a| == |b| && n <= |a| && Scan.TokensFit(a, height, width) && Scan.TokensFit(b, height, width)
    requires forall t :: 0 <= t < |a| ==> SameToken(a[t], b[t], height, width)
    requires Scan.IsMatrix(m, height, width)
    ensures Scan.StateAfter(a, n, m, height, width) == Scan.StateAfter(b, n, m, height, width)
  {
    hide SameToken, Scan.ApplySteps, Scan.IsMatrix, Scan.TokenFits;
    if n > 0 {
      SameScan(a, b, n - 1, m, height, width);
      SameEffect(a[n - 1], b[n - 1], Scan.StateAfter(a, n - 1, m, height, width), height, width);
    }
  }

  lemma SameEffect(a: Scan.Token, b: Scan.Token, m: Scan.Matrix, height: nat, width: nat)
    requires SameToken(a, b, height, width) && Scan.IsMatrix(m, height, width)
    ensures a.query == b.query
    ensures Scan.ApplySteps(a.steps, |a.steps|, m, height, width)
         == Scan.ApplySteps(b.steps, |b.steps|, m, height, width)
  {
  }

  lemma SameOutput(
    a: seq<Scan.Token>, b: seq<Scan.Token>, t: nat, timing: Scan.Timing, m: Scan.Matrix, height: nat, width: nat)
    requires |a| == |b| && t < |a| && Scan.TokensFit(a, height, width) && Scan.TokensFit(b, height, width)
    requires forall i :: 0 <= i < |a| ==> SameToken(a[i], b[i], height, width)
    requires Scan.IsMatrix(m, height, width)
    ensures Scan.OutputAt(a, t, timing, m, height, width) == Scan.OutputAt(b, t, timing, m, height, width)
  {
    hide SameToken, Scan.StateAfter, Scan.ApplySteps, Scan.IsMatrix, Scan.VecMat;
    SameScan(a, b, t, m, height, width);
    SameScan(a, b, t + 1, m, height, width);
    SameEffect(a[t], b[t], m, height, width);
  }

  /** The state and outputs a lowering leaves are the operator's own scan. */
  ghost predicate Scanned(
    tokens: seq<Scan.Token>, timing: Scan.Timing, m0: Scan.Matrix, state: Scan.Matrix, outputs: seq<Vec>, height: nat,
    width: nat)
    requires Scan.IsMatrix(m0, height, width) && Scan.TokensFit(tokens, height, width)
  {
    && state == Scan.StateAfter(tokens, |tokens|, m0, height, width)
    && |outputs| == |tokens|
    && forall s :: 0 <= s < |tokens| ==> outputs[s] == Scan.OutputAt(tokens, s, timing, m0, height, width)
  }

  lemma ScannedAlike(
    a: seq<Scan.Token>, b: seq<Scan.Token>, timing: Scan.Timing, m0: Scan.Matrix, state: Scan.Matrix, outputs: seq<Vec>,
    height: nat, width: nat)
    requires |a| == |b| && Scan.IsMatrix(m0, height, width) && Scan.TokensFit(a, height, width)
    requires Scan.TokensFit(b, height, width)
    requires forall t :: 0 <= t < |a| ==> SameToken(a[t], b[t], height, width)
    requires Scanned(b, timing, m0, state, outputs, height, width)
    ensures Scanned(a, timing, m0, state, outputs, height, width)
  {
    hide Scan.StateAfter, Scan.OutputAt, Scan.IsMatrix, SameToken;
    SameScan(a, b, |a|, m0, height, width);
    forall s | 0 <= s < |a| ensures outputs[s] == Scan.OutputAt(a, s, timing, m0, height, width) {
      SameOutput(a, b, s, timing, m0, height, width);
    }
  }

  ghost function Outputs(output: array2<real>): (r: seq<Vec>)
    reads output
    ensures |r| == output.Length0
  {
    seq(output.Length0, s requires 0 <= s < output.Length0 reads output => Row(output, s))
  }

  /** An operator compiled by the delta lowering computes its own token-by-token scan. */
  method RunDelta(
    f: Functions, op: Operator, toks: seq<TokenData>, state: array2<real>, output: array2<real>, block: nat, lanes: nat)
    returns (accepted: bool)
    requires Declared(op) && Typed(op) && AllFit(op, toks, state.Length0, state.Length1)
    requires block > 0 && lanes > 0 && |toks| == output.Length0 && output.Length1 == state.Length1 && output != state
    modifies state, output
    ensures accepted <==> CheckContexts(op) && DeltaBlockPlan(op).Some?
    ensures !accepted ==>
      LinearBlocks.View(state) == old(LinearBlocks.View(state)) && Outputs(output) == old(Outputs(output))
    ensures accepted ==>
      Scanned(TokensOf(f, op, toks, state.Length0, state.Length1), op.timing, old(LinearBlocks.View(state)),
              LinearBlocks.View(state), Outputs(output), state.Length0, state.Length1)
  {
    hide CheckContexts, DeltaBlockPlan, Declared, Typed, TypeOf, Respects, ScalarOf, SameToken, Scan.StateAfter,
      Scan.OutputAt, Scan.IsMatrix, DeltaToken, TokenOf;
    if !CheckContexts(op) { return false; }
    var plan := DeltaBlockPlan(op);
    if plan.None? { return false; }
    ghost var height, width, m0 := state.Length0, state.Length1, LinearBlocks.View(state);
    var n := |toks|;
    DeltaPlanTyped(op);
    var a := Scalars(f, plan.value.scale, toks);
    var b := Scalars(f, Some(plan.value.beta), toks);
    var q := seq(n, t requires 0 <= t < n => toks[t].q);
    var k := seq(n, t requires 0 <= t < n => toks[t].k);
    var v := seq(n, t requires 0 <= t < n => toks[t].v);
    DeltaKernel.DeltaRow(a, b, q, k, v, state, output, block, lanes);
    ghost var mine, delta := TokensOf(f, op, toks, height, width), DeltaTokens(a, b, q, k, v, height, width);
    forall t | 0 <= t < n ensures SameToken(mine[t], delta[t], height, width) {
      DeltaRecognised(f, op, plan.value, toks[t], height, width);
    }
    PlanReadsAfter(op);
    ScannedAlike(mine, delta, op.timing, m0, LinearBlocks.View(state), Outputs(output), height, width);
    accepted := true;
  }

  lemma PlanReadsAfter(op: Operator)
    requires DeltaBlockPlan(op).Some?
    ensures op.timing == Scan.After
  {
  }

  /** An operator compiled by the chunked lowering computes its own scan, whichever state it reads. */
  method RunChunked(
    f: Functions, op: Operator, toks: seq<TokenData>, state: array2<real>, output: array2<real>, block: nat, lanes: nat)
    returns (accepted: bool)
    requires Declared(op) && Typed(op) && AllFit(op, toks, state.Length0, state.Length1)
    requires block > 0 && lanes > 0 && |toks| == output.Length0 && output.Length1 == state.Length1 && output != state
    modifies state, output
    ensures accepted <==> CheckContexts(op) && LinearBlockPlan(op).Some?
    ensures !accepted ==>
      LinearBlocks.View(state) == old(LinearBlocks.View(state)) && Outputs(output) == old(Outputs(output))
    ensures accepted ==>
      Scanned(TokensOf(f, op, toks, state.Length0, state.Length1), op.timing, old(LinearBlocks.View(state)),
              LinearBlocks.View(state), Outputs(output), state.Length0, state.Length1)
  {
    hide CheckContexts, Declared, TypeOf, Respects, ScalarOf, SameToken, Scan.StateAfter, Scan.OutputAt, Scan.IsMatrix,
      ChunkToken, TokenOf;
    if !CheckContexts(op) { return false; }
    var plan := LinearBlockPlan(op);
    if plan.None? { return false; }
    ghost var height, width, m0 := state.Length0, state.Length1, LinearBlocks.View(state);
    var n := |toks|;
    var a := Scalars(f, plan.value, toks);
    var q := seq(n, t requires 0 <= t < n => toks[t].q);
    var k := seq(n, t requires 0 <= t < n => toks[t].k);
    var v := seq(n, t requires 0 <= t < n => toks[t].v);
    ChunkedKernel.ChunkedRow(a, q, k, v, op.timing, state, output, block, lanes);
    ghost var mine, chunk := TokensOf(f, op, toks, height, width), ChunkTokens(a, q, k, v, height, width);
    forall t | 0 <= t < n ensures SameToken(mine[t], chunk[t], height, width) {
      ChunkRecognised(f, op, plan.value, toks[t], height, width);
    }
    ScannedAlike(mine, chunk, op.timing, m0, LinearBlocks.View(state), Outputs(output), height, width);
    accepted := true;
  }

  // ---- The ordered scan's own code -------------------------------------------------

  /** The scalar loop over D that an expression is emitted as. */
  method CodeAlongD(f: Functions, e: Expr, tok: TokenData, height: nat) returns (r: Vec)
    requires IsFloat(e) && |tok.q| == |tok.k| == height
    ensures r == VectorD(f, e, tok, height)
  {
    hide Run, Emit, Evaluate, TypeOf;
    r := [];
    for d := 0 to height
      invariant r == VectorD(f, e, tok, height)[..d]
    {
      EmitMeans(f, e, AlongD(tok, d));
      WellTyped(f, e, AlongD(tok, d));
      r := r + [AsFloat(Run(f, Emit(e), AlongD(tok, d)))];
    }
  }

  /** And over DV. */
  method CodeAlongDv(f: Functions, e: Expr, tok: TokenData, width: nat) returns (r: Vec)
    requires IsFloat(e) && |tok.v| == width
    ensures r == VectorDv(f, e, tok, width)
  {
    hide Run, Emit, Evaluate, TypeOf;
    r := [];
    for dv := 0 to width
      invariant r == VectorDv(f, e, tok, width)[..dv]
    {
      EmitMeans(f, e, AlongDv(tok, dv));
      WellTyped(f, e, AlongDv(tok, dv));
      r := r + [AsFloat(Run(f, Emit(e), AlongDv(tok, dv)))];
    }
  }

  method StepCode(f: Functions, step: Step, tok: TokenData, height: nat, width: nat) returns (r: Scan.Step)
    requires Fits(tok, height, width)
    requires if step.ScaleBy? then IsFloat(step.factor) else IsFloat(step.left) && IsFloat(step.right)
    ensures r == StepOf(f, step, tok, height, width)
  {
    match step
    case ScaleBy(factor) =>
      var x := CodeAlongD(f, factor, tok, height);
      r := Scan.Scale(x);
    case Rank1By(left, right) =>
      var x := CodeAlongD(f, left, tok, height);
      var y := CodeAlongD(f, right, tok, height);
      r := Scan.Rank1(x, y);
    case OuterBy(left, right) =>
      var x := CodeAlongD(f, left, tok, height);
      var y := CodeAlongDv(f, right, tok, width);
      r := Scan.Outer(x, y);
  }

  /** Everything the scan evaluates for one token. */
  method TokenCode(f: Functions, op: Operator, tok: TokenData, height: nat, width: nat) returns (r: Scan.Token)
    requires Typed(op) && Fits(tok, height, width)
    ensures r == TokenOf(f, op, tok, height, width)
  {
    hide StepOf, VectorD, TypeOf;
    var steps := [];
    for i := 0 to |op.steps|
      invariant steps == TokenOf(f, op, tok, height, width).steps[..i]
    {
      var step := StepCode(f, op.steps[i], tok, height, width);
      steps := steps + [step];
    }
    var query := CodeAlongD(f, op.query, tok, height);
    r := Scan.Token(steps, query);
  }
}
