/** The definitions the block lowerings take: every accepted operator, written out, and no other. */
module Spellings {
  import opened Options
  import opened Vectors
  import opened Expressions
  import opened Arguments
  import opened Recogniser
  import Scan = ScanReference

  /** The ways to write c times a variable. */
  datatype Spelling = Plain | Before | Behind | BeforeNegated | BehindNegated | Negated(product: Spelling)

  /** x, c * x, x * c, c * -x, -x * c, or the negation of any of them. */
  function Spell(s: Spelling, c: Expr, x: string): Expr {
    match s
    case Plain => Var(x)
    case Before => Bin(Mul, c, Var(x))
    case Behind => Bin(Mul, Var(x), c)
    case BeforeNegated => Bin(Mul, c, Un(Neg, Var(x)))
    case BehindNegated => Bin(Mul, Un(Neg, Var(x)), c)
    case Negated(product) => Un(Neg, Spell(product, c, x))
  }

  /** The coefficient a spelling has. */
  function CoefficientIn(s: Spelling, c: Expr): Expr {
    match s
    case Plain => Const(1.0)
    case Before => c
    case Behind => c
    case BeforeNegated => Un(Neg, c)
    case BehindNegated => Un(Neg, c)
    case Negated(product) => Un(Neg, CoefficientIn(product, c))
  }

  /** r is the coefficient of x in some spelling of the expression. */
  ghost predicate Spelt(e: Expr, x: string, r: Expr) {
    exists s, c :: e == Spell(s, c, x) && r == CoefficientIn(s, c)
  }

  /** No spelling is missed, whatever the coefficient, the variable itself included. */
  lemma {:induction false} SpellingFound(s: Spelling, c: Expr, x: string)
    ensures CoefficientOf(Spell(s, c, x), x) == Some(CoefficientIn(s, c))
  {
    if s.Negated? { SpellingFound(s.product, c, x); }
  }

  /** And nothing else is found. */
  lemma {:induction false} FoundSpelling(e: Expr, x: string) returns (s: Spelling, c: Expr)
    requires CoefficientOf(e, x).Some?
    ensures e == Spell(s, c, x) && CoefficientOf(e, x) == Some(CoefficientIn(s, c))
  {
    if IsVariable(e, x) {
      s, c := Plain, e;
    } else if e.Un? {
      var product;
      product, c := FoundSpelling(e.arg, x);
      s := Negated(product);
    } else if IsVariable(e.right, x) {
      s, c := Before, e.left;
    } else if IsVariable(e.left, x) {
      s, c := Behind, e.right;
    } else if e.right.Un? && e.right.un == Neg && IsVariable(e.right.arg, x) {
      s, c := BeforeNegated, e.left;
    } else {
      s, c := BehindNegated, e.right;
    }
  }

  /** An expression has a coefficient exactly when it is one of the spellings, and then that spelling's. */
  lemma CoefficientsFound(e: Expr, x: string, r: Expr)
    ensures CoefficientOf(e, x) == Some(r) <==> Spelt(e, x, r)
  {
    if CoefficientOf(e, x) == Some(r) {
      var s, c := FoundSpelling(e, x);
    }
    if Spelt(e, x, r) {
      var s, c :| e == Spell(s, c, x) && r == CoefficientIn(s, c);
      SpellingFound(s, c, x);
    }
  }

  /** How often a spelling negates its coefficient, as a sign. */
  function Sign(s: Spelling): real {
    match s
    case BeforeNegated => -1.0
    case BehindNegated => -1.0
    case Negated(product) => -Sign(product)
    case _ => 1.0
  }

  /** The coefficient's value is c, or one for the bare variable, up to the spelling's sign, in every environment. */
  lemma {:induction false} CoefficientValue(f: Functions, s: Spelling, c: Expr, env: Env)
    ensures Real(Evaluate(f, CoefficientIn(s, c), env))
         == Times(Sign(s), Real(Evaluate(f, if Leaf(s) == Plain then Const(1.0) else c, env)))
  {
    hide Times, Evaluate;
    var value := Real(Evaluate(f, if Leaf(s) == Plain then Const(1.0) else c, env));
    SignMoves(1.0, value);
    VariableMeans(f, "x", env);
    match s
    case Negated(product) =>
      CoefficientValue(f, product, c, env);
      NegMeans(f, CoefficientIn(product, c), env);
      SignMoves(Sign(product), value);
    case _ =>
      NegMeans(f, c, env);
      OneTimes(value);
  }

  lemma OneTimes(x: real)
    ensures Times(1.0, x) == x && Times(-1.0, x) == -x
  {
  }

  function Leaf(s: Spelling): Spelling { if s.Negated? then Leaf(s.product) else s }

  // ---- The delta rule --------------------------------------------------------------

  /** The gate that may come first. */
  function Gate(scale: Option<Expr>): seq<Step> {
    if scale.Some? then [ScaleBy(scale.value)] else []
  }

  /** No argument the expression reads runs along D or DV. */
  ghost predicate NoVectorArgument(op: Operator, e: Expr) {
    forall name :: name in Variables(e) && name in op.arguments ==>
      Axis.D !in op.arguments[name] && Axis.DV !in op.arguments[name]
  }

  /** The gate reads no vector and no argument along D or DV. */
  ghost predicate GateAllowed(op: Operator, scale: Option<Expr>) {
    scale.Some? ==>
      && "q" !in Variables(scale.value) && "k" !in Variables(scale.value) && "v" !in Variables(scale.value)
      && NoVectorArgument(op, scale.value)
  }

  /** A gated delta rule, written out: state -= beta k (k^T state), then state += k (beta v), q read afterwards. */
  ghost predicate DeltaForm(op: Operator, plan: DeltaPlan) {
    && (exists left, right ::
      && op.steps == Gate(plan.scale) + [Rank1By(left, Var("k")), OuterBy(Var("k"), right)]
      && Spelt(left, "k", Un(Neg, plan.beta)) && Spelt(right, "v", plan.beta))
    && op.query == Var("q") && op.timing == Scan.After
    && GateAllowed(op, plan.scale) && NoVectorArgument(op, plan.beta)
  }

  lemma VectorArguments(op: Operator, e: Expr)
    ensures NoVectorArgument(op, e) <==> !UsesVectorAxis(op, e)
  {
    if !NoVectorArgument(op, e) {
      var name :| name in Variables(e) && name in op.arguments
        && (Axis.D in op.arguments[name] || Axis.DV in op.arguments[name]);
      assert name in op.Reads(e);
    }
  }

  lemma GateDisjoint(e: Expr)
    ensures Variables(e) * {"q", "k", "v"} == {} <==>
      "q" !in Variables(e) && "k" !in Variables(e) && "v" !in Variables(e)
  {
    if Variables(e) * {"q", "k", "v"} == {} {
      forall x | x in {"q", "k", "v"} ensures x !in Variables(e) {
        assert x !in Variables(e) * {"q", "k", "v"};
      }
    }
  }

  /** The delta lowering's plan exists for exactly the operators of that form, with that gate and that beta. */
  lemma DeltaForms(op: Operator, plan: DeltaPlan)
    ensures DeltaBlockPlan(op) == Some(plan) <==> DeltaForm(op, plan)
  {
    hide UsesVectorAxis, NoVectorArgument, Spelt, CoefficientOf;
    VectorArguments(op, plan.beta);
    if plan.scale.Some? {
      VectorArguments(op, plan.scale.value);
      GateDisjoint(plan.scale.value);
    }
    if DeltaBlockPlan(op) == Some(plan) {
      var rank1, outer := op.steps[|op.steps| - 2], op.steps[|op.steps| - 1];
      CoefficientsFound(rank1.left, "k", Un(Neg, plan.beta));
      CoefficientsFound(outer.right, "v", plan.beta);
      assert op.steps == Gate(plan.scale) + [Rank1By(rank1.left, Var("k")), OuterBy(Var("k"), outer.right)];
    }
    if DeltaForm(op, plan) {
      var left, right :|
        && op.steps == Gate(plan.scale) + [Rank1By(left, Var("k")), OuterBy(Var("k"), right)]
        && Spelt(left, "k", Un(Neg, plan.beta)) && Spelt(right, "v", plan.beta);
      CoefficientsFound(left, "k", Un(Neg, plan.beta));
      CoefficientsFound(right, "v", plan.beta);
      if plan.scale.Some? { assert op.steps[1..] == [Rank1By(left, Var("k")), OuterBy(Var("k"), right)]; }
    }
  }

  /** The spellings of -beta * k that the source promises to normalise. */
  function Corrections(beta: Expr): set<Expr> {
    {Bin(Mul, Un(Neg, beta), Var("k")), Bin(Mul, Var("k"), Un(Neg, beta)),
     Bin(Mul, beta, Un(Neg, Var("k"))), Bin(Mul, Un(Neg, Var("k")), beta),
     Un(Neg, Bin(Mul, beta, Var("k"))), Un(Neg, Bin(Mul, Var("k"), beta))}
  }

  /** Each of them is taken, with beta * v in either order, behind any per-token gate. */
  lemma DeltaSpellings(op: Operator, scale: Option<Expr>, beta: Expr, left: Expr, right: Expr)
    requires left in Corrections(beta) && right in {Bin(Mul, beta, Var("v")), Bin(Mul, Var("v"), beta)}
    requires op.steps == Gate(scale) + [Rank1By(left, Var("k")), OuterBy(Var("k"), right)]
    requires op.query == Var("q") && op.timing == Scan.After && GateAllowed(op, scale) && NoVectorArgument(op, beta)
    ensures DeltaBlockPlan(op) == Some(DeltaPlan(scale, beta))
  {
    hide NoVectorArgument, GateAllowed, DeltaBlockPlan, CoefficientOf;
    CorrectionSpelt(left, beta);
    ValueSpelt(right, beta);
    DeltaForms(op, DeltaPlan(scale, beta));
  }

  lemma CorrectionSpelt(left: Expr, beta: Expr)
    requires left in Corrections(beta)
    ensures Spelt(left, "k", Un(Neg, beta))
  {
    NegatedProduct(Before, beta, "k");
    NegatedProduct(Behind, beta, "k");
    if left == Spell(Before, Un(Neg, beta), "k") {
    } else if left == Spell(Behind, Un(Neg, beta), "k") {
    } else if left == Spell(BeforeNegated, beta, "k") {
    } else if left == Spell(BehindNegated, beta, "k") {
    } else if left == Spell(Negated(Before), beta, "k") {
    } else {
      assert left == Spell(Negated(Behind), beta, "k");
    }
  }

  lemma NegatedProduct(s: Spelling, c: Expr, x: string)
    ensures Spell(Negated(s), c, x) == Un(Neg, Spell(s, c, x))
    ensures CoefficientIn(Negated(s), c) == Un(Neg, CoefficientIn(s, c))
  {
  }

  lemma ValueSpelt(right: Expr, beta: Expr)
    requires right in {Bin(Mul, beta, Var("v")), Bin(Mul, Var("v"), beta)}
    ensures Spelt(right, "v", beta)
  {
    if right == Spell(Before, beta, "v") {
    } else {
      assert right == Spell(Behind, beta, "v");
    }
  }

  // ---- The chunked recurrence ------------------------------------------------------

  /** An optional gate and the plain outer product of k and v, q read before or after. */
  ghost predicate ChunkForm(op: Operator, scale: Option<Expr>) {
    && op.steps == Gate(scale) + [OuterBy(Var("k"), Var("v"))] && op.query == Var("q") && GateAllowed(op, scale)
  }

  lemma ChunkForms(op: Operator, scale: Option<Expr>)
    ensures LinearBlockPlan(op) == Some(scale) <==> ChunkForm(op, scale)
  {
    hide UsesVectorAxis, NoVectorArgument;
    if scale.Some? {
      VectorArguments(op, scale.value);
      GateDisjoint(scale.value);
    }
    if LinearBlockPlan(op) == Some(scale) {
      assert op.steps == Gate(scale) + [OuterBy(Var("k"), Var("v"))];
    }
  }

  // ---- What the renderer checks ----------------------------------------------------

  /** No argument the expression reads runs along the axis. */
  ghost predicate NoArgumentAlong(op: Operator, e: Expr, axis: Axis) {
    forall name :: name in Variables(e) && name in op.arguments ==> axis !in op.arguments[name]
  }

  /** Evaluated component by component of D: neither v nor an argument along DV is in reach. */
  ghost predicate ReadsRows(op: Operator, e: Expr) {
    "v" !in Variables(e) && NoArgumentAlong(op, e, Axis.DV)
  }

  /** And of DV: neither q, k nor an argument along D is. */
  ghost predicate ReadsColumns(op: Operator, e: Expr) {
    "q" !in Variables(e) && "k" !in Variables(e) && NoArgumentAlong(op, e, Axis.D)
  }

  lemma RowContext(op: Operator, e: Expr)
    ensures ContextOk(op, e, {"q", "k"}, Axis.D) <==> ReadsRows(op, e)
  {
    VectorNames(Variables(e), {"q", "k"});
    ArgumentNames(op, e, Axis.DV, Axis.D, {"q", "k"});
  }

  lemma ColumnContext(op: Operator, e: Expr)
    ensures ContextOk(op, e, {"v"}, Axis.DV) <==> ReadsColumns(op, e)
  {
    VectorNames(Variables(e), {"v"});
    ArgumentNames(op, e, Axis.D, Axis.DV, {"v"});
  }

  lemma VectorNames(names: set<string>, vectors: set<string>)
    ensures names * {"q", "k", "v"} <= vectors <==> forall x :: x in {"q", "k", "v"} && x in names ==> x in vectors
  {
  }

  lemma ArgumentNames(op: Operator, e: Expr, missing: Axis, axis: Axis, vectors: set<string>)
    requires {missing, axis} == {Axis.D, Axis.DV} && missing != axis
    ensures ContextOk(op, e, vectors, axis) <==>
      Variables(e) * {"q", "k", "v"} <= vectors && NoArgumentAlong(op, e, missing)
  {
    forall name ensures name in op.Reads(e) <==> name in Variables(e) && name in op.arguments {}
  }

  /** The checks pass exactly when every expression stays on its own side. */
  lemma StepsChecked(op: Operator)
    ensures CheckContexts(op) <==>
      && ReadsRows(op, op.query)
      && forall i :: 0 <= i < |op.steps| ==>
        match op.steps[i]
        case ScaleBy(factor) => ReadsRows(op, factor)
        case Rank1By(left, right) => ReadsRows(op, left) && ReadsRows(op, right)
        case OuterBy(left, right) => ReadsRows(op, left) && ReadsColumns(op, right)
  {
    hide ContextOk, ReadsRows, ReadsColumns;
    RowContext(op, op.query);
    forall i | 0 <= i < |op.steps|
      ensures StepOk(op, op.steps[i]) <==>
        match op.steps[i]
        case ScaleBy(factor) => ReadsRows(op, factor)
        case Rank1By(left, right) => ReadsRows(op, left) && ReadsRows(op, right)
        case OuterBy(left, right) => ReadsRows(op, left) && ReadsColumns(op, right)
    {
      match op.steps[i]
      case ScaleBy(factor) => RowContext(op, factor);
      case Rank1By(left, right) =>
        RowContext(op, left);
        RowContext(op, right);
      case OuterBy(left, right) =>
        RowContext(op, left);
        ColumnContext(op, right);
    }
  }
}
