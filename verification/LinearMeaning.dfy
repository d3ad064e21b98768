/** What a linear attention call's program is made of, in the caller's own terms: which tensor elements a modifier, a
    transition step and the query read at a batch, a state head and a token. */
module LinearMeaning {
  import opened Options
  import opened Integers
  import opened Vectors
  import opened Expressions
  import opened Arguments
  import opened Elementwise
  import opened Recogniser
  import opened LinearAttention
  import opened Spellings
  import Lowering
  import Packing
  import Scan = ScanReference

  /** Where a value is looked up: batch, state head, its group, token, and the components of D and of DV. */
  datatype Site = Site(b: nat, h: nat, g: nat, tok: nat, d: nat, dv: nat) {
    /** The site is in the call, and its group is the one whose stretch of the heads holds the head. */
    predicate In(n: Sizes) {
      && b < n.b && h < n.h && g < n.g && tok < n.s && d < n.d && dv < n.dv
      && g * n.h <= h * n.g < (g + 1) * n.h
    }

    /** The index of the site, at component i of D and j of DV. */
    predicate IsIndex(at: Extents, i: nat, j: nat) {
      && at(Batch) == b && at(StateHead) == h && at(ParameterGroup) == g && at(Sequence) == tok
      && at(Axis.D) == i && at(Axis.DV) == j
      && at(QueryHead) == at(KvHead) == at(Query) == at(Axis.Key) == 0
    }
  }

  predicate IsShape(dims: Extents, n: Sizes) {
    && dims(Batch) == n.b && dims(StateHead) == n.h && dims(ParameterGroup) == n.g && dims(Sequence) == n.s
    && dims(Axis.D) == n.d && dims(Axis.DV) == n.dv
    && dims(QueryHead) == dims(KvHead) == dims(Query) == dims(Axis.Key) == 1
  }

  /** Every argument name stands for its tensor's element at the site, at component i of D and j of DV. */
  ghost predicate Reads(t: Tensors, n: Sizes, s: Site, i: nat, j: nat, env: Env) {
    forall name, at, dims ::
      name in t.arguments && s.IsIndex(at, i, j) && IsShape(dims, n)
      && t.arguments[name].Fits(dims) && Inside(t.arguments[name].axes, at, dims) ==>
      env(name) == t.arguments[name].Access(at, dims)
  }

  /** r is the modifier's value for the input x at the site. */
  ghost predicate Modified(def: Definition, t: Tensors, n: Sizes, s: Site, i: nat, j: nat, e: Expr, x: real, r: real) {
    forall env :: Reads(t, n, s, i, j, env) && env("x") == x ==> r == Real(Evaluate(def.f, e, env))
  }

  /** The inputs at the site: q and k belong to its group, v to its head. */
  ghost function InputQ(def: Definition, t: Tensors, n: Sizes, s: Site): real
    requires Ready(def, n, t) && s.In(n)
  {
    hide Lowering.RealMath, Declared, Typed, IsModifier;
    GroupInside(n, s);
    t.q[s.b * n.g + s.g][s.tok][s.d]
  }

  ghost function InputK(def: Definition, t: Tensors, n: Sizes, s: Site): real
    requires Ready(def, n, t) && s.In(n)
  {
    hide Lowering.RealMath, Declared, Typed, IsModifier;
    GroupInside(n, s);
    t.k[s.b * n.g + s.g][s.tok][s.d]
  }

  ghost function InputV(def: Definition, t: Tensors, n: Sizes, s: Site): real
    requires Ready(def, n, t) && s.In(n)
  {
    hide Lowering.RealMath, Declared, Typed, IsModifier;
    GroupInside(n, s);
    t.v[s.b * n.h + s.h][s.tok][s.dv]
  }

  /** An environment along D: q and k are the modified inputs at the site's component. */
  ghost predicate AlongRows(def: Definition, t: Tensors, n: Sizes, s: Site, env: Env)
    requires Ready(def, n, t) && s.In(n)
  {
    && Reads(t, n, s, s.d, 0, env)
    && Modified(def, t, n, s, s.d, 0, def.qMod, InputQ(def, t, n, s), env("q"))
    && Modified(def, t, n, s, s.d, 0, def.kMod, InputK(def, t, n, s), env("k"))
  }

  /** An environment along DV: v is the modified input. */
  ghost predicate AlongColumns(def: Definition, t: Tensors, n: Sizes, s: Site, env: Env)
    requires Ready(def, n, t) && s.In(n)
  {
    && Reads(t, n, s, 0, s.dv, env)
    && Modified(def, t, n, s, 0, s.dv, def.vMod, InputV(def, t, n, s), env("v"))
  }

  /** A step's vectors at the site are the values of its expressions. */
  ghost predicate StepMeans(f: Functions, written: Step, step: Scan.Step, s: Site, rows: Env, columns: Env) {
    match written
    case ScaleBy(factor) =>
      step.Scale? && s.d < |step.factor| && step.factor[s.d] == Real(Evaluate(f, factor, rows))
    case Rank1By(left, right) =>
      && step.Rank1? && s.d < |step.left| && s.d < |step.right|
      && step.left[s.d] == Real(Evaluate(f, left, rows)) && step.right[s.d] == Real(Evaluate(f, right, rows))
    case OuterBy(left, right) =>
      && step.Outer? && s.d < |step.left| && s.dv < |step.right|
      && step.left[s.d] == Real(Evaluate(f, left, rows)) && step.right[s.dv] == Real(Evaluate(f, right, columns))
  }

  /** The token at the site means the operator: step by step, and its query. */
  ghost predicate TokenMeans(def: Definition, token: Scan.Token, s: Site, rows: Env, columns: Env) {
    && |token.steps| == |def.op.steps|
    && (forall i :: 0 <= i < |token.steps| ==>
      StepMeans(def.f, def.op.steps[i], token.steps[i], s, rows, columns))
    && s.d < |token.query| && token.query[s.d] == Real(Evaluate(def.f, def.op.query, rows))
  }

  // ---- Indices ---------------------------------------------------------------------

  function RowOf(n: Sizes, s: Site): (row: nat)
    requires s.In(n)
    ensures row == s.b * n.h + s.h < n.Rows()
  {
    MulMono(s.b + 1, n.b, n.h);
    assert (s.b + 1) * n.h == s.b * n.h + n.h;
    s.b * n.h + s.h
  }

  lemma GroupInside(n: Sizes, s: Site)
    requires s.In(n)
    ensures s.b * n.g + s.g < n.b * n.g && s.b * n.h + s.h < n.b * n.h
  {
    MulMono(s.b + 1, n.b, n.g);
    assert (s.b + 1) * n.g == s.b * n.g + n.g;
    assert RowOf(n, s) == s.b * n.h + s.h;
  }

  /** The kernel's indices are the site's. */
  lemma SiteIndex(n: Sizes, s: Site, i: nat, j: nat)
    requires s.In(n) && i < n.d && j < n.dv
    ensures var at := n.At(RowOf(n, s), s.tok, i, j);
      && s.IsIndex(at, i, j) && forall axis: Axis :: at(axis) < n.Dims()(axis)
    ensures n.Group(RowOf(n, s)) == s.b * n.g + s.g && IsShape(n.Dims(), n)
  {
    var row := RowOf(n, s);
    DivModUnique(row, n.h, s.b, s.h);
    SharedHeadGroups(s.b, s.h, n.h, n.g, s.g);
  }

  /** Two descriptions of one index reach one element. */
  lemma SameAccess(argument: Argument, n: Sizes, s: Site, i: nat, j: nat, at: Extents, dims: Extents, to: Extents,
                   shape: Extents)
    requires s.IsIndex(at, i, j) && s.IsIndex(to, i, j) && IsShape(dims, n) && IsShape(shape, n)
    requires argument.Fits(dims) && argument.Fits(shape)
    requires Inside(argument.axes, at, dims) && Inside(argument.axes, to, shape)
    ensures argument.Access(at, dims) == argument.Access(to, shape)
  {
    forall axis: Axis ensures at(axis) == to(axis) && dims(axis) == shape(axis) {
      match axis
      case Batch => case QueryHead => case KvHead => case StateHead => case ParameterGroup =>
      case Query => case Key => case Sequence => case D => case DV =>
    }
    OffsetOfIndex(argument.axes, at, dims, to, shape);
  }

  // ---- Modifiers -------------------------------------------------------------------

  /** Where the modifiers' code is at component c of its axis. */
  lemma CodeIndex(n: Sizes, s: Site, axis: Axis, c: nat)
    requires s.In(n) && (axis == Axis.D || axis == Axis.DV) && c < n.Dims()(axis)
    ensures var at := n.At(RowOf(n, s), s.tok, 0, 0);
      s.IsIndex(Moved(at, axis, c), if axis == Axis.D then c else 0, if axis == Axis.DV then c else 0)
    ensures IsShape(n.Dims(), n)
  {
    SiteIndex(n, s, 0, 0);
  }

  /** What that code reads for a name. */
  lemma CodeBound(def: Definition, t: Tensors, n: Sizes, s: Site, e: Expr, axis: Axis, c: nat, x: real)
    requires Ready(def, n, t) && s.In(n) && IsModifier(e, t) && (axis == Axis.D || axis == Axis.DV)
    requires c < n.Dims()(axis)
    ensures var context := ModifierAt(def, n, t, e, RowOf(n, s), s.tok, axis);
      && context.Valid() && c < context.dims(context.axis)
      && forall name ::
        context.ScalarEnv(c, x)(name) == if name in t.arguments then Here(def, t, n, s, axis, c, name) else x
  {
    hide Lowering.RealMath, TypeOf, Declared, Typed, Packing.KeyShape, Offset, Inside, Argument.Access, Sizes.At,
      Sizes.Dims, IsModifier;
    ModifierValid(def, n, t, e, RowOf(n, s), s.tok, axis);
  }

  /** An argument's element at component c of the axis, by the code's own index. */
  ghost function Here(def: Definition, t: Tensors, n: Sizes, s: Site, axis: Axis, c: nat, name: string): real
    requires Ready(def, n, t) && s.In(n) && name in t.arguments && (axis == Axis.D || axis == Axis.DV)
    requires c < n.Dims()(axis)
  {
    HereInside(def, t, n, s, axis, c, name);
    t.arguments[name].Access(Moved(n.At(RowOf(n, s), s.tok, 0, 0), axis, c), n.Dims())
  }

  lemma HereInside(def: Definition, t: Tensors, n: Sizes, s: Site, axis: Axis, c: nat, name: string)
    requires Ready(def, n, t) && s.In(n) && name in t.arguments && (axis == Axis.D || axis == Axis.DV)
    requires c < n.Dims()(axis)
    ensures t.arguments[name].Fits(n.Dims())
    ensures Inside(t.arguments[name].axes, Moved(n.At(RowOf(n, s), s.tok, 0, 0), axis, c), n.Dims())
  {
    hide Lowering.RealMath, TypeOf, Declared, Typed, Packing.KeyShape, Offset, IsModifier, Argument.Fits, Sizes.At,
      Sizes.Dims;
    SiteIndex(n, s, 0, 0);
  }

  /** The code's environment reads the site's elements. */
  lemma CodeReads(def: Definition, t: Tensors, n: Sizes, s: Site, e: Expr, axis: Axis, c: nat, x: real)
    requires Ready(def, n, t) && s.In(n) && IsModifier(e, t) && (axis == Axis.D || axis == Axis.DV)
    requires c < n.Dims()(axis)
    ensures var context := ModifierAt(def, n, t, e, RowOf(n, s), s.tok, axis);
      && context.Valid() && context.axis == axis && context.dims == n.Dims()
      && Reads(t, n, s, if axis == Axis.D then c else 0, if axis == Axis.DV then c else 0, context.ScalarEnv(c, x))
      && context.ScalarEnv(c, x)("x") == x
  {
    hide Lowering.RealMath, TypeOf, Declared, Typed, Packing.KeyShape, Offset, Argument.Fits, Inside, Argument.Access,
      Sizes.At, Sizes.Dims, Context.Valid, Context.ScalarEnv, IsModifier;
    ModifierDims(def, n, t, e, RowOf(n, s), s.tok, axis);
    CodeBound(def, t, n, s, e, axis, c, x);
    CodeIndex(n, s, axis, c);
    var context := ModifierAt(def, n, t, e, RowOf(n, s), s.tok, axis);
    var i, j := if axis == Axis.D then c else 0, if axis == Axis.DV then c else 0;
    forall name, at, dims |
      name in t.arguments && s.IsIndex(at, i, j) && IsShape(dims, n)
      && t.arguments[name].Fits(dims) && Inside(t.arguments[name].axes, at, dims)
      ensures context.ScalarEnv(c, x)(name) == t.arguments[name].Access(at, dims)
    {
      HereInside(def, t, n, s, axis, c, name);
      SameAccess(t.arguments[name], n, s, i, j, Moved(n.At(RowOf(n, s), s.tok, 0, 0), axis, c), n.Dims(), at, dims);
    }
  }

  /** Every environment that reads the site's elements gives the modifier the value of its code. */
  lemma CodeMeans(def: Definition, t: Tensors, n: Sizes, s: Site, e: Expr, axis: Axis, c: nat, x: real, env: Env)
    requires Ready(def, n, t) && s.In(n) && IsModifier(e, t) && (axis == Axis.D || axis == Axis.DV)
    requires c < n.Dims()(axis) && env("x") == x
    requires Reads(t, n, s, if axis == Axis.D then c else 0, if axis == Axis.DV then c else 0, env)
    ensures var context := ModifierAt(def, n, t, e, RowOf(n, s), s.tok, axis);
      context.Valid() && c < context.dims(context.axis) && Real(Evaluate(def.f, e, env)) == context.ValueAt(c, x)
  {
    hide Lowering.RealMath, TypeOf, Declared, Typed, Packing.KeyShape, Offset, Argument.Fits, Inside, Argument.Access,
      Sizes.At, Sizes.Dims, Context.Valid, Context.ScalarEnv, Evaluate;
    CodeBound(def, t, n, s, e, axis, c, x);
    CodeIndex(n, s, axis, c);
    var context := ModifierAt(def, n, t, e, RowOf(n, s), s.tok, axis);
    var scalar := context.ScalarEnv(c, x);
    forall name | name in Variables(e) ensures env(name) == scalar(name) {
      if name in t.arguments { HereInside(def, t, n, s, axis, c, name); }
    }
    SameVariables(def.f, e, env, scalar);
  }

  /** A modified vector's component is the modifier's value at the site. */
  lemma ComponentMeans(
    def: Definition, t: Tensors, n: Sizes, s: Site, e: Expr, axis: Axis, x: Vec, c: nat, r: real)
    requires Ready(def, n, t) && s.In(n) && IsModifier(e, t) && (axis == Axis.D || axis == Axis.DV)
    requires |x| <= n.Dims()(axis) && c < |x|
    requires Modified(def, t, n, s, if axis == Axis.D then c else 0, if axis == Axis.DV then c else 0, e, x[c], r)
    ensures ModifierAt(def, n, t, e, RowOf(n, s), s.tok, axis).Valid()
    ensures ModifierAt(def, n, t, e, RowOf(n, s), s.tok, axis).Mapped(x)[c] == r
  {
    hide Ready, IsModifier, Reads, Sizes.Dims, Context.Valid, Context.ScalarEnv, Evaluate;
    CodeReads(def, t, n, s, e, axis, c, x[c]);
    var context := ModifierAt(def, n, t, e, RowOf(n, s), s.tok, axis);
    assert context.Mapped(x)[c] == context.ValueAt(c, x[c]);
  }

  /** The token's vectors at the site are what the environments say. */
  lemma VectorsMean(def: Definition, t: Tensors, n: Sizes, s: Site, rows: Env, columns: Env)
    requires Ready(def, n, t) && s.In(n)
    requires AlongRows(def, t, n, s, rows) && AlongColumns(def, t, n, s, columns)
    ensures var data := TokenAt(def, n, t, RowOf(n, s), s.tok);
      data.q[s.d] == rows("q") && data.k[s.d] == rows("k") && data.v[s.dv] == columns("v")
  {
    hide Lowering.RealMath, Declared, Typed, IsModifier, Modified, Reads, Context.Valid, Context.Mapped, Elements;
    SiteIndex(n, s, 0, 0);
    GroupInside(n, s);
    var row, group := RowOf(n, s), s.b * n.g + s.g;
    ComponentMeans(def, t, n, s, def.qMod, Axis.D, t.q[group][s.tok], s.d, rows("q"));
    ComponentMeans(def, t, n, s, def.kMod, Axis.D, t.k[group][s.tok], s.d, rows("k"));
    ComponentMeans(def, t, n, s, def.vMod, Axis.DV, t.v[row][s.tok], s.dv, columns("v"));
  }

  lemma ComponentModified(def: Definition, t: Tensors, n: Sizes, s: Site, e: Expr, axis: Axis, x: Vec, c: nat)
    requires Ready(def, n, t) && s.In(n) && IsModifier(e, t) && (axis == Axis.D || axis == Axis.DV)
    requires |x| <= n.Dims()(axis) && c < |x|
    ensures var context := ModifierAt(def, n, t, e, RowOf(n, s), s.tok, axis);
      && context.Valid() && |x| <= context.dims(context.axis)
      && Modified(def, t, n, s, if axis == Axis.D then c else 0, if axis == Axis.DV then c else 0, e, x[c],
                  context.Mapped(x)[c])
  {
    hide Ready, IsModifier, Reads, Sizes.Dims, Context.Valid, Context.ScalarEnv, Evaluate;
    CodeReads(def, t, n, s, e, axis, c, x[c]);
    var context := ModifierAt(def, n, t, e, RowOf(n, s), s.tok, axis);
    var i, j := if axis == Axis.D then c else 0, if axis == Axis.DV then c else 0;
    forall env | Reads(t, n, s, i, j, env) && env("x") == x[c]
      ensures context.Mapped(x)[c] == Real(Evaluate(def.f, e, env))
    {
      CodeMeans(def, t, n, s, e, axis, c, x[c], env);
    }
  }

  lemma ElementsRead(def: Definition, t: Tensors, n: Sizes, s: Site, i: nat, j: nat, env: Env)
    requires Ready(def, n, t) && s.In(n) && i < n.d && j < n.dv
    requires forall name :: name in t.arguments ==> env(name) == Element(n, t, RowOf(n, s), s.tok, name, i, j)
    ensures Reads(t, n, s, i, j, env)
  {
    hide Lowering.RealMath, Declared, Typed, IsModifier, Packing.KeyShape, Offset, Argument.Access, Argument.Fits,
      Inside, Sizes.At, Sizes.Dims;
    SiteIndex(n, s, i, j);
    var here := n.At(RowOf(n, s), s.tok, i, j);
    forall name, at, dims |
      name in t.arguments && s.IsIndex(at, i, j) && IsShape(dims, n)
      && t.arguments[name].Fits(dims) && Inside(t.arguments[name].axes, at, dims)
      ensures env(name) == t.arguments[name].Access(at, dims)
    {
      assert Inside(t.arguments[name].axes, here, n.Dims()) by { AllInside(t.arguments[name].axes, here, n.Dims()); }
      SameAccess(t.arguments[name], n, s, i, j, here, n.Dims(), at, dims);
    }
  }

  lemma AllInside(axes: seq<Axis>, at: Extents, dims: Extents)
    requires forall axis: Axis :: at(axis) < dims(axis)
    ensures Inside(axes, at, dims)
  {
  }

  lemma RowEnvironment(def: Definition, t: Tensors, n: Sizes, s: Site) returns (rows: Env)
    requires Ready(def, n, t) && s.In(n)
    ensures AlongRows(def, t, n, s, rows)
  {
    hide Lowering.RealMath, Typed, IsModifier, Context.Valid, Context.Mapped, Context.ValueAt, Evaluate, Reads,
      Modified, Element;
    SiteIndex(n, s, 0, 0);
    GroupInside(n, s);
    var row, group := RowOf(n, s), s.b * n.g + s.g;
    ComponentModified(def, t, n, s, def.qMod, Axis.D, t.q[group][s.tok], s.d);
    ComponentModified(def, t, n, s, def.kMod, Axis.D, t.k[group][s.tok], s.d);
    var q := ModifierAt(def, n, t, def.qMod, row, s.tok, Axis.D).Mapped(t.q[group][s.tok])[s.d];
    var k := ModifierAt(def, n, t, def.kMod, row, s.tok, Axis.D).Mapped(t.k[group][s.tok])[s.d];
    rows := name => if name == "q" then q else if name == "k" then k else Element(n, t, row, s.tok, name, s.d, 0);
    ElementsRead(def, t, n, s, s.d, 0, rows);
  }

  lemma ColumnEnvironment(def: Definition, t: Tensors, n: Sizes, s: Site) returns (columns: Env)
    requires Ready(def, n, t) && s.In(n)
    ensures AlongColumns(def, t, n, s, columns)
  {
    hide Lowering.RealMath, Typed, IsModifier, Context.Valid, Context.Mapped, Context.ValueAt, Evaluate, Reads,
      Modified, Element;
    GroupInside(n, s);
    var row := RowOf(n, s);
    ComponentModified(def, t, n, s, def.vMod, Axis.DV, t.v[row][s.tok], s.dv);
    var v := ModifierAt(def, n, t, def.vMod, row, s.tok, Axis.DV).Mapped(t.v[row][s.tok])[s.dv];
    columns := name => if name == "v" then v else Element(n, t, row, s.tok, name, 0, s.dv);
    ElementsRead(def, t, n, s, 0, s.dv, columns);
  }

  /** Every site has such environments, so what follows speaks of every site. */
  lemma Environments(def: Definition, t: Tensors, n: Sizes, s: Site) returns (rows: Env, columns: Env)
    requires Ready(def, n, t) && s.In(n)
    ensures AlongRows(def, t, n, s, rows) && AlongColumns(def, t, n, s, columns)
  {
    hide Ready, AlongRows, AlongColumns;
    rows := RowEnvironment(def, t, n, s);
    columns := ColumnEnvironment(def, t, n, s);
  }

  lemma ElementMeans(def: Definition, t: Tensors, n: Sizes, s: Site, i: nat, j: nat, env: Env, name: string)
    requires Ready(def, n, t) && s.In(n) && i < n.d && j < n.dv && Reads(t, n, s, i, j, env) && name in t.arguments
    ensures Element(n, t, RowOf(n, s), s.tok, name, i, j) == env(name)
  {
    hide Lowering.RealMath, Declared, Typed, IsModifier, Packing.KeyShape, Offset, Argument.Access, Sizes.At,
      Sizes.Dims;
    SiteIndex(n, s, i, j);
  }

  // ---- Expressions -----------------------------------------------------------------

  /** Which names a checked expression can read. */
  predicate Names(def: Definition, e: Expr, vectors: set<string>) {
    Variables(e) <= vectors + def.op.arguments.Keys
  }

  lemma CheckedNames(def: Definition, e: Expr, vectors: set<string>, axis: Axis)
    requires ContextOk(def.op, e, vectors, axis) && Variables(e) <= {"q", "k", "v"} + def.op.arguments.Keys
    ensures Names(def, e, vectors)
  {
    forall name | name in Variables(e) ensures name in vectors + def.op.arguments.Keys {
      if name !in def.op.arguments { assert name in Variables(e) * {"q", "k", "v"}; }
    }
  }

  /** Along D every expression means its value in the site's environment. */
  lemma RowMeans(def: Definition, t: Tensors, n: Sizes, s: Site, rows: Env, data: TokenData, e: Expr)
    requires Ready(def, n, t) && s.In(n) && Reads(t, n, s, s.d, 0, rows) && Names(def, e, {"q", "k"})
    requires s.d < |data.q| == |data.k| && data.q[s.d] == rows("q") && data.k[s.d] == rows("k")
    requires data.element == Elements(n, t, RowOf(n, s), s.tok)
    ensures Real(Evaluate(def.f, e, AlongD(data, s.d))) == Real(Evaluate(def.f, e, rows))
  {
    hide Lowering.RealMath, Typed, IsModifier, Packing.KeyShape, Evaluate, Reads, Element;
    forall name | name in Variables(e) ensures AlongD(data, s.d)(name) == rows(name) {
      if name != "q" && name != "k" { ElementMeans(def, t, n, s, s.d, 0, rows, name); }
    }
    SameVariables(def.f, e, AlongD(data, s.d), rows);
  }

  /** And along DV. */
  lemma ColumnMeans(def: Definition, t: Tensors, n: Sizes, s: Site, columns: Env, data: TokenData, e: Expr)
    requires Ready(def, n, t) && s.In(n) && Reads(t, n, s, 0, s.dv, columns) && Names(def, e, {"v"})
    requires s.dv < |data.v| && data.v[s.dv] == columns("v")
    requires data.element == Elements(n, t, RowOf(n, s), s.tok)
    ensures Real(Evaluate(def.f, e, AlongDv(data, s.dv))) == Real(Evaluate(def.f, e, columns))
  {
    hide Lowering.RealMath, Typed, IsModifier, Packing.KeyShape, Evaluate, Reads, Element;
    forall name | name in Variables(e) ensures AlongDv(data, s.dv)(name) == columns(name) {
      if name != "v" { ElementMeans(def, t, n, s, 0, s.dv, columns, name); }
    }
    SameVariables(def.f, e, AlongDv(data, s.dv), columns);
  }

  // ---- Programs --------------------------------------------------------------------

  /** At every site of an accepted call, the program that the lowerings run is the operator over the caller's own
      tensors: each vector of each step, and the query, is its expression's value where the arguments are the elements
      at that batch, head, group and token, and q, k and v are the modified inputs. */
  lemma ProgramMeans(def: Definition, n: Sizes, t: Tensors, s: Site, rows: Env, columns: Env)
    requires Ready(def, n, t) && Checks(def) && s.In(n)
    requires AlongRows(def, t, n, s, rows) && AlongColumns(def, t, n, s, columns)
    ensures TokenMeans(def, RowProgram(def, n, t, RowOf(n, s))[s.tok], s, rows, columns)
  {
    hide Ready, ContextOk, Evaluate, Modified, Reads, TokenAt, Elements;
    var row := RowOf(n, s);
    var data := TokenAt(def, n, t, row, s.tok);
    VectorsMean(def, t, n, s, rows, columns);
    TokenParts(def, n, t, row, s.tok);
    var token := TokenOf(def.f, def.op, data, n.d, n.dv);
    QueryNames(def, n, t);
    RowMeans(def, t, n, s, rows, data, def.op.query);
    forall i | 0 <= i < |def.op.steps|
      ensures StepMeans(def.f, def.op.steps[i], token.steps[i], s, rows, columns)
    {
      StepMeaning(def, n, t, s, rows, columns, data, i);
    }
  }

  /** What the row's program is made of. */
  lemma TokenParts(def: Definition, n: Sizes, t: Tensors, row: nat, tok: nat)
    requires Ready(def, n, t) && row < n.Rows() && tok < n.s
    ensures RowProgram(def, n, t, row)[tok] == TokenOf(def.f, def.op, TokenAt(def, n, t, row, tok), n.d, n.dv)
    ensures TokenAt(def, n, t, row, tok).element == Elements(n, t, row, tok)
  {
    hide Lowering.RealMath, Declared, Typed, IsModifier, Packing.KeyShape, Elements, Context.Mapped, TokenOf;
  }

  lemma QueryNames(def: Definition, n: Sizes, t: Tensors)
    requires Ready(def, n, t) && Checks(def)
    ensures Names(def, def.op.query, {"q", "k"})
  {
    hide Lowering.RealMath, Typed, IsModifier, Packing.KeyShape, ContextOk;
    CheckedNames(def, def.op.query, {"q", "k"}, Axis.D);
  }

  lemma StepNames(def: Definition, n: Sizes, t: Tensors, i: nat)
    requires Ready(def, n, t) && Checks(def) && i < |def.op.steps|
    ensures match def.op.steps[i]
      case ScaleBy(factor) => Names(def, factor, {"q", "k"})
      case Rank1By(left, right) => Names(def, left, {"q", "k"}) && Names(def, right, {"q", "k"})
      case OuterBy(left, right) => Names(def, left, {"q", "k"}) && Names(def, right, {"v"})
  {
    hide Lowering.RealMath, Typed, IsModifier, Packing.KeyShape, ContextOk;
    var step := def.op.steps[i];
    assert StepOk(def.op, step) && StepVariables(step) <= {"q", "k", "v"} + def.op.arguments.Keys;
    match step
    case ScaleBy(factor) => CheckedNames(def, factor, {"q", "k"}, Axis.D);
    case Rank1By(left, right) =>
      CheckedNames(def, left, {"q", "k"}, Axis.D);
      CheckedNames(def, right, {"q", "k"}, Axis.D);
    case OuterBy(left, right) =>
      CheckedNames(def, left, {"q", "k"}, Axis.D);
      CheckedNames(def, right, {"v"}, Axis.DV);
  }

  lemma StepMeaning(
    def: Definition, n: Sizes, t: Tensors, s: Site, rows: Env, columns: Env, data: TokenData, i: nat)
    requires Ready(def, n, t) && Checks(def) && s.In(n) && i < |def.op.steps| && Fits(data, n.d, n.dv)
    requires Reads(t, n, s, s.d, 0, rows) && Reads(t, n, s, 0, s.dv, columns)
    requires data.q[s.d] == rows("q") && data.k[s.d] == rows("k") && data.v[s.dv] == columns("v")
    requires data.element == Elements(n, t, RowOf(n, s), s.tok)
    ensures StepMeans(def.f, def.op.steps[i], StepOf(def.f, def.op.steps[i], data, n.d, n.dv), s, rows, columns)
  {
    hide Ready, Checks, Evaluate, Reads, Elements, Names;
    StepNames(def, n, t, i);
    match def.op.steps[i]
    case ScaleBy(factor) => RowMeans(def, t, n, s, rows, data, factor);
    case Rank1By(left, right) =>
      RowMeans(def, t, n, s, rows, data, left);
      RowMeans(def, t, n, s, rows, data, right);
    case OuterBy(left, right) =>
      RowMeans(def, t, n, s, rows, data, left);
      ColumnMeans(def, t, n, s, columns, data, right);
  }

  // ---- Which calls are taken -------------------------------------------------------

  predicate NoVectors(e: Expr) {
    "q" !in Variables(e) && "k" !in Variables(e) && "v" !in Variables(e)
  }

  /** The checks of a whole definition: modifiers read no vector, and every expression only what its component
      reaches. */
  lemma DefinitionChecked(def: Definition)
    ensures Checks(def) <==>
      && NoVectors(def.qMod) && NoArgumentAlong(def.op, def.qMod, Axis.DV)
      && NoVectors(def.kMod) && NoArgumentAlong(def.op, def.kMod, Axis.DV)
      && NoVectors(def.vMod) && NoArgumentAlong(def.op, def.vMod, Axis.D)
      && CheckContexts(def.op)
  {
    hide ContextOk, NoArgumentAlong, CheckContexts;
    ArgumentNames(def.op, def.qMod, Axis.DV, Axis.D, {});
    ArgumentNames(def.op, def.kMod, Axis.DV, Axis.D, {});
    ArgumentNames(def.op, def.vMod, Axis.D, Axis.DV, {});
    GateDisjoint(def.qMod);
    GateDisjoint(def.kMod);
    GateDisjoint(def.vMod);
  }

  /** Past the checks, the ordered scan takes every operator, and each block lowering exactly its own form. */
  lemma RowAccepts(lowering: RowLowering, def: Definition)
    ensures lowering.Accepts(def) <==> Checks(def) && match lowering
      case DeltaRule(_) => exists plan :: DeltaForm(def.op, plan)
      case ChunkedRule(_) => exists scale :: ChunkForm(def.op, scale)
      case OrderedScan(_, _) => true
  {
    hide Checks, DeltaBlockPlan, LinearBlockPlan, DeltaForm, ChunkForm;
    match lowering
    case DeltaRule(_) =>
      if DeltaBlockPlan(def.op).Some? { DeltaForms(def.op, DeltaBlockPlan(def.op).value); }
      forall plan | DeltaForm(def.op, plan) ensures DeltaBlockPlan(def.op) == Some(plan) {
        DeltaForms(def.op, plan);
      }
    case ChunkedRule(_) =>
      if LinearBlockPlan(def.op).Some? { ChunkForms(def.op, LinearBlockPlan(def.op).value); }
      forall scale | ChunkForm(def.op, scale) ensures LinearBlockPlan(def.op) == Some(scale) {
        ChunkForms(def.op, scale);
      }
    case OrderedScan(_, _) =>
  }
}
