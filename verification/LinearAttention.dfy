/** A whole linear attention call: every state head of every batch, by any of the lowerings, equals the operator's
    own token-by-token scan over the caller's tensors. */
module LinearAttention {
  import opened Integers
  import opened Vectors
  import opened Expressions
  import opened Arguments
  import opened Elementwise
  import opened Recogniser
  import Lowering
  import Packing
  import Scan = ScanReference
  import LinearBlocks
  import ScanKernel
  import RowScan

  /** The operator with the modifiers of its inputs. */
  datatype Definition = Definition(f: Functions, op: Operator, qMod: Expr, kMod: Expr, vMod: Expr)

  /** One call's sizes: g groups of q and k per batch, h state heads. */
  datatype Sizes = Sizes(b: nat, g: nat, h: nat, s: nat, d: nat, dv: nat) {
    predicate Positive() { b > 0 && g > 0 && h > 0 && s > 0 && d > 0 && dv > 0 }

    function Rows(): nat { b * h }

    function Dims(): Extents { axis => Dimension(axis) }

    function Dimension(axis: Axis): nat {
      match axis
      case Batch => b case StateHead => h case ParameterGroup => g case Sequence => s case D => d case DV => dv
      case _ => 1
    }

    /** Where token tok of state head row (batch and head together) is, at components i of D and j of DV. */
    function At(row: nat, tok: nat, i: nat, j: nat): Extents
      requires h > 0
    {
      axis => Place(row, tok, i, j, axis)
    }

    function Place(row: nat, tok: nat, i: nat, j: nat, axis: Axis): nat
      requires h > 0
    {
      match axis
      case Batch => row / h case StateHead => row % h case ParameterGroup => row % h * g / h
      case Sequence => tok case D => i case DV => j
      case _ => 0
    }

    /** The q and k head that a state head reads. */
    function Group(row: nat): nat
      requires h > 0
    {
      SharedHead(row, h, g)
    }

    lemma RowInside(row: nat, tok: nat, axis: Axis)
      requires Positive() && row < Rows() && tok < s
      ensures Group(row) < b * g && At(row, tok, 0, 0)(axis) < Dims()(axis)
    {
      SharedHeadInside(row, b, h, g);
    }
  }

  /** The tensors of a call; heads are numbered batch first. */
  datatype Tensors = Tensors(q: seq<seq<Vec>>, k: seq<seq<Vec>>, v: seq<seq<Vec>>, arguments: map<string, Argument>)

  /** A typed modifier of x and the arguments. */
  ghost predicate IsModifier(e: Expr, t: Tensors) {
    IsFloat(e) && Variables(e) <= {"x"} + t.arguments.Keys
  }

  /** A validated call: typed expressions that name declared arguments, tensors of the declared shapes. */
  ghost predicate Ready(def: Definition, n: Sizes, t: Tensors) {
    && n.Positive() && Lowering.RealMath(def.f) && Declared(def.op) && Typed(def.op)
    && IsModifier(def.qMod, t) && IsModifier(def.kMod, t) && IsModifier(def.vMod, t)
    && "x" !in t.arguments && def.op.arguments.Keys == t.arguments.Keys
    && (forall name :: name in t.arguments ==>
      t.arguments[name].Fits(n.Dims()) && t.arguments[name].axes == def.op.arguments[name])
    && Packing.KeyShape(t.q, n.b * n.g, n.s, n.d) && Packing.KeyShape(t.k, n.b * n.g, n.s, n.d)
    && Packing.KeyShape(t.v, n.b * n.h, n.s, n.dv)
  }

  // ---- The meaning of a call -------------------------------------------------------

  /** An argument's element for a token, at components i of D and j of DV. */
  function Element(n: Sizes, t: Tensors, row: nat, tok: nat, name: string, i: nat, j: nat): real
    requires n.h > 0
  {
    var at, dims := n.At(row, tok, i, j), n.Dims();
    if name in t.arguments && t.arguments[name].Fits(dims) && Inside(t.arguments[name].axes, at, dims) then
      t.arguments[name].Access(at, dims)
    else 0.0
  }

  function Elements(n: Sizes, t: Tensors, row: nat, tok: nat): (string, nat, nat) -> real
    requires n.h > 0
  {
    (name: string, i: nat, j: nat) => Element(n, t, row, tok, name, i, j)
  }

  /** A modifier at a token, along D or DV. */
  function ModifierAt(def: Definition, n: Sizes, t: Tensors, e: Expr, row: nat, tok: nat, axis: Axis): Context
    requires n.h > 0
  {
    Context(def.f, e, t.arguments, n.At(row, tok, 0, 0), n.Dims(), axis)
  }

  lemma ModifierValid(def: Definition, n: Sizes, t: Tensors, e: Expr, row: nat, tok: nat, axis: Axis)
    requires Ready(def, n, t) && IsModifier(e, t) && row < n.Rows() && tok < n.s && (axis == Axis.D || axis == Axis.DV)
    ensures ModifierAt(def, n, t, e, row, tok, axis).Valid()
  {
    hide Lowering.RealMath, TypeOf, Declared, Typed, Packing.KeyShape, Sizes.Group;
    forall a: Axis ensures n.At(row, tok, 0, 0)(a) < n.Dims()(a) {
      n.RowInside(row, tok, a);
    }
  }

  /** A token's modified vectors and its arguments, from the caller's tensors. */
  ghost function TokenAt(def: Definition, n: Sizes, t: Tensors, row: nat, tok: nat): (data: TokenData)
    requires Ready(def, n, t) && row < n.Rows() && tok < n.s
    ensures Fits(data, n.d, n.dv)
  {
    hide Lowering.RealMath, Declared, Typed;
    n.RowInside(row, tok, Axis.D);
    ModifierValid(def, n, t, def.qMod, row, tok, Axis.D);
    ModifierValid(def, n, t, def.kMod, row, tok, Axis.D);
    ModifierValid(def, n, t, def.vMod, row, tok, Axis.DV);
    TokenData(
      ModifierAt(def, n, t, def.qMod, row, tok, Axis.D).Mapped(t.q[n.Group(row)][tok]),
      ModifierAt(def, n, t, def.kMod, row, tok, Axis.D).Mapped(t.k[n.Group(row)][tok]),
      ModifierAt(def, n, t, def.vMod, row, tok, Axis.DV).Mapped(t.v[row][tok]),
      Elements(n, t, row, tok))
  }

  /** An argument without an axis has the same element all along it. */
  lemma TokenRespects(def: Definition, n: Sizes, t: Tensors, row: nat, tok: nat)
    requires Ready(def, n, t) && row < n.Rows() && tok < n.s
    ensures Respects(def.op, TokenAt(def, n, t, row, tok))
  {
    hide Lowering.RealMath, Declared, Typed, IsModifier, Packing.KeyShape, Offset, Context.Mapped, Argument.Fits;
    forall name: string, i: nat, j: nat | name in def.op.arguments
      ensures Axis.D !in def.op.arguments[name] ==>
        Element(n, t, row, tok, name, i, j) == Element(n, t, row, tok, name, 0, j)
      ensures Axis.DV !in def.op.arguments[name] ==>
        Element(n, t, row, tok, name, i, j) == Element(n, t, row, tok, name, i, 0)
    {
      var axes := t.arguments[name].axes;
      if Axis.D !in axes { SameElement(n, t, name, row, tok, i, j, 0, j); }
      if Axis.DV !in axes { SameElement(n, t, name, row, tok, i, j, i, 0); }
    }
  }

  /** Only the components of an argument's own axes matter. */
  lemma SameElement(n: Sizes, t: Tensors, name: string, row: nat, tok: nat, i: nat, j: nat, i': nat, j': nat)
    requires n.h > 0 && name in t.arguments
    requires Axis.D in t.arguments[name].axes ==> i == i'
    requires Axis.DV in t.arguments[name].axes ==> j == j'
    ensures Element(n, t, row, tok, name, i, j) == Element(n, t, row, tok, name, i', j')
  {
    hide Offset;
    var axes, at, to := t.arguments[name].axes, n.At(row, tok, i, j), n.At(row, tok, i', j');
    forall k | 0 <= k < |axes| ensures at(axes[k]) == to(axes[k]) {
      assert axes[k] in axes;
    }
    OffsetCongruent(axes, at, to, n.Dims());
  }

  /** All tokens of a row. */
  ghost function RowTokens(def: Definition, n: Sizes, t: Tensors, row: nat): (toks: seq<TokenData>)
    requires Ready(def, n, t) && row < n.Rows()
    ensures |toks| == n.s && AllFit(def.op, toks, n.d, n.dv)
  {
    hide *;
    var toks := seq(n.s, tok requires 0 <= tok < n.s => TokenAt(def, n, t, row, tok));
    forall tok | 0 <= tok < n.s ensures Fits(toks[tok], n.d, n.dv) && Respects(def.op, toks[tok]) {
      TokenRespects(def, n, t, row, tok);
    }
    AllTokensFit(def.op, toks, n.d, n.dv);
    toks
  }

  lemma AllTokensFit(op: Operator, toks: seq<TokenData>, height: nat, width: nat)
    requires forall t :: 0 <= t < |toks| ==> Fits(toks[t], height, width) && Respects(op, toks[t])
    ensures AllFit(op, toks, height, width)
  {
  }

  // ---- Loading ---------------------------------------------------------------------

  /** Inputs are read in place when no modifier changes them. */
  predicate AllIdentity(def: Definition) {
    def.qMod == Var("x") && def.kMod == Var("x") && def.vMod == Var("x")
  }

  /** One modified vector, tile by tile. */
  method LoadModified(
    def: Definition, n: Sizes, t: Tensors, e: Expr, row: nat, tok: nat, axis: Axis, x: Vec, tile: nat, lanes: nat)
    returns (r: Vec)
    requires Ready(def, n, t) && IsModifier(e, t) && row < n.Rows() && tok < n.s && (axis == Axis.D || axis == Axis.DV)
    requires |x| <= n.Dims()(axis) && tile > 0 && lanes > 0
    ensures ModifierAt(def, n, t, e, row, tok, axis).Valid()
    ensures r == ModifierAt(def, n, t, e, row, tok, axis).Mapped(x)
  {
    hide Lowering.RealMath, TypeOf, Declared, Typed, Context.Valid, Context.Mapped;
    ModifierValid(def, n, t, e, row, tok, axis);
    var c := ModifierAt(def, n, t, e, row, tok, axis);
    ModifierDims(def, n, t, e, row, tok, axis);
    r := MapTiled(c, x, tile, lanes);
  }

  lemma ModifierDims(def: Definition, n: Sizes, t: Tensors, e: Expr, row: nat, tok: nat, axis: Axis)
    requires n.h > 0
    ensures ModifierAt(def, n, t, e, row, tok, axis).axis == axis
    ensures ModifierAt(def, n, t, e, row, tok, axis).dims == n.Dims()
  {
  }

  /** A token's vectors: the inputs themselves, or whole vectors and tails of every tile through the modifiers. */
  method LoadToken(
    def: Definition, n: Sizes, t: Tensors, row: nat, tok: nat, tileD: nat, tileDv: nat, lanes: nat)
    returns (data: TokenData)
    requires Ready(def, n, t) && row < n.Rows() && tok < n.s && tileD > 0 && tileDv > 0 && lanes > 0
    ensures data == TokenAt(def, n, t, row, tok)
  {
    hide Lowering.RealMath, Declared, Typed, Context.Valid, Context.Mapped;
    n.RowInside(row, tok, Axis.D);
    var q, k, v := t.q[n.Group(row)][tok], t.k[n.Group(row)][tok], t.v[row][tok];
    if AllIdentity(def) {
      IdentityToken(def, n, t, row, tok);
    } else {
      q := LoadModified(def, n, t, def.qMod, row, tok, Axis.D, q, tileD, lanes);
      k := LoadModified(def, n, t, def.kMod, row, tok, Axis.D, k, tileD, lanes);
      v := LoadModified(def, n, t, def.vMod, row, tok, Axis.DV, v, tileDv, lanes);
    }
    data := TokenData(q, k, v, Elements(n, t, row, tok));
  }

  lemma IdentityToken(def: Definition, n: Sizes, t: Tensors, row: nat, tok: nat)
    requires Ready(def, n, t) && row < n.Rows() && tok < n.s && AllIdentity(def) && n.Group(row) < n.b * n.g
    ensures TokenAt(def, n, t, row, tok)
         == TokenData(t.q[n.Group(row)][tok], t.k[n.Group(row)][tok], t.v[row][tok], Elements(n, t, row, tok))
  {
    hide Lowering.RealMath, Declared, Typed, Context.Valid, Context.Mapped, Sizes.Group;
    ModifierValid(def, n, t, def.qMod, row, tok, Axis.D);
    ModifierValid(def, n, t, def.vMod, row, tok, Axis.DV);
    ModifierAt(def, n, t, def.qMod, row, tok, Axis.D).Identity(t.q[n.Group(row)][tok]);
    ModifierAt(def, n, t, def.kMod, row, tok, Axis.D).Identity(t.k[n.Group(row)][tok]);
    ModifierAt(def, n, t, def.vMod, row, tok, Axis.DV).Identity(t.v[row][tok]);
  }

  method LoadRow(def: Definition, n: Sizes, t: Tensors, row: nat, tileD: nat, tileDv: nat, lanes: nat)
    returns (toks: seq<TokenData>)
    requires Ready(def, n, t) && row < n.Rows() && tileD > 0 && tileDv > 0 && lanes > 0
    ensures toks == RowTokens(def, n, t, row)
  {
    hide Ready, TokenAt, AllFit;
    toks := [];
    for tok := 0 to n.s
      invariant toks == RowTokens(def, n, t, row)[..tok]
    {
      var data := LoadToken(def, n, t, row, tok, tileD, tileDv, lanes);
      toks := toks + [data];
    }
  }

  // ---- Whole calls -----------------------------------------------------------------

  /** What the renderer checks whatever the lowering: no expression reads a vector or an argument axis it cannot. */
  predicate Checks(def: Definition) {
    && ContextOk(def.op, def.qMod, {}, Axis.D) && ContextOk(def.op, def.kMod, {}, Axis.D)
    && ContextOk(def.op, def.vMod, {}, Axis.DV) && CheckContexts(def.op)
  }

  /** States and outputs of the call's shape, all apart. */
  ghost predicate Storage(n: Sizes, states: seq<array2<real>>, outputs: seq<array2<real>>) {
    && |states| == |outputs| == n.Rows()
    && (forall r :: 0 <= r < n.Rows() ==>
      && states[r].Length0 == n.d && states[r].Length1 == outputs[r].Length1 == n.dv && outputs[r].Length0 == n.s)
    && (forall r, w :: 0 <= r < n.Rows() && 0 <= w < n.Rows() && r != w ==>
      states[r] != states[w] && outputs[r] != outputs[w])
    && (forall r, w :: 0 <= r < n.Rows() && 0 <= w < n.Rows() ==> states[r] != outputs[w])
  }

  /** Every row is taken once. */
  ghost predicate Order(order: seq<nat>, items: nat) {
    && (forall w: nat :: w in order <==> w < items)
    && forall i, j :: 0 <= i < j < |order| ==> order[i] != order[j]
  }

  /** The static schedule takes them as they come. */
  lemma InOrder(items: nat)
    ensures Order(seq(items, i => i), items)
  {
    var order := seq(items, i => i);
    forall w: nat ensures w in order <==> w < items {
      if w < items { assert order[w] == w; }
    }
  }

  /** The operator's own program over a row. */
  ghost function RowProgram(def: Definition, n: Sizes, t: Tensors, row: nat): (tokens: seq<Scan.Token>)
    requires Ready(def, n, t) && row < n.Rows()
    ensures |tokens| == n.s && Scan.TokensFit(tokens, n.d, n.dv)
  {
    TokensOf(def.f, def.op, RowTokens(def, n, t, row), n.d, n.dv)
  }

  /** A row's final state and its outputs are the operator's own scan from the state it had. */
  ghost predicate RowScanned(
    def: Definition, n: Sizes, t: Tensors, row: nat, before: Scan.Matrix, state: array2<real>, output: array2<real>)
    requires Ready(def, n, t) && row < n.Rows() && Scan.IsMatrix(before, n.d, n.dv)
    reads state, output
  {
    Scanned(RowProgram(def, n, t, row), def.op.timing, before, LinearBlocks.View(state), Outputs(output), n.d, n.dv)
  }

  ghost function Views(states: seq<array2<real>>): (r: seq<Scan.Matrix>)
    reads states
    ensures |r| == |states|
  {
    seq(|states|, r requires 0 <= r < |states| reads states => LinearBlocks.View(states[r]))
  }

  ghost function AllOutputs(outputs: seq<array2<real>>): (r: seq<seq<Vec>>)
    reads outputs
    ensures |r| == |outputs|
  {
    seq(|outputs|, r requires 0 <= r < |outputs| reads outputs => Outputs(outputs[r]))
  }

  /** The program of a row, as the scan's code evaluates it. */
  method Program(def: Definition, n: Sizes, t: Tensors, row: nat, tileD: nat, tileDv: nat, lanes: nat)
    returns (program: seq<Scan.Token>)
    requires Ready(def, n, t) && row < n.Rows() && tileD > 0 && tileDv > 0 && lanes > 0
    ensures program == RowProgram(def, n, t, row)
  {
    hide Lowering.RealMath, Declared, RowTokens, TokenOf, Typed;
    var toks := LoadRow(def, n, t, row, tileD, tileDv, lanes);
    program := [];
    for tok := 0 to n.s
      invariant program == RowProgram(def, n, t, row)[..tok]
    {
      var token := TokenCode(def.f, def.op, toks[tok], n.d, n.dv);
      program := program + [token];
    }
  }

  /** The programs of all rows. */
  method Programs(def: Definition, n: Sizes, t: Tensors, tileD: nat, tileDv: nat, lanes: nat)
    returns (programs: seq<seq<Scan.Token>>)
    requires Ready(def, n, t) && tileD > 0 && tileDv > 0 && lanes > 0
    ensures |programs| == n.Rows() && forall r :: 0 <= r < n.Rows() ==> programs[r] == RowProgram(def, n, t, r)
  {
    hide Ready, RowProgram;
    programs := [];
    for row := 0 to n.Rows()
      invariant |programs| == row && forall r :: 0 <= r < row ==> programs[r] == RowProgram(def, n, t, r)
    {
      var program := Program(def, n, t, row, tileD, tileDv, lanes);
      programs := programs + [program];
    }
  }

  /** The lowerings that give a worker whole state heads, with their compile-time sizes. */
  datatype RowLowering = DeltaRule(block: nat) | ChunkedRule(block: nat) | OrderedScan(tileD: nat, tileDv: nat) {
    predicate Valid() {
      match this
      case OrderedScan(tileD, tileDv) => tileD > 0 && tileDv > 0
      case _ => block > 0
    }

    /** Which operators the lowering takes. */
    predicate Accepts(def: Definition) {
      && Checks(def)
      && match this
         case DeltaRule(_) => DeltaBlockPlan(def.op).Some?
         case ChunkedRule(_) => LinearBlockPlan(def.op).Some?
         case OrderedScan(_, _) => true
    }
  }

  /** One row of a block lowering: its tokens are loaded without tiles. */
  method RunBlocks(
    lowering: RowLowering, def: Definition, n: Sizes, t: Tensors, row: nat, state: array2<real>, output: array2<real>,
    lanes: nat)
    requires Ready(def, n, t) && lowering.Accepts(def) && !lowering.OrderedScan? && lowering.Valid()
    requires row < n.Rows() && lanes > 0
    requires state.Length0 == n.d && state.Length1 == output.Length1 == n.dv && output.Length0 == n.s && state != output
    modifies state, output
    ensures RowScanned(def, n, t, row, old(LinearBlocks.View(state)), state, output)
  {
    hide CheckContexts, ContextOk, DeltaBlockPlan, LinearBlockPlan, Declared, Typed, AllFit, Scanned, Lowering.RealMath;
    var toks := LoadRow(def, n, t, row, n.d, n.dv, lanes);
    var accepted: bool;
    if lowering.DeltaRule? {
      accepted := RunDelta(def.f, def.op, toks, state, output, lowering.block, lanes);
    } else {
      accepted := RunChunked(def.f, def.op, toks, state, output, lowering.block, lanes);
    }
  }

  /** One row of the ordered scan, its tail fused where the program allows it. */
  method RunScan(
    def: Definition, n: Sizes, t: Tensors, row: nat, state: array2<real>, output: array2<real>,
    tileD: nat, tileDv: nat, lanes: nat)
    requires Ready(def, n, t) && row < n.Rows() && tileD > 0 && tileDv > 0 && lanes > 0
    requires state.Length0 == n.d && state.Length1 == output.Length1 == n.dv && output.Length0 == n.s && state != output
    modifies state, output
    ensures RowScanned(def, n, t, row, old(LinearBlocks.View(state)), state, output)
  {
    hide Ready, RowProgram, Scan.StateAfter, Scan.OutputAt, Scan.IsMatrix;
    var program := Program(def, n, t, row, tileD, tileDv, lanes);
    RowScan.ScanRow(program, def.op.timing, state, output, lanes);
  }

  /** One state head. */
  method RunRow(
    lowering: RowLowering, def: Definition, n: Sizes, t: Tensors, row: nat, state: array2<real>, output: array2<real>,
    lanes: nat)
    requires Ready(def, n, t) && lowering.Accepts(def) && lowering.Valid() && row < n.Rows() && lanes > 0
    requires state.Length0 == n.d && state.Length1 == output.Length1 == n.dv && output.Length0 == n.s && state != output
    modifies state, output
    ensures RowScanned(def, n, t, row, old(LinearBlocks.View(state)), state, output)
  {
    hide Ready, RowLowering.Accepts, RowScanned, Scan.IsMatrix;
    if lowering.OrderedScan? {
      RunScan(def, n, t, row, state, output, lowering.tileD, lowering.tileDv, lanes);
    } else {
      RunBlocks(lowering, def, n, t, row, state, output, lanes);
    }
  }

  /** A whole call by a lowering over state heads: delta, chunked, or the ordered scan with its fused tail. A refused
      operator touches nothing; an accepted one leaves its own token-by-token scan in every state head, whatever order
      the workers take the heads in. */
  method RowCall(
    lowering: RowLowering, def: Definition, n: Sizes, t: Tensors, lanes: nat, order: seq<nat>,
    states: seq<array2<real>>, outputs: seq<array2<real>>)
    returns (accepted: bool)
    requires Ready(def, n, t) && Storage(n, states, outputs) && Order(order, n.Rows()) && lowering.Valid() && lanes > 0
    modifies states, outputs
    ensures accepted <==> lowering.Accepts(def)
    ensures !accepted ==> Views(states) == old(Views(states)) && AllOutputs(outputs) == old(AllOutputs(outputs))
    ensures accepted ==> forall r :: 0 <= r < n.Rows() ==>
      RowScanned(def, n, t, r, old(Views(states))[r], states[r], outputs[r])
  {
    hide Ready, RowLowering.Accepts, RowScanned, Scan.IsMatrix;
    accepted := lowering.Accepts(def);
    if !accepted { return; }
    ghost var before := Views(states);
    for i := 0 to |order|
      invariant forall r :: 0 <= r < n.Rows() && r in order[..i] ==>
        RowScanned(def, n, t, r, before[r], states[r], outputs[r])
      invariant forall r :: 0 <= r < n.Rows() && r !in order[..i] ==> LinearBlocks.View(states[r]) == before[r]
    {
      var row := order[i];
      assert row in order && row !in order[..i];
      RunRow(lowering, def, n, t, row, states[row], outputs[row], lanes);
      assert order[..i + 1] == order[..i] + [row];
    }
    assert order[..|order|] == order;
  }

  /** How many work items the DV-block decomposition makes. */
  function Items(n: Sizes, tileDv: nat): nat
    requires tileDv > 0
  {
    n.Rows() * CeilDiv(n.dv, tileDv)
  }

  /** A whole call by the ordered scan in DV blocks, the items in any order, for any operator that passes the
      renderer's checks. */
  method ScanCall(
    def: Definition, n: Sizes, t: Tensors, tileD: nat, tileDv: nat, lanes: nat, order: seq<nat>,
    states: seq<array2<real>>, outputs: seq<array2<real>>)
    returns (accepted: bool)
    requires Ready(def, n, t) && Storage(n, states, outputs) && tileD > 0 && tileDv > 0 && lanes > 0
    requires Order(order, Items(n, tileDv))
    modifies states, outputs
    ensures accepted <==> Checks(def)
    ensures !accepted ==> Views(states) == old(Views(states)) && AllOutputs(outputs) == old(AllOutputs(outputs))
    ensures accepted ==> forall r :: 0 <= r < n.Rows() ==>
      RowScanned(def, n, t, r, old(Views(states))[r], states[r], outputs[r])
  {
    hide Ready, Checks, RowProgram, Scan.IsMatrix, Scan.StateAfter, Scan.OutputAt, CeilDiv;
    accepted := Checks(def);
    if !accepted { return; }
    ghost var before := Views(states);
    var programs := Programs(def, n, t, tileD, tileDv, lanes);
    ScanKernel.Scan2D(programs, def.op.timing, states, outputs, n.d, n.dv, tileDv, order);
    forall r | 0 <= r < n.Rows() ensures RowScanned(def, n, t, r, before[r], states[r], outputs[r]) {
      assert LinearBlocks.View(states[r]) == Scan.StateAfter(programs[r], |programs[r]|, before[r], n.d, n.dv);
    }
  }
}
