/** Elementwise code along a vector axis: whole vectors first, then a scalar tail. */
module Elementwise {
  import opened Integers
  import opened Vectors
  import opened Expressions
  import opened Lowering
  import opened Arguments

  /** An expression of x and of arguments, at a fixed index on every other axis. */
  datatype Context = Context(
    f: Functions, e: Expr, arguments: map<string, Argument>, at: Extents, dims: Extents, axis: Axis)
  {
    /** The expression is typed, its names are bound once, and every argument is indexed inside its tensor. */
    ghost predicate Valid() {
      && IsFloat(e) && RealMath(f)
      && "x" !in arguments && Variables(e) <= {"x"} + arguments.Keys && at(axis) == 0
      && forall name :: name in arguments ==> Argued(arguments[name])
    }

    /** The tensor fits, and any position along the vector axis is inside it. */
    predicate Argued(argument: Argument) {
      && argument.Fits(dims)
      && forall i :: 0 <= i < |argument.axes| && argument.axes[i] != axis ==>
        at(argument.axes[i]) < dims(argument.axes[i])
    }

    lemma IndexInside(name: string, i: nat)
      requires Valid() && name in arguments && i < dims(axis)
      ensures arguments[name].Fits(dims) && Inside(arguments[name].axes, Moved(at, axis, i), dims)
    {
      assert Argued(arguments[name]);
    }

    /** What the scalar code reads for a name at position i. */
    function Bound(i: nat, x: real, name: string): real
      requires Valid() && i < dims(axis)
    {
      if name in arguments then
        IndexInside(name, i);
        arguments[name].Access(Moved(at, axis, i), dims)
      else x
    }

    function ScalarEnv(i: nat, x: real): Env
      requires Valid() && i < dims(axis)
    {
      name => Bound(i, x, name)
    }

    /** The expression's value at position i. */
    function ValueAt(i: nat, x: real): real
      requires Valid() && i < dims(axis)
    {
      Real(Evaluate(f, e, ScalarEnv(i, x)))
    }

    /** The expression over a whole vector. */
    function Mapped(x: Vec): (r: Vec)
      requires Valid() && |x| <= dims(axis)
      ensures |r| == |x|
    {
      seq(|x|, i requires 0 <= i < |x| => ValueAt(i, x[i]))
    }

    /** Vector bindings for positions i on: strided argument loads and the elements of x. */
    ghost predicate Loaded(i: nat, xs: seq<real>, env: VEnv)
      requires Valid() && |xs| > 0 && i + |xs| <= dims(axis)
    {
      forall name :: |env(name)| == |xs|
        && forall l: nat :: l < |xs| ==> env(name)[l] == Bound(i + l, xs[l], name)
    }

    /** Lane l of the vector form is the scalar meaning l positions on. */
    lemma LaneValue(i: nat, xs: seq<real>, env: VEnv, l: nat)
      requires Valid() && l < |xs| && i + |xs| <= dims(axis) && Loaded(i, xs, env)
      ensures LaneOf(RunVector(f, EmitVector(e), env, |xs|), l) == ValueAt(i + l, xs[l])
    {
      hide RealMath, RunVector, Evaluate, Emit, EmitVector, Bound, Argued;
      var scalar, lane := ScalarEnv(i + l, xs[l]), LaneEnv(env, l);
      VectorMeans(f, e, env, |xs|, l);
      SameVariables(f, e, lane, scalar);
      WellTyped(f, e, scalar);
    }

    /** So is the scalar form. */
    lemma ScalarValue(i: nat, x: real)
      requires Valid() && i < dims(axis)
      ensures AsFloat(Run(f, Emit(e), ScalarEnv(i, x))) == ValueAt(i, x)
    {
      hide RealMath, Run, Evaluate, Emit, Bound, Argued;
      EmitMeans(f, e, ScalarEnv(i, x));
      WellTyped(f, e, ScalarEnv(i, x));
    }

    /** A bare x is a copy. */
    lemma Identity(x: Vec)
      requires Valid() && e == Var("x") && |x| <= dims(axis)
      ensures Mapped(x) == x
    {
    }
  }

  method LoadVectors(c: Context, i: nat, xs: seq<real>) returns (env: VEnv)
    requires c.Valid() && |xs| > 0 && i + |xs| <= c.dims(c.axis)
    ensures c.Loaded(i, xs, env)
  {
    hide RealMath, Argument.Fits, Argument.Lanes, Argument.Access, Context.Argued, Inside;
    var lanes, start := |xs|, Moved(c.at, c.axis, i);
    forall name | name in c.arguments
      ensures c.arguments[name].Fits(c.dims)
      ensures Inside(c.arguments[name].axes, Moved(start, c.axis, lanes - 1), c.dims)
    {
      c.IndexInside(name, i + lanes - 1);
      SameInside(c.arguments[name].axes, c.at, c.dims, c.axis, i, lanes - 1);
    }
    var loads := LoadArguments(c.arguments, start, c.dims, c.axis, lanes);
    env := name => if name in loads then loads[name] else xs;
    forall name, l: nat | l < lanes ensures env(name)[l] == c.Bound(i + l, xs[l], name) {
      if name in c.arguments { LaneBound(c, i, lanes, l, name); }
    }
  }

  lemma SameInside(axes: seq<Axis>, at: Extents, dims: Extents, axis: Axis, i: nat, l: nat)
    ensures Inside(axes, Moved(Moved(at, axis, i), axis, l), dims) <==> Inside(axes, Moved(at, axis, i + l), dims)
  {
  }

  lemma LaneBound(c: Context, i: nat, lanes: nat, l: nat, name: string)
    requires c.Valid() && l < lanes && i + lanes <= c.dims(c.axis) && name in c.arguments
    requires c.arguments[name].Fits(c.dims)
    requires Inside(c.arguments[name].axes, Moved(Moved(c.at, c.axis, i), c.axis, lanes - 1), c.dims)
    ensures c.arguments[name].Lanes(Moved(c.at, c.axis, i), c.dims, c.axis, lanes)[l] == c.Bound(i + l, 0.0, name)
  {
    hide RealMath, TypeOf, Variables;
    var start := Moved(c.at, c.axis, i);
    c.arguments[name].LaneIsAccess(start, c.dims, c.axis, lanes, l);
    OffsetCongruent(c.arguments[name].axes, Moved(start, c.axis, l), Moved(c.at, c.axis, i + l), c.dims);
    c.IndexInside(name, i + l);
  }

  /** One vector of elements. */
  method MapLanes(c: Context, x: Vec, i: nat, lanes: nat) returns (r: Vec)
    requires c.Valid() && lanes > 0 && i + lanes <= |x| <= c.dims(c.axis)
    ensures r == c.Mapped(x)[i..i + lanes]
  {
    hide *;
    var xs := x[i..i + lanes];
    var env := LoadVectors(c, i, xs);
    var register := RunVector(c.f, EmitVector(c.e), env, lanes);
    r := seq(lanes, l requires 0 <= l < lanes => LaneOf(register, l));
    forall l | 0 <= l < lanes ensures r[l] == c.Mapped(x)[i..i + lanes][l] {
      c.LaneValue(i, xs, env, l);
      MappedAt(c, x, i + l);
    }
  }

  lemma MappedAt(c: Context, x: Vec, i: nat)
    requires c.Valid() && i < |x| <= c.dims(c.axis)
    ensures c.Mapped(x)[i] == c.ValueAt(i, x[i])
  {
    hide RealMath, Evaluate;
  }

  method Store(buffer: array<real>, i: nat, values: seq<real>)
    requires i + |values| <= buffer.Length
    modifies buffer
    ensures forall j :: 0 <= j < buffer.Length ==>
      buffer[j] == if i <= j < i + |values| then values[j - i] else old(buffer[j])
  {
    for l := 0 to |values|
      invariant forall j :: 0 <= j < buffer.Length ==>
        buffer[j] == if i <= j < i + l then values[j - i] else old(buffer[j])
    {
      buffer[i + l] := values[l];
    }
  }

  /** Positions lo .. hi: whole vectors, then the tail. Nothing else is written. */
  method MapSpan(c: Context, x: Vec, lo: nat, hi: nat, lanes: nat, buffer: array<real>)
    requires c.Valid() && lanes > 0 && lo <= hi <= |x| <= c.dims(c.axis) && |x| <= buffer.Length
    modifies buffer
    ensures forall j :: 0 <= j < buffer.Length ==>
      buffer[j] == if lo <= j < hi then c.Mapped(x)[j] else old(buffer[j])
  {
    hide Context.Valid, Context.Mapped;
    ghost var mapped := c.Mapped(x);
    var i := lo;
    while i + lanes <= hi
      invariant lo <= i <= hi
      invariant forall j :: 0 <= j < buffer.Length ==> buffer[j] == if lo <= j < i then mapped[j] else old(buffer[j])
    {
      var values := MapLanes(c, x, i, lanes);
      Store(buffer, i, values);
      i := i + lanes;
    }
    while i < hi
      invariant lo <= i <= hi
      invariant forall j :: 0 <= j < buffer.Length ==> buffer[j] == if lo <= j < i then mapped[j] else old(buffer[j])
    {
      c.ScalarValue(i, x[i]);
      MappedAt(c, x, i);
      buffer[i] := AsFloat(Run(c.f, Emit(c.e), c.ScalarEnv(i, x[i])));
      i := i + 1;
    }
  }

  /** A whole vector, tile by tile. */
  method MapTiled(c: Context, x: Vec, tile: nat, lanes: nat) returns (r: Vec)
    requires c.Valid() && lanes > 0 && tile > 0 && |x| <= c.dims(c.axis)
    ensures r == c.Mapped(x)
  {
    hide Context.Valid, Context.Mapped;
    var buffer := new real[|x|];
    var begin := 0;
    ghost var done := 0;
    while begin < |x|
      invariant 0 <= begin && done == (if begin < |x| then begin else |x|)
      invariant forall j :: 0 <= j < done ==> buffer[j] == c.Mapped(x)[j]
    {
      var end := if begin + tile < |x| then begin + tile else |x|;
      MapSpan(c, x, begin, end, lanes, buffer);
      begin := begin + tile;
      done := end;
    }
    r := buffer[..];
  }
}
