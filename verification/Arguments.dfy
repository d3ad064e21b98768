/** Tensor arguments: row-major addressing over any axis list, and vector loads along one of the axes. */
module Arguments {
  import opened Integers

  datatype Axis = Batch | QueryHead | KvHead | StateHead | ParameterGroup | Query | Key | Sequence | D | DV

  /** An index or a dimension for every axis. */
  type Extents = Axis -> nat

  /** The row-major offset: each axis scales what came before by its dimension and adds its index. */
  function Offset(axes: seq<Axis>, at: Extents, dims: Extents): nat {
    if axes == [] then 0
    else
      var axis := axes[|axes| - 1];
      Offset(axes[..|axes| - 1], at, dims) * dims(axis) + at(axis)
  }

  function Size(axes: seq<Axis>, dims: Extents): nat {
    if axes == [] then 1 else Size(axes[..|axes| - 1], dims) * dims(axes[|axes| - 1])
  }

  predicate Distinct(axes: seq<Axis>) {
    forall i, j :: 0 <= i < j < |axes| ==> axes[i] != axes[j]
  }

  predicate Inside(axes: seq<Axis>, at: Extents, dims: Extents) {
    forall i :: 0 <= i < |axes| ==> at(axes[i]) < dims(axes[i])
  }

  /** The distance between neighbours along an axis: the product of the later dimensions. */
  function Stride(axes: seq<Axis>, axis: Axis, dims: Extents): nat {
    if axes == [] || axes[|axes| - 1] == axis then 1
    else Stride(axes[..|axes| - 1], axis, dims) * dims(axes[|axes| - 1])
  }

  function Moved(at: Extents, axis: Axis, i: nat): Extents {
    a => if a == axis then at(a) + i else at(a)
  }

  method ArrayOffset(axes: seq<Axis>, at: Extents, dims: Extents) returns (offset: nat)
    ensures offset == Offset(axes, at, dims)
  {
    offset := 0;
    for i := 0 to |axes|
      invariant offset == Offset(axes[..i], at, dims)
    {
      assert axes[..i + 1][..i] == axes[..i];
      offset := offset * dims(axes[i]) + at(axes[i]);
    }
    assert axes[..|axes|] == axes;
  }

  method AxisStride(axes: seq<Axis>, axis: Axis, dims: Extents) returns (stride: nat)
    requires axis in axes && Distinct(axes)
    ensures stride == Stride(axes, axis, dims)
  {
    var i := 0;
    while axes[i] != axis
      invariant 0 <= i < |axes| && axis in axes[i..]
      decreases |axes| - i
    {
      i := i + 1;
    }
    stride := 1;
    assert axes[..i + 1][i] == axis;
    for j := i + 1 to |axes|
      invariant stride == Stride(axes[..j], axis, dims)
    {
      assert axes[..j + 1][..j] == axes[..j];
      stride := stride * dims(axes[j]);
    }
    assert axes[..|axes|] == axes;
  }

  /** Every index inside the dimensions addresses inside the tensor. */
  lemma {:induction false} OffsetBound(axes: seq<Axis>, at: Extents, dims: Extents)
    requires Inside(axes, at, dims)
    ensures Offset(axes, at, dims) < Size(axes, dims)
  {
    if axes != [] {
      var rest, axis := axes[..|axes| - 1], axes[|axes| - 1];
      assert Inside(rest, at, dims);
      OffsetBound(rest, at, dims);
      MulMono(Offset(rest, at, dims) + 1, Size(rest, dims), dims(axis));
      assert (Offset(rest, at, dims) + 1) * dims(axis) == Offset(rest, at, dims) * dims(axis) + dims(axis);
    }
  }

  /** Two indices share an offset only where they agree on every axis of the tensor. */
  lemma {:induction false} OffsetInjective(axes: seq<Axis>, at: Extents, to: Extents, dims: Extents)
    requires Inside(axes, at, dims) && Inside(axes, to, dims)
    ensures Offset(axes, at, dims) == Offset(axes, to, dims)
       <==> forall i :: 0 <= i < |axes| ==> at(axes[i]) == to(axes[i])
  {
    if axes != [] {
      var rest, axis := axes[..|axes| - 1], axes[|axes| - 1];
      assert Inside(rest, at, dims) && Inside(rest, to, dims);
      OffsetInjective(rest, at, to, dims);
      if Offset(axes, at, dims) == Offset(axes, to, dims) {
        PairUnique(Offset(rest, at, dims), at(axis), Offset(rest, to, dims), to(axis), dims(axis));
        forall i | 0 <= i < |axes| ensures at(axes[i]) == to(axes[i]) {
          if i < |rest| { assert rest[i] == axes[i]; }
        }
      }
    }
  }

  /** Moving one axis by i moves the offset by i strides, and not at all when the tensor lacks the axis. */
  lemma {:induction false} OffsetMoves(axes: seq<Axis>, at: Extents, dims: Extents, axis: Axis, i: nat)
    requires Distinct(axes)
    ensures Offset(axes, Moved(at, axis, i), dims)
         == Offset(axes, at, dims) + if axis in axes then Scale(i, Stride(axes, axis, dims)) else 0
  {
    hide Offset, Stride, Scale;
    if axes == [] {
      NoAxes(at, dims, axis, i);
    } else {
      var rest, last := axes[..|axes| - 1], axes[|axes| - 1];
      assert axes == rest + [last];
      OffsetMoves(rest, at, dims, axis, i);
      if axis in rest {
        var k :| 0 <= k < |rest| && rest[k] == axis;
        assert axes[k] == axis && last != axis;
        LastAxis(axes, at, dims, axis, i);
        Spread(Offset(rest, at, dims), i, Stride(rest, axis, dims), dims(last));
      } else {
        LastAxis(axes, at, dims, axis, i);
        Spread(0, i, 1, 1);
      }
    }
  }

  /** What the last axis adds. */
  lemma LastAxis(axes: seq<Axis>, at: Extents, dims: Extents, axis: Axis, i: nat)
    requires axes != []
    ensures var rest, last := axes[..|axes| - 1], axes[|axes| - 1];
      && Offset(axes, at, dims) == Scale(Offset(rest, at, dims), dims(last)) + at(last)
      && Offset(axes, Moved(at, axis, i), dims)
         == Scale(Offset(rest, Moved(at, axis, i), dims), dims(last)) + Moved(at, axis, i)(last)
      && Stride(axes, axis, dims) == if last == axis then 1 else Scale(Stride(rest, axis, dims), dims(last))
  {
  }

  /** Only the tensor's own axes matter. */
  lemma {:induction false} OffsetCongruent(axes: seq<Axis>, at: Extents, to: Extents, dims: Extents)
    requires forall i :: 0 <= i < |axes| ==> at(axes[i]) == to(axes[i])
    ensures Offset(axes, at, dims) == Offset(axes, to, dims)
  {
    if axes != [] {
      var rest := axes[..|axes| - 1];
      forall i | 0 <= i < |rest| ensures at(rest[i]) == to(rest[i]) {
        assert rest[i] == axes[i];
      }
      OffsetCongruent(rest, at, to, dims);
    }
  }

  /** The first axis is the slowest: each of its steps passes over a whole tensor of the other axes. */
  lemma {:induction false} RowMajor(axes: seq<Axis>, at: Extents, dims: Extents)
    requires axes != []
    ensures Offset(axes, at, dims) == Scale(at(axes[0]), Size(axes[1..], dims)) + Offset(axes[1..], at, dims)
    ensures Size(axes, dims) == Scale(dims(axes[0]), Size(axes[1..], dims))
  {
    hide Scale, Offset, Size;
    if |axes| == 1 {
      OneAxis(axes, at, dims);
    } else {
      var front, later := axes[..|axes| - 1], axes[1..];
      var d := dims(axes[|axes| - 1]);
      assert later[..|later| - 1] == front[1..] && later[|later| - 1] == axes[|axes| - 1] && front[0] == axes[0];
      RowMajor(front, at, dims);
      LastGrows(axes, at, dims);
      LastGrows(later, at, dims);
      Spread(Offset(front[1..], at, dims), at(axes[0]), Size(front[1..], dims), d);
      ScaleTwice(dims(axes[0]), Size(front[1..], dims), d);
    }
  }

  lemma ScaleTwice(x: nat, y: nat, d: nat)
    ensures Scale(Scale(x, y), d) == Scale(x, Scale(y, d))
  {
  }

  lemma OneAxis(axes: seq<Axis>, at: Extents, dims: Extents)
    requires |axes| == 1
    ensures Offset(axes, at, dims) == Scale(at(axes[0]), Size(axes[1..], dims)) + Offset(axes[1..], at, dims)
    ensures Size(axes, dims) == Scale(dims(axes[0]), Size(axes[1..], dims))
  {
    assert axes[..0] == [] && axes[1..] == [];
  }

  lemma LastGrows(axes: seq<Axis>, at: Extents, dims: Extents)
    requires axes != []
    ensures var rest, axis := axes[..|axes| - 1], axes[|axes| - 1];
      && Offset(axes, at, dims) == Scale(Offset(rest, at, dims), dims(axis)) + at(axis)
      && Size(axes, dims) == Scale(Size(rest, dims), dims(axis))
  {
  }

  /** Neighbours along an axis are as far apart as the tensor of the later axes is large. */
  lemma {:induction false} StrideSpans(axes: seq<Axis>, i: nat, dims: Extents)
    requires i < |axes| && Distinct(axes)
    ensures Stride(axes, axes[i], dims) == Size(axes[i + 1..], dims)
  {
    var last := |axes| - 1;
    if i < last {
      var rest := axes[..last];
      StrideSpans(rest, i, dims);
      assert axes[i + 1..][..last - i - 1] == rest[i + 1..] && axes[i + 1..][last - i - 1] == axes[last];
    }
  }

  /** Equal indices into equal shapes have equal offsets. */
  lemma {:induction false} OffsetOfIndex(axes: seq<Axis>, at: Extents, dims: Extents, to: Extents, shape: Extents)
    requires forall axis: Axis :: at(axis) == to(axis) && dims(axis) == shape(axis)
    ensures Offset(axes, at, dims) == Offset(axes, to, shape)
  {
    if axes != [] { OffsetOfIndex(axes[..|axes| - 1], at, dims, to, shape); }
  }

  /** A product kept folded. */
  function Scale(x: nat, d: nat): nat { x * d }

  lemma Spread(x: nat, i: nat, stride: nat, d: nat)
    ensures Scale(x + Scale(i, stride), d) == Scale(x, d) + Scale(i, Scale(stride, d))
    ensures Scale(i, 1) == i
  {
  }

  /** lanes values, a stride apart. */
  function Strided(mem: seq<real>, from: nat, stride: nat, lanes: nat): (r: seq<real>)
    requires forall i: nat :: i < lanes ==> Reach(from, stride, i) < |mem|
    ensures |r| == lanes
  {
    seq(lanes, i requires 0 <= i < lanes => mem[Reach(from, stride, i)])
  }

  function Reach(from: nat, stride: nat, i: nat): nat { from + Scale(i, stride) }

  /** A strided vector load; neighbours are loaded straight from memory. */
  method LoadStrided(mem: seq<real>, from: nat, stride: nat, lanes: nat) returns (r: seq<real>)
    requires forall i: nat :: i < lanes ==> Reach(from, stride, i) < |mem|
    ensures r == Strided(mem, from, stride, lanes)
  {
    if stride == 1 && lanes > 0 {
      assert Reach(from, stride, lanes - 1) < |mem|;
      return mem[from..from + lanes];
    }
    r := [];
    for i := 0 to lanes
      invariant r == Strided(mem, from, stride, lanes)[..i]
    {
      assert Reach(from, stride, i) < |mem|;
      r := r + [mem[from + i * stride]];
    }
  }

  function IotaLanes(first: real, lanes: nat): (r: seq<real>)
    ensures |r| == lanes
  {
    seq(lanes, i => first + i as real)
  }

  method Iota(first: real, lanes: nat) returns (r: seq<real>)
    ensures r == IotaLanes(first, lanes)
  {
    r := [];
    for i := 0 to lanes
      invariant r == IotaLanes(first, lanes)[..i]
    {
      r := r + [first + i as real];
    }
  }

  /** One argument of a call. */
  datatype Argument = Argument(axes: seq<Axis>, memory: seq<real>) {
    predicate Fits(dims: Extents) { Distinct(axes) && |memory| == Size(axes, dims) }

    /** The element at an index. */
    function Access(at: Extents, dims: Extents): real
      requires Fits(dims) && Inside(axes, at, dims)
    {
      OffsetBound(axes, at, dims);
      memory[Offset(axes, at, dims)]
    }

    /** What a vector of consecutive positions along an axis reads: a strided load, or one repeated element. */
    function Lanes(at: Extents, dims: Extents, axis: Axis, lanes: nat): (r: seq<real>)
      requires Fits(dims) && lanes > 0 && Inside(axes, Moved(at, axis, lanes - 1), dims)
      ensures |r| == lanes
    {
      LaneReach(at, dims, axis, lanes - 1, 0);
      if axis in axes then
        forall i: nat | i < lanes ensures Reach(Offset(axes, at, dims), Stride(axes, axis, dims), i) < |memory| {
          LaneReach(at, dims, axis, lanes - 1, i);
        }
        Strided(memory, Offset(axes, at, dims), Stride(axes, axis, dims), lanes)
      else seq(lanes, i => memory[Offset(axes, at, dims)])
    }

    /** The emitted vector access: a strided load from the row-major offset, or one element repeated. */
    method LoadLanes(at: Extents, dims: Extents, axis: Axis, lanes: nat) returns (r: seq<real>)
      requires Fits(dims) && lanes > 0 && Inside(axes, Moved(at, axis, lanes - 1), dims)
      ensures r == Lanes(at, dims, axis, lanes)
    {
      hide Offset, Stride, Scale;
      LaneReach(at, dims, axis, lanes - 1, 0);
      var offset := ArrayOffset(axes, at, dims);
      if axis in axes {
        var stride := AxisStride(axes, axis, dims);
        forall i: nat | i < lanes ensures Reach(offset, stride, i) < |memory| {
          LaneReach(at, dims, axis, lanes - 1, i);
        }
        r := LoadStrided(memory, offset, stride, lanes);
      } else {
        r := seq(lanes, i => memory[offset]);
      }
    }

    /** Every position up to the far end of a vector is inside the tensor, i strides from its start. */
    lemma LaneReach(at: Extents, dims: Extents, axis: Axis, far: nat, i: nat)
      requires Fits(dims) && i <= far && Inside(axes, Moved(at, axis, far), dims)
      ensures Inside(axes, Moved(at, axis, i), dims)
      ensures Offset(axes, Moved(at, axis, i), dims) < |memory|
      ensures Offset(axes, Moved(at, axis, i), dims)
           == if axis in axes then Reach(Offset(axes, at, dims), Stride(axes, axis, dims), i)
              else Offset(axes, at, dims)
    {
      InsideBefore(axes, at, dims, axis, far, i);
      OffsetBound(axes, Moved(at, axis, i), dims);
      OffsetMoves(axes, at, dims, axis, i);
    }

    /** Lane i of a vector load is the element i positions further along the axis. */
    lemma LaneIsAccess(at: Extents, dims: Extents, axis: Axis, lanes: nat, i: nat)
      requires Fits(dims) && i < lanes && Inside(axes, Moved(at, axis, lanes - 1), dims)
      ensures Inside(axes, Moved(at, axis, i), dims)
      ensures Lanes(at, dims, axis, lanes)[i] == Access(Moved(at, axis, i), dims)
    {
      hide Offset, Stride;
      LaneReach(at, dims, axis, lanes - 1, i);
    }
  }

  /** The vectors that code along an axis binds to all its arguments. */
  method LoadArguments(arguments: map<string, Argument>, at: Extents, dims: Extents, axis: Axis, lanes: nat)
    returns (loads: map<string, seq<real>>)
    requires lanes > 0
    requires forall name :: name in arguments ==>
      arguments[name].Fits(dims) && Inside(arguments[name].axes, Moved(at, axis, lanes - 1), dims)
    ensures loads.Keys == arguments.Keys
    ensures forall name :: name in arguments ==> loads[name] == arguments[name].Lanes(at, dims, axis, lanes)
  {
    hide Argument.Fits, Inside, Argument.Lanes;
    loads := map[];
    var rest := arguments.Keys;
    while rest != {}
      invariant rest <= arguments.Keys && loads.Keys == arguments.Keys - rest
      invariant forall name :: name in loads ==> loads[name] == arguments[name].Lanes(at, dims, axis, lanes)
      decreases |rest|
    {
      var name :| name in rest;
      var r := arguments[name].LoadLanes(at, dims, axis, lanes);
      loads := loads[name := r];
      rest := rest - {name};
    }
  }

  lemma NoAxes(at: Extents, dims: Extents, axis: Axis, i: nat)
    ensures Offset([], Moved(at, axis, i), dims) == Offset([], at, dims)
  {
  }

  lemma InsideBefore(axes: seq<Axis>, at: Extents, dims: Extents, axis: Axis, far: nat, i: nat)
    requires i <= far && Inside(axes, Moved(at, axis, far), dims)
    ensures Inside(axes, Moved(at, axis, i), dims)
  {
    forall k | 0 <= k < |axes| ensures Moved(at, axis, i)(axes[k]) < dims(axes[k]) {
      assert Moved(at, axis, far)(axes[k]) < dims(axes[k]);
    }
  }
}
