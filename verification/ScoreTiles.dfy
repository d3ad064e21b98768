/** The score tile shared by the attention kernels: TILE_Q rows of TILE_K float cells, and its product with V. */
module ScoreTiles {
  import opened Arrays
  import opened Vectors
  import opened Softmax

  function Value(cell: Ext): real {
    if cell.Fin? then cell.r else 0.0
  }

  ghost function Values(row: seq<Ext>): (r: Vec)
    ensures |r| == |row|
  {
    seq(|row|, n requires 0 <= n < |row| => Value(row[n]))
  }

  /** The value rows all have the given width. */
  ghost predicate AllWidth(v: seq<Vec>, width: nat) {
    forall n :: 0 <= n < |v| ==> |v[n]| == width
  }

  /** Component dv of every value row. */
  ghost function Component(v: seq<Vec>, width: nat, dv: nat): (x: Vec)
    requires AllWidth(v, width) && dv < width
    ensures |x| == |v|
  {
    seq(|v|, n requires 0 <= n < |v| => v[n][dv])
  }

  /** How far a query block looks when its mask is known to be causal. */
  function KeyLimit(keys: nat, causal: bool, queryStart: int, mValid: nat): int {
    if causal && queryStart + mValid < keys then queryStart + mValid else keys
  }

  /** Adds the weighted value rows of one tile to the output rows. */
  method PvTile(weights: array2<Ext>, v: seq<Vec>, output: array2<real>, mValid: nat)
    requires mValid <= weights.Length0 && mValid <= output.Length0 && |v| <= weights.Length1
    requires AllWidth(v, output.Length1)
    modifies output
    ensures forall m, dv :: 0 <= m < mValid && 0 <= dv < output.Length1 ==>
      output[m, dv] == old(output[m, dv]) + DotN(Values(Row(weights, m)), Component(v, output.Length1, dv), |v|)
    ensures forall m, dv :: mValid <= m < output.Length0 && 0 <= dv < output.Length1 ==>
      output[m, dv] == old(output[m, dv])
  {
    for dv := 0 to output.Length1
      invariant forall m, e :: 0 <= m < mValid && 0 <= e < dv ==>
        output[m, e] == old(output[m, e]) + DotN(Values(Row(weights, m)), Component(v, output.Length1, e), |v|)
      invariant forall m, e :: 0 <= m < output.Length0 && 0 <= e < output.Length1 && (mValid <= m || dv <= e) ==>
        output[m, e] == old(output[m, e])
    {
      for m := 0 to mValid
        invariant forall i, e :: 0 <= i < mValid && 0 <= e < output.Length1 && (e < dv || (e == dv && i < m)) ==>
          output[i, e] == old(output[i, e]) + DotN(Values(Row(weights, i)), Component(v, output.Length1, e), |v|)
        invariant forall i, e ::
          (0 <= i < output.Length0 && 0 <= e < output.Length1 && (mValid <= i || dv < e || (e == dv && m <= i))) ==>
          output[i, e] == old(output[i, e])
      {
        output[m, dv] := PvElement(output[m, dv], weights, v, output.Length1, m, dv);
      }
    }
  }

  method PvElement(element: real, weights: array2<Ext>, v: seq<Vec>, ghost width: nat, m: nat, dv: nat)
    returns (total: real)
    requires m < weights.Length0 && |v| <= weights.Length1 && AllWidth(v, width) && dv < width
    ensures total == element + DotN(Values(Row(weights, m)), Component(v, width, dv), |v|)
  {
    total := element;
    ghost var row := Values(Row(weights, m));
    for n := 0 to |v|
      invariant total == element + DotN(row, Component(v, width, dv), n)
    {
      total := total + Value(weights[m, n]) * v[n][dv];
    }
  }

  /** Multiplies one output row in place. */
  method ScaleRow(output: array2<real>, m: nat, scale: real)
    requires m < output.Length0
    modifies output
    ensures forall i, dv :: 0 <= i < output.Length0 && 0 <= dv < output.Length1 ==>
      output[i, dv] == if i == m then old(output[i, dv]) * scale else old(output[i, dv])
  {
    for dv := 0 to output.Length1
      invariant forall i, e :: 0 <= i < output.Length0 && 0 <= e < output.Length1 ==>
        output[i, e] == if i == m && e < dv then old(output[i, e]) * scale else old(output[i, e])
    {
      output[m, dv] := output[m, dv] * scale;
    }
  }

  method ClearRows(output: array2<real>, mValid: nat)
    requires mValid <= output.Length0
    modifies output
    ensures forall m, dv :: 0 <= m < mValid && 0 <= dv < output.Length1 ==> output[m, dv] == 0.0
  {
    for m := 0 to mValid
      invariant forall i, dv :: 0 <= i < m && 0 <= dv < output.Length1 ==> output[i, dv] == 0.0
    {
      for dv := 0 to output.Length1
        invariant forall i, e :: 0 <= i < mValid && 0 <= e < output.Length1 && (i < m || (i == m && e < dv)) ==>
          output[i, e] == 0.0
      {
        output[m, dv] := 0.0;
      }
    }
  }
}
