/** The block loops shared by the chunked and the delta lowerings. Float buffers are
    arrays of reals; a row-major tile is a two-dimensional array. */
module LinearBlocks {
  import opened Arrays
  import opened Vectors
  import opened ScanReference
  import opened BlockAlgebra

  ghost function View(a: array2<real>): (m: Matrix)
    reads a
    ensures IsMatrix(m, a.Length0, a.Length1)
    ensures forall d :: 0 <= d < a.Length0 ==> m[d] == Row(a, d)
  {
    seq(a.Length0, d requires 0 <= d < a.Length0 reads a => Row(a, d))
  }

  lemma ViewColumn(a: array2<real>, dv: nat)
    requires dv < a.Length1
    ensures Column(View(a), a.Length0, a.Length1, dv) == Col(a, dv)
  {
  }

  /** The running gate products: prefix for reads, suffix for writes, all of them for the block. */
  method DecayProducts(decay: Vec, prefix: array<real>, suffix: array<real>, timing: Timing)
    returns (blockScale: real)
    requires |decay| <= prefix.Length && |decay| <= suffix.Length && prefix != suffix
    modifies prefix, suffix
    ensures blockScale == Prod(decay, 0, |decay|)
    ensures forall m :: 0 <= m < |decay| ==>
      prefix[m] == Prod(decay, 0, if timing.Before? then m else m + 1)
    ensures forall j :: 0 <= j < |decay| ==> suffix[j] == Prod(decay, j + 1, |decay|)
  {
    var running := 1.0;
    for m := 0 to |decay|
      invariant running == Prod(decay, 0, m)
      invariant forall i :: 0 <= i < m ==> prefix[i] == Prod(decay, 0, if timing.Before? then i else i + 1)
    {
      if timing.Before? { prefix[m] := running; }
      running := running * decay[m];
      if timing.After? { prefix[m] := running; }
    }
    blockScale := running;
    running := 1.0;
    for j := |decay| downto 0
      invariant running == Prod(decay, j, |decay|)
      invariant forall i :: 0 <= i < |decay| ==> prefix[i] == Prod(decay, 0, if timing.Before? then i else i + 1)
      invariant forall i :: j <= i < |decay| ==> suffix[i] == Prod(decay, i + 1, |decay|)
    {
      suffix[j] := running;
      ProdLeft(decay, j, |decay|);
      running := running * decay[j];
    }
  }

  lemma ScaledDotStep(scale: real, x: Vec, y: Vec, n: nat)
    requires n < |x| && n < |y|
    ensures Times(scale, DotN(x, y, n)) + Times(Times(x[n], scale), y[n]) == Times(scale, DotN(x, y, n + 1))
  {
    assert scale * (DotN(x, y, n) + x[n] * y[n]) == scale * DotN(x, y, n) + (x[n] * scale) * y[n];
  }

  lemma ScaledDotEmpty(scale: real, x: Vec, y: Vec)
    ensures Times(scale, DotN(x, y, 0)) == 0.0
  {
  }

  /** Reads the state with every valid row of q, each scaled; rows past the tail are computed
      from a clamped query and a stale scale, but never stored. */
  method ReadoutBlock(q: seq<Vec>, state: array2<real>, output: array2<real>, rowScale: array<real>)
    requires 0 < |q| <= rowScale.Length == output.Length0 && output.Length1 == state.Length1
    requires AllHeight(q, state.Length0) && output != state
    modifies output
    ensures forall m, dv :: 0 <= m < |q| && 0 <= dv < output.Length1 ==>
      output[m, dv] == Times(rowScale[m], Dot(q[m], Col(state, dv)))
    ensures forall m, dv :: |q| <= m < output.Length0 && 0 <= dv < output.Length1 ==>
      output[m, dv] == old(output[m, dv])
  {
    var total := new real[rowScale.Length];
    for dv := 0 to output.Length1
      invariant forall m, e :: 0 <= m < |q| && 0 <= e < dv ==>
        output[m, e] == Times(rowScale[m], Dot(q[m], Col(state, e)))
      invariant forall m, e :: 0 <= m < output.Length0 && 0 <= e < output.Length1 && (|q| <= m || dv <= e) ==>
        output[m, e] == old(output[m, e])
    {
      ReadoutColumn(q, state, dv, rowScale, total);
      StoreRows(total, output, dv, |q|);
    }
  }

  /** Stores the valid rows of an accumulator column. */
  method StoreRows(total: array<real>, output: array2<real>, dv: nat, rows: nat)
    requires rows <= total.Length == output.Length0 && dv < output.Length1
    modifies output
    ensures forall m, e :: 0 <= m < output.Length0 && 0 <= e < output.Length1 ==>
      output[m, e] == if m < rows && e == dv then total[m] else old(output[m, e])
  {
    for m := 0 to total.Length
      invariant forall i, e :: 0 <= i < output.Length0 && 0 <= e < output.Length1 ==>
        output[i, e] == if i < m && i < rows && e == dv then total[i] else old(output[i, e])
    {
      if m < rows { output[m, dv] := total[m]; }
    }
  }

  method ReadoutColumn(q: seq<Vec>, state: array2<real>, dv: nat, rowScale: array<real>, total: array<real>)
    requires 0 < |q| <= rowScale.Length == total.Length && dv < state.Length1
    requires AllHeight(q, state.Length0) && total != rowScale
    modifies total
    ensures forall m :: 0 <= m < |q| ==> total[m] == Times(rowScale[m], Dot(q[m], Col(state, dv)))
  {
    hide Times, DotN;
    for m := 0 to total.Length
      invariant forall i :: 0 <= i < m ==> total[i] == 0.0
    {
      total[m] := 0.0;
    }
    ghost var column := Col(state, dv);
    forall m | 0 <= m < |q| ensures total[m] == Times(rowScale[m], DotN(q[m], column, 0)) {
      ScaledDotEmpty(rowScale[m], q[m], column);
    }
    for d := 0 to state.Length0
      invariant forall m :: 0 <= m < |q| ==> total[m] == Times(rowScale[m], DotN(q[m], column, d))
    {
      forall m | 0 <= m < |q| {
        ScaledDotStep(rowScale[m], q[m], column, d);
      }
      AccumulateRows(q, d, state[d, dv], rowScale, total);
    }
  }

  /** One state element into every accumulator; rows past the tail clamp to query row zero. */
  method AccumulateRows(q: seq<Vec>, d: nat, value: real, rowScale: array<real>, total: array<real>)
    requires 0 < |q| <= rowScale.Length == total.Length && total != rowScale
    requires forall m :: 0 <= m < |q| ==> d < |q[m]|
    modifies total
    ensures forall m :: 0 <= m < |q| ==> total[m] == old(total[m]) + Times(Times(q[m][d], rowScale[m]), value)
  {
    for m := 0 to total.Length
      invariant forall i :: 0 <= i < m && i < |q| ==>
        total[i] == old(total[i]) + Times(Times(q[i][d], rowScale[i]), value)
      invariant forall i :: m <= i < total.Length ==> total[i] == old(total[i])
    {
      var row := if m < |q| then q[m] else q[0];
      total[m] := total[m] + (row[d] * rowScale[m]) * value;
    }
  }

  lemma DotStep(x: Vec, y: Vec, n: nat)
    requires n < |x| && n < |y|
    ensures DotN(x, y, n + 1) == DotN(x, y, n) + Times(x[n], y[n])
  {
  }

  /** Adds weights * values to the output. The reduction walks only the valid rows; the
      accumulators of tail rows are loaded and computed, never stored. */
  method ValuesBlock(weights: array2<real>, values: array2<real>, output: array2<real>, rows: nat)
    requires rows <= weights.Length0 == weights.Length1 == values.Length0 == output.Length0
    requires values.Length1 == output.Length1 && output != weights && output != values
    modifies output
    ensures forall m, dv :: 0 <= m < rows && 0 <= dv < output.Length1 ==>
      output[m, dv] == old(output[m, dv]) + DotN(Row(weights, m), Col(values, dv), rows)
    ensures forall m, dv :: rows <= m < output.Length0 && 0 <= dv < output.Length1 ==>
      output[m, dv] == old(output[m, dv])
  {
    var total := new real[output.Length0];
    for dv := 0 to output.Length1
      invariant forall m, e :: 0 <= m < rows && 0 <= e < dv ==>
        output[m, e] == old(output[m, e]) + DotN(Row(weights, m), Col(values, e), rows)
      invariant forall m, e :: 0 <= m < output.Length0 && 0 <= e < output.Length1 && (rows <= m || dv <= e) ==>
        output[m, e] == old(output[m, e])
    {
      ValuesColumn(weights, values, output, dv, rows, total);
      StoreRows(total, output, dv, rows);
    }
  }

  method ValuesColumn(
    weights: array2<real>, values: array2<real>, output: array2<real>, dv: nat, rows: nat, total: array<real>)
    requires rows <= weights.Length0 == weights.Length1 == values.Length0 == output.Length0 == total.Length
    requires dv < values.Length1 == output.Length1
    modifies total
    ensures forall m :: 0 <= m < rows ==>
      total[m] == output[m, dv] + DotN(Row(weights, m), Col(values, dv), rows)
  {
    hide Times, DotN;
    for m := 0 to total.Length
      invariant forall i :: 0 <= i < m ==> total[i] == output[i, dv]
    {
      total[m] := output[m, dv];
    }
    ghost var column := Col(values, dv);
    forall m | 0 <= m < rows ensures DotN(Row(weights, m), column, 0) == 0.0 {
      DotEmpty(Row(weights, m), column);
    }
    for j := 0 to rows
      invariant forall m :: 0 <= m < rows ==> total[m] == output[m, dv] + DotN(Row(weights, m), column, j)
    {
      forall m | 0 <= m < rows {
        DotStep(Row(weights, m), column, j);
      }
      AccumulateWeights(weights, j, values[j, dv], total);
    }
  }

  lemma DotEmpty(x: Vec, y: Vec)
    ensures DotN(x, y, 0) == 0.0
  {
  }

  method AccumulateWeights(weights: array2<real>, j: nat, value: real, total: array<real>)
    requires total.Length == weights.Length0 && j < weights.Length1
    modifies total
    ensures forall m :: 0 <= m < total.Length ==> total[m] == old(total[m]) + Times(weights[m, j], value)
  {
    for m := 0 to total.Length
      invariant forall i :: 0 <= i < m ==> total[i] == old(total[i]) + Times(weights[i, j], value)
      invariant forall i :: m <= i < total.Length ==> total[i] == old(total[i])
    {
      total[m] := total[m] + weights[m, j] * value;
    }
  }

  /** The decayed key components k[j][d] * suffix[j] that write element row d. */
  ghost function WriteWeights(k: seq<Vec>, suffix: seq<real>, d: nat): (r: Vec)
    requires |suffix| >= |k| && forall j :: 0 <= j < |k| ==> d < |k[j]|
    ensures |r| == |k|
  {
    seq(|k|, j requires 0 <= j < |k| => Times(k[j][d], suffix[j]))
  }

  /** Folds a block of values into the state, one element at a time. */
  method StateUpdateBlock(state: array2<real>, values: array2<real>, k: seq<Vec>, suffix: array<real>, blockScale: real)
    requires |k| <= suffix.Length && |k| <= values.Length0 && values.Length1 == state.Length1
    requires AllHeight(k, state.Length0) && state != values
    modifies state
    ensures forall d, dv :: 0 <= d < state.Length0 && 0 <= dv < state.Length1 ==>
      state[d, dv] == Times(blockScale, old(state[d, dv])) + DotN(WriteWeights(k, suffix[..], d), Col(values, dv), |k|)
  {
    hide Times, DotN;
    for d := 0 to state.Length0
      invariant forall i, e :: 0 <= i < d && 0 <= e < state.Length1 ==>
        state[i, e] == Times(blockScale, old(state[i, e])) + DotN(WriteWeights(k, suffix[..], i), Col(values, e), |k|)
      invariant forall i, e :: d <= i < state.Length0 && 0 <= e < state.Length1 ==> state[i, e] == old(state[i, e])
    {
      for dv := 0 to state.Length1
        invariant forall i, e :: 0 <= i < state.Length0 && 0 <= e < state.Length1 && (i < d || (i == d && e < dv)) ==>
          state[i, e] == Times(blockScale, old(state[i, e])) + DotN(WriteWeights(k, suffix[..], i), Col(values, e), |k|)
        invariant forall i, e :: 0 <= i < state.Length0 && 0 <= e < state.Length1 && !(i < d || (i == d && e < dv)) ==>
          state[i, e] == old(state[i, e])
      {
        state[d, dv] := UpdateElement(state[d, dv], values, k, suffix, blockScale, d, dv);
      }
    }
  }

  method UpdateElement(
    element: real, values: array2<real>, k: seq<Vec>, suffix: array<real>, blockScale: real, d: nat, dv: nat)
    returns (acc: real)
    requires |k| <= suffix.Length && |k| <= values.Length0 && dv < values.Length1
    requires forall j :: 0 <= j < |k| ==> d < |k[j]|
    ensures acc == Times(blockScale, element) + DotN(WriteWeights(k, suffix[..], d), Col(values, dv), |k|)
  {
    acc := element * blockScale;
    ghost var weights := WriteWeights(k, suffix[..], d);
    for j := 0 to |k|
      invariant acc == Times(blockScale, element) + DotN(weights, Col(values, dv), j)
    {
      acc := acc + (k[j][d] * suffix[j]) * values[j, dv];
    }
  }

  /** Forward substitution in place: afterwards (I + L) w is what w was. */
  method DeltaSolve(w: array2<real>, l: array2<real>, rows: nat)
    requires rows <= w.Length0 == l.Length0 == l.Length1 && w != l
    modifies w
    ensures forall m, dv :: 0 <= m < rows && 0 <= dv < w.Length1 ==>
      w[m, dv] + DotN(Row(l, m), Col(w, dv), m) == old(w[m, dv])
    ensures forall m, dv :: rows <= m < w.Length0 && 0 <= dv < w.Length1 ==> w[m, dv] == old(w[m, dv])
  {
    for m := 0 to rows
      invariant forall i, dv :: 0 <= i < m && 0 <= dv < w.Length1 ==>
        w[i, dv] + DotN(Row(l, i), Col(w, dv), i) == old(w[i, dv])
      invariant forall i, dv :: m <= i < w.Length0 && 0 <= dv < w.Length1 ==> w[i, dv] == old(w[i, dv])
    {
      SolveRow(w, l, m);
    }
  }

  method SolveRow(w: array2<real>, l: array2<real>, m: nat)
    requires m < w.Length0 == l.Length0 == l.Length1 && w != l
    modifies w
    ensures forall i, dv :: 0 <= i < w.Length0 && i != m && 0 <= dv < w.Length1 ==> w[i, dv] == old(w[i, dv])
    ensures forall dv :: 0 <= dv < w.Length1 ==> w[m, dv] + DotN(Row(l, m), Col(w, dv), m) == old(w[m, dv])
    ensures forall i, dv :: 0 <= i < m && 0 <= dv < w.Length1 ==>
      DotN(Row(l, i), Col(w, dv), i) == old(DotN(Row(l, i), Col(w, dv), i))
  {
    hide Times, DotN;
    ghost var row := Row(l, m);
    forall dv | 0 <= dv < w.Length1 ensures DotN(row, Col(w, dv), 0) == 0.0 { DotEmpty(row, Col(w, dv)); }
    for j := 0 to m
      invariant forall i, dv :: 0 <= i < w.Length0 && i != m && 0 <= dv < w.Length1 ==> w[i, dv] == old(w[i, dv])
      invariant forall dv :: 0 <= dv < w.Length1 ==> w[m, dv] + DotN(row, old(Col(w, dv)), j) == old(w[m, dv])
    {
      forall dv | 0 <= dv < w.Length1
        ensures DotN(row, old(Col(w, dv)), j + 1) == DotN(row, old(Col(w, dv)), j) + Times(l[m, j], old(w[j, dv]))
      {
        DotStep(row, old(Col(w, dv)), j);
      }
      SubtractRow(w, m, j, l[m, j]);
    }
    forall dv | 0 <= dv < w.Length1 ensures DotN(row, Col(w, dv), m) == DotN(row, old(Col(w, dv)), m) {
      DotCongruent(row, Col(w, dv), row, old(Col(w, dv)), m);
    }
    forall i, dv | 0 <= i < m && 0 <= dv < w.Length1
      ensures DotN(Row(l, i), Col(w, dv), i) == old(DotN(Row(l, i), Col(w, dv), i))
    {
      assert Row(l, i) == old(Row(l, i));
      DotCongruent(Row(l, i), Col(w, dv), Row(l, i), old(Col(w, dv)), i);
    }
  }

  /** Row m minus scale times row j. */
  method SubtractRow(w: array2<real>, m: nat, j: nat, scale: real)
    requires m < w.Length0 && j < w.Length0 && m != j
    modifies w
    ensures forall i, dv :: 0 <= i < w.Length0 && i != m && 0 <= dv < w.Length1 ==> w[i, dv] == old(w[i, dv])
    ensures forall dv :: 0 <= dv < w.Length1 ==> w[m, dv] == old(w[m, dv]) - Times(scale, old(w[j, dv]))
  {
    for dv := 0 to w.Length1
      invariant forall i, e :: 0 <= i < w.Length0 && 0 <= e < w.Length1 && (i != m || dv <= e) ==>
        w[i, e] == old(w[i, e])
      invariant forall e :: 0 <= e < dv ==> w[m, e] == old(w[m, e]) - Times(scale, old(w[j, e]))
    {
      w[m, dv] := w[m, dv] + (-scale) * w[j, dv];
    }
  }

  // ---- Dot products in vector lanes ------------------------------------------

  function LaneSum(total: seq<real>): real {
    if total == [] then 0.0 else LaneSum(total[..|total| - 1]) + total[|total| - 1]
  }

  lemma {:induction false} LaneSumAt(total: seq<real>, n: nat)
    requires n < |total|
    ensures LaneSum(total[..n + 1]) == LaneSum(total[..n]) + total[n]
  {
    assert total[..n + 1][..n] == total[..n];
  }

  /** One fused multiply-add of every lane adds exactly the next chunk of the dot product. */
  lemma {:induction false} LanesAdvance(before: seq<real>, after: seq<real>, x: Vec, y: Vec, i: nat, n: nat)
    requires n <= |before| == |after| && i + |before| <= |x| == |y|
    requires forall lane :: 0 <= lane < |before| ==> after[lane] == before[lane] + Times(x[i + lane], y[i + lane])
    ensures LaneSum(after[..n]) == LaneSum(before[..n]) + DotN(x, y, i + n) - DotN(x, y, i)
  {
    if n > 0 {
      LanesAdvance(before, after, x, y, i, n - 1);
      LaneSumAt(before, n - 1);
      LaneSumAt(after, n - 1);
    }
  }

  lemma {:induction false} LaneSumZero(total: seq<real>)
    requires forall lane :: 0 <= lane < |total| ==> total[lane] == 0.0
    ensures LaneSum(total) == 0.0
  {
    if total != [] { LaneSumZero(total[..|total| - 1]); }
  }

  method ReduceAdd(total: array<real>) returns (sum: real)
    ensures sum == LaneSum(total[..])
  {
    sum := 0.0;
    for lane := 0 to total.Length
      invariant sum == LaneSum(total[..lane])
    {
      LaneSumAt(total[..], lane);
      assert total[..][..lane + 1] == total[..lane + 1] && total[..][..lane] == total[..lane];
      sum := sum + total[lane];
    }
    assert total[..total.Length] == total[..];
  }

  /** The vector body accumulates lane by lane, the scalar tail finishes; any lane count gives the dot product. */
  method DotProduct(x: Vec, y: Vec, lanes: nat) returns (result: real)
    requires |x| == |y| && lanes > 0
    ensures result == Dot(x, y)
  {
    var total := new real[lanes](i => 0.0);
    var i := 0;
    LaneSumZero(total[..]);
    while i + lanes <= |x|
      invariant 0 <= i <= |x|
      invariant LaneSum(total[..]) == DotN(x, y, i)
    {
      ghost var before := total[..];
      for lane := 0 to lanes
        invariant forall l :: 0 <= l < lane ==> total[l] == before[l] + Times(x[i + l], y[i + l])
        invariant forall l :: lane <= l < lanes ==> total[l] == before[l]
      {
        total[lane] := total[lane] + x[i + lane] * y[i + lane];
      }
      LanesAdvance(before, total[..], x, y, i, lanes);
      assert before[..lanes] == before && total[..][..lanes] == total[..];
      i := i + lanes;
    }
    result := ReduceAdd(total);
    while i < |x|
      invariant 0 <= i <= |x| && result == DotN(x, y, i)
    {
      result := result + x[i] * y[i];
      i := i + 1;
    }
  }

  // ---- Leaving a block -------------------------------------------------------

  method CopyRows(source: array2<real>, output: array2<real>, sb: nat, rows: nat)
    requires rows <= source.Length0 && sb + rows <= output.Length0 && source.Length1 == output.Length1
    requires source != output
    modifies output
    ensures forall s, dv :: 0 <= s < output.Length0 && 0 <= dv < output.Length1 ==>
      output[s, dv] == if sb <= s < sb + rows then source[s - sb, dv] else old(output[s, dv])
  {
    for m := 0 to rows
      invariant forall s, dv :: 0 <= s < output.Length0 && 0 <= dv < output.Length1 ==>
        output[s, dv] == if sb <= s < sb + m then source[s - sb, dv] else old(output[s, dv])
    {
      for dv := 0 to output.Length1
        invariant forall s, e :: 0 <= s < output.Length0 && 0 <= e < output.Length1 ==>
          output[s, e] == if sb <= s < sb + m || (s == sb + m && e < dv) then source[s - sb, e] else old(output[s, e])
      {
        output[sb + m, dv] := source[m, dv];
      }
    }
  }

  method ScaleRows(w: array2<real>, beta: Vec)
    requires |beta| <= w.Length0
    modifies w
    ensures forall m, dv :: 0 <= m < w.Length0 && 0 <= dv < w.Length1 ==>
      w[m, dv] == if m < |beta| then Times(beta[m], old(w[m, dv])) else old(w[m, dv])
  {
    for m := 0 to |beta|
      invariant forall i, dv :: 0 <= i < w.Length0 && 0 <= dv < w.Length1 ==>
        w[i, dv] == if i < m then Times(beta[i], old(w[i, dv])) else old(w[i, dv])
    {
      for dv := 0 to w.Length1
        invariant forall i, e :: 0 <= i < w.Length0 && 0 <= e < w.Length1 ==>
          w[i, e] == if i < m || (i == m && e < dv) then Times(beta[i], old(w[i, e])) else old(w[i, e])
      {
        w[m, dv] := w[m, dv] * beta[m];
      }
    }
  }

  /** Folding the block's written values u into the state leaves every column where the recurrence does. */
  method FoldState(
    state: array2<real>, values: array2<real>, a: Vec, k: seq<Vec>, suffix: array<real>, blockScale: real)
    requires |a| == |k| <= suffix.Length && |k| <= values.Length0 && values.Length1 == state.Length1
    requires AllHeight(k, state.Length0) && state != values
    requires blockScale == Prod(a, 0, |a|)
    requires forall j :: 0 <= j < |a| ==> suffix[j] == Prod(a, j + 1, |a|)
    modifies state
    ensures forall dv :: 0 <= dv < state.Length1 ==>
      Col(state, dv) == AffineColumn(a, Col(values, dv)[..|a|], k, old(Col(state, dv)), |a|)
  {
    ghost var n, tail := |a|, suffix[..];
    StateUpdateBlock(state, values, k, suffix, blockScale);
    forall dv | 0 <= dv < state.Length1
      ensures Col(state, dv) == AffineColumn(a, Col(values, dv)[..n], k, old(Col(state, dv)), n)
    {
      assert suffix[..] == tail;
      FoldColumn(Col(state, dv), old(Col(state, dv)), Col(values, dv), a, k, tail, n);
    }
  }

  lemma FoldColumn(after: Vec, c: Vec, values: Vec, a: Vec, k: seq<Vec>, suffix: Vec, n: nat)
    requires |a| == |k| == n <= |suffix| && n <= |values| && |after| == |c| && AllHeight(k, |c|)
    requires forall j :: 0 <= j < n ==> suffix[j] == Prod(a, j + 1, n)
    requires forall d :: 0 <= d < |c| ==>
      after[d] == Times(Prod(a, 0, n), c[d]) + DotN(WriteWeights(k, suffix, d), values, n)
    ensures after == AffineColumn(a, values[..n], k, c, n)
  {
    hide Times, Prod, DotN, AffineColumn, WriteWeights;
    var column := AffineColumn(a, values[..n], k, c, n);
    forall d | 0 <= d < |c| ensures after[d] == column[d] {
      FoldElement(values, a, k, suffix, c, d, n);
    }
    assert after == column;
  }

  lemma FoldElement(values: Vec, a: Vec, k: seq<Vec>, suffix: Vec, c: Vec, d: nat, n: nat)
    requires |a| == |k| == n <= |suffix| && n <= |values| && d < |c| && AllHeight(k, |c|)
    requires forall j :: 0 <= j < n ==> suffix[j] == Prod(a, j + 1, n)
    ensures Times(Prod(a, 0, n), c[d]) + DotN(WriteWeights(k, suffix, d), values, n)
         == AffineColumn(a, values[..n], k, c, n)[d]
  {
    hide Times, Prod, DotN, AffineColumn;
    var weights, x := WriteWeights(k, suffix, d), Components(k, |c|, d);
    DotCongruent(weights, values, weights, values[..n], n);
    StateBridge(weights, values[..n], a, k, c, d, x, n);
  }

  /** A block output is the scan's readout, whichever rows of scores are stale. */
  lemma BlockOutput(row: Vec, w: Vec, a: Vec, b: Vec, y: Vec, k: seq<Vec>, c: Vec, n: nat, t: nat)
    requires |b| == |a| == |k| == n <= |row| && n <= |w| && AllHeight(k, |c|) && |y| == |c| && t <= n
    requires forall j :: 0 <= j < t ==> row[j] == ScoreAt(a, b, y, k, t, j)
    requires forall j :: t <= j < n ==> row[j] == 0.0
    ensures Times(Prod(a, 0, t), Dot(y, c)) + DotN(row, w, n)
         == Dot(y, AffineColumn(a, Weighted(b, w[..n]), k, c, t))
  {
    hide Times, Dot, DotN, ScoreAt, Prod, AffineColumn, Weighted;
    DotCongruent(row, w, row, w[..n], n);
    OutputBridge(row, w[..n], a, b, y, k, c, n, t);
  }

  /** Columns and readouts that follow the column recurrence are the scan's state and outputs. */
  lemma ScanFromColumns(
    tokens: seq<Token>, timing: Timing, m0: Matrix, after: Matrix, outputs: Matrix, n: nat, height: nat, width: nat)
    requires n == |tokens| == |outputs| && TokensFit(tokens, height, width)
    requires IsMatrix(m0, height, width) && IsMatrix(after, height, width)
    requires forall t :: 0 <= t < n ==> |outputs[t]| == width
    requires forall dv :: 0 <= dv < width ==>
      Column(after, height, width, dv) == ColumnAfter(tokens, n, Column(m0, height, width, dv), height, width, dv)
    requires forall t, dv :: 0 <= t < n && 0 <= dv < width ==>
      outputs[t][dv] == Dot(tokens[t].query,
        ColumnAfter(tokens, if timing.Before? then t else t + 1, Column(m0, height, width, dv), height, width, dv))
    ensures after == StateAfter(tokens, n, m0, height, width)
    ensures forall t :: 0 <= t < n ==> outputs[t] == OutputAt(tokens, t, timing, m0, height, width)
  {
    hide Dot, ColumnSteps, ApplySteps, ColumnAfter, StateAfter;
    forall dv | 0 <= dv < width
      ensures Column(after, height, width, dv) == Column(StateAfter(tokens, n, m0, height, width), height, width, dv)
    {
      ColumnsIndependent(tokens, n, m0, height, width, dv);
    }
    SameColumns(after, StateAfter(tokens, n, m0, height, width), height, width);
    forall t | 0 <= t < n ensures outputs[t] == OutputAt(tokens, t, timing, m0, height, width) {
      forall dv | 0 <= dv < width ensures outputs[t][dv] == OutputAt(tokens, t, timing, m0, height, width)[dv] {
        ColumnsIndependent(tokens, if timing.Before? then t else t + 1, m0, height, width, dv);
      }
    }
  }
}
