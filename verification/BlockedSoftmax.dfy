/** The blocked softmax kernel: key tiles folded into running maximum, sum and output rows. */
module BlockedSoftmax {
  import opened Arrays
  import opened Vectors
  import opened Softmax
  import opened ScoreTiles
  import opened Scores
  import Expressions
  import Arguments

  method ReduceMax(tile: array2<Ext>, m: nat, nValid: nat) returns (top: Ext)
    requires m < tile.Length0 && nValid <= tile.Length1
    ensures top == MaxN(Row(tile, m), nValid)
  {
    top := NegInf;
    for n := 0 to nValid
      invariant top == MaxN(Row(tile, m), n)
    {
      top := Max(top, tile[m, n]);
    }
  }

  /** Turns one row of scores into weights under the new maximum, in place. */
  method SoftmaxRow(tile: array2<Ext>, m: nat, nValid: nat, rowMax: Ext, rowSum: real, e: real -> real)
    returns (nextMax: Ext, nextSum: real, scale: real)
    requires m < tile.Length0 && nValid <= tile.Length1
    modifies tile
    ensures Tiled(e, nValid, old(Row(tile, m)), rowMax, rowSum, nextMax, nextSum, scale)
    ensures forall i, n :: 0 <= i < tile.Length0 && 0 <= n < tile.Length1 ==>
      tile[i, n] == if i == m && n < nValid then Fin(Weight(e, old(tile[i, n]), nextMax)) else old(tile[i, n])
  {
    ghost var row := Row(tile, m);
    var top := ReduceMax(tile, m, nValid);
    nextMax := Max(rowMax, top);
    scale := if rowSum > 0.0 then Weight(e, rowMax, nextMax) else 0.0;
    var total := 0.0;
    for n := 0 to nValid
      invariant total == Sum(e, row, nextMax, n)
      invariant forall i, j :: 0 <= i < tile.Length0 && 0 <= j < tile.Length1 ==>
        tile[i, j] == if i == m && j < n then Fin(Weight(e, old(tile[i, j]), nextMax)) else old(tile[i, j])
    {
      var value := tile[m, n];
      assert value == row[n];
      var result := if value == NegInf then 0.0 else Weight(e, value, nextMax);
      tile[m, n] := Fin(result);
      total := total + result;
    }
    nextSum := rowSum * scale + total;
  }

  /** What one tile does to a row's maximum and sum, and the factor it leaves for the output row. */
  ghost predicate Tiled(
    e: real -> real, nValid: nat, t: seq<Ext>, topWas: Ext, sumWas: real, top: Ext, sum: real, scale: real)
    requires nValid <= |t|
  {
    && top == Max(topWas, MaxN(t, nValid)) && scale == Rescale(e, sumWas, topWas, top)
    && sum == sumWas * scale + Sum(e, t, top, nValid)
  }

  /** One score tile of every valid row. */
  method SoftmaxTile(
    tile: array2<Ext>, rowMax: array<Ext>, rowSum: array<real>, outputScale: array<real>, nValid: nat, mValid: nat,
    e: real -> real)
    requires mValid <= tile.Length0 && nValid <= tile.Length1
    requires mValid <= rowMax.Length && mValid <= rowSum.Length && mValid <= outputScale.Length && rowSum != outputScale
    modifies tile, rowMax, rowSum, outputScale
    ensures forall m :: 0 <= m < mValid ==>
      Tiled(e, nValid, old(Row(tile, m)), old(rowMax[m]), old(rowSum[m]), rowMax[m], rowSum[m], outputScale[m])
    ensures forall m, n :: 0 <= m < mValid && 0 <= n < nValid ==>
      tile[m, n] == Fin(Weight(e, old(tile[m, n]), rowMax[m]))
  {
    hide Sum, MaxN, Weight, Rescale, Max, Tiled;
    for m := 0 to mValid
      invariant forall i :: 0 <= i < m ==>
        Tiled(e, nValid, old(Row(tile, i)), old(rowMax[i]), old(rowSum[i]), rowMax[i], rowSum[i], outputScale[i])
      invariant forall i :: m <= i < mValid ==> rowMax[i] == old(rowMax[i]) && rowSum[i] == old(rowSum[i])
      invariant forall i, n :: 0 <= i < m && 0 <= n < nValid ==>
        tile[i, n] == Fin(Weight(e, old(tile[i, n]), rowMax[i]))
      invariant forall i, n :: m <= i < tile.Length0 && 0 <= n < tile.Length1 ==> tile[i, n] == old(tile[i, n])
    {
      assert Row(tile, m) == old(Row(tile, m));
      var nextMax, nextSum, scale := SoftmaxRow(tile, m, nValid, rowMax[m], rowSum[m], e);
      rowSum[m] := nextSum;
      rowMax[m] := nextMax;
      outputScale[m] := scale;
    }
  }

  /** What a kernel row holds after the keys before kb. */
  ghost predicate RowHolds(e: real -> real, row: seq<Ext>, v: seq<Vec>, kb: nat, top: Ext, sum: real, out: Vec)
    requires kb <= |row| == |v| && AllWidth(v, |out|)
  {
    && top == MaxN(row, kb)
    && sum == Sum(e, row, top, kb)
    && forall dv :: 0 <= dv < |out| ==> out[dv] == WSum(e, row, top, Component(v, |out|, dv), kb)
  }

  lemma {:induction false} MaxPrefix(a: seq<Ext>, b: seq<Ext>, n: nat)
    requires n <= |a| && n <= |b| && forall i :: 0 <= i < n ==> a[i] == b[i]
    ensures MaxN(a, n) == MaxN(b, n)
  {
    if n > 0 { MaxPrefix(a, b, n - 1); }
  }

  lemma {:induction false} SumPrefix(e: real -> real, a: seq<Ext>, b: seq<Ext>, m: Ext, x: Vec, y: Vec, n: nat)
    requires n <= |a| && n <= |b| && n <= |x| && n <= |y|
    requires forall i :: 0 <= i < n ==> a[i] == b[i] && x[i] == y[i]
    ensures WSum(e, a, m, x, n) == WSum(e, b, m, y, n)
  {
    if n > 0 { SumPrefix(e, a, b, m, x, y, n - 1); }
  }

  /** The product of a weight row with V is the weighted sum of the scores it came from. */
  lemma {:induction false} WeightsDot(e: real -> real, cells: seq<Ext>, row: seq<Ext>, m: Ext, x: Vec, n: nat)
    requires n <= |cells| && n <= |row| && n <= |x|
    requires forall i :: 0 <= i < n ==> cells[i] == Fin(Weight(e, row[i], m))
    ensures DotN(Values(cells), x, n) == WSum(e, row, m, x, n)
  {
    if n > 0 { WeightsDot(e, cells, row, m, x, n - 1); }
  }

  /** What one tile adds to a weighted sum over the row. */
  lemma TileAdds(e: real -> real, row: seq<Ext>, t: seq<Ext>, m: Ext, x: Vec, y: Vec, kb: nat, nv: nat)
    requires kb + nv <= |row| == |x| && nv <= |t| && nv <= |y|
    requires forall i :: 0 <= i < nv ==> t[i] == row[kb + i] && y[i] == x[kb + i]
    ensures WSum(e, row, m, x, kb + nv) == WSum(e, row, m, x, kb) + WSum(e, t, m, y, nv)
  {
    SumSplits(e, row, m, x, kb, kb + nv);
    SumPrefix(e, row[kb..], t, m, x[kb..], y, nv);
  }

  /** The tile moves the running maximum to the maximum of a longer prefix. */
  lemma TopMoves(row: seq<Ext>, t: seq<Ext>, kb: nat, nv: nat)
    requires kb + nv <= |row| && nv <= |t|
    requires forall i :: 0 <= i < nv ==> t[i] == row[kb + i]
    ensures MaxN(row, kb + nv) == Max(MaxN(row, kb), MaxN(t, nv))
    ensures AtMost(MaxN(row, kb), MaxN(row, kb + nv))
  {
    MaxUpdates(row, kb, kb + nv);
    MaxPrefix(row[kb..], t, nv);
  }

  /** One weighted sum through a tile: rescaled, then extended. A rescale by zero may be skipped,
      because an empty sum means the element is zero. */
  lemma ElementStep(
    e: real -> real, row: seq<Ext>, t: seq<Ext>, x: Vec, y: Vec, kb: nat, nv: nat, out: real, scaled: real)
    requires IsExp(e) && kb + nv <= |row| == |x| && nv <= |t| && nv <= |y|
    requires forall i :: 0 <= i < nv ==> t[i] == row[kb + i] && y[i] == x[kb + i]
    requires var top := MaxN(row, kb);
      var scale := Rescale(e, Sum(e, row, top, kb), top, MaxN(row, kb + nv));
      out == WSum(e, row, top, x, kb) && scaled == if scale != 0.0 then out * scale else out
    ensures WSum(e, row, MaxN(row, kb + nv), x, kb + nv) == scaled + WSum(e, t, MaxN(row, kb + nv), y, nv)
  {
    hide IsExp, WSum, MaxN;
    var top, next := MaxN(row, kb), MaxN(row, kb + nv);
    var scale := Rescale(e, Sum(e, row, top, kb), top, next);
    TopMoves(row, t, kb, nv);
    RowMoves(e, row, next, x, kb);
    TileAdds(e, row, t, next, x, y, kb, nv);
    if scale == 0.0 {
      SumPositive(e, row, top, kb);
      if top.Fin? {
        ExpPositive(e, top.r - next.r);
      } else {
        AllMasked(e, row, top, x, kb);
      }
    }
  }

  /** A whole row through a tile. */
  lemma RowStep(
    e: real -> real, row: seq<Ext>, v: seq<Vec>, t: seq<Ext>, cells: seq<Ext>, kb: nat, nv: nat,
    top: Ext, sum: real, out: Vec, next: Ext, scale: real, nextSum: real, nextOut: Vec, width: nat)
    requires IsExp(e) && kb + nv <= |row| == |v| && nv <= |t| == |cells| && AllWidth(v, width)
    requires |out| == |nextOut| == width
    requires forall i :: 0 <= i < nv ==> t[i] == row[kb + i] && cells[i] == Fin(Weight(e, t[i], next))
    requires RowHolds(e, row, v, kb, top, sum, out)
    requires Tiled(e, nv, t, top, sum, next, nextSum, scale)
    requires forall dv :: 0 <= dv < width ==>
      nextOut[dv] == (if scale != 0.0 then out[dv] * scale else out[dv])
        + DotN(Values(cells), Component(v[kb..kb + nv], width, dv), nv)
    ensures RowHolds(e, row, v, kb + nv, next, nextSum, nextOut)
  {
    hide IsExp, WSum, MaxN, DotN, Rescale, Max;
    TopMoves(row, t, kb, nv);
    ElementStep(e, row, t, Ones(|row|), Ones(|t|), kb, nv, sum, if scale != 0.0 then sum * scale else sum);
    ZeroSum(e, row, kb, top, sum, next, scale);
    forall dv | 0 <= dv < width
      ensures nextOut[dv] == WSum(e, row, next, Component(v, width, dv), kb + nv)
    {
      var x, y := Component(v, width, dv), Component(v[kb..kb + nv], width, dv);
      ElementStep(e, row, t, x, y, kb, nv, out[dv], if scale != 0.0 then out[dv] * scale else out[dv]);
      WeightsDot(e, cells, t, next, y, nv);
    }
  }

  lemma ZeroSum(e: real -> real, row: seq<Ext>, kb: nat, top: Ext, sum: real, next: Ext, scale: real)
    requires IsExp(e) && kb <= |row| && top == MaxN(row, kb) && sum == Sum(e, row, top, kb)
    requires scale == Rescale(e, sum, top, next) && AtMost(top, next)
    ensures (if scale != 0.0 then sum * scale else sum) == sum * scale
  {
    hide IsExp, WSum, MaxN;
    SumPositive(e, row, top, kb);
    SumNonNegative(e, row, top, kb);
    if top.Fin? { ExpPositive(e, top.r - next.r); }
  }

  /** Keys past the limit are masked, so they change nothing. */
  lemma {:induction false} MaskedTail(e: real -> real, row: seq<Ext>, m: Ext, x: Vec, limit: nat, n: nat)
    requires limit <= n <= |row| && n <= |x|
    requires forall j :: limit <= j < n ==> row[j] == NegInf
    ensures MaxN(row, n) == MaxN(row, limit)
    ensures WSum(e, row, m, x, n) == WSum(e, row, m, x, limit)
  {
    if limit < n { MaskedTail(e, row, m, x, limit, n - 1); }
  }

  /** Rescales the output rows, skipping factors zero and one. */
  method RescaleRows(output: array2<real>, outputScale: array<real>, mValid: nat)
    requires mValid <= output.Length0 && mValid <= outputScale.Length
    modifies output
    ensures forall m, dv :: 0 <= m < mValid && 0 <= dv < output.Length1 ==>
      output[m, dv] == if outputScale[m] != 0.0 then old(output[m, dv]) * outputScale[m] else old(output[m, dv])
  {
    for m := 0 to mValid
      invariant forall i, dv :: 0 <= i < m && 0 <= dv < output.Length1 ==>
        output[i, dv] == if outputScale[i] != 0.0 then old(output[i, dv]) * outputScale[i] else old(output[i, dv])
      invariant forall i, dv :: m <= i < output.Length0 && 0 <= dv < output.Length1 ==>
        output[i, dv] == old(output[i, dv])
    {
      var value := outputScale[m];
      if value != 0.0 && value != 1.0 { ScaleRow(output, m, value); }
    }
  }

  /** One key tile through the softmax path: scores, running maximum and sum, rescale, weighted values. */
  method KeyTile(
    src: Source, scale: real, ghost rows: seq<seq<Ext>>, v: seq<Vec>, kb: nat, nValid: nat, tile: array2<Ext>,
    rowMax: array<Ext>, rowSum: array<real>, outputScale: array<real>, output: array2<real>, e: real -> real)
    requires IsExp(e) && src.Valid() && rows == ScaledRows(src, scale) && src.count == |v|
    requires |rows| <= tile.Length0 && nValid <= tile.Length1 == src.shape.tileK && |rows| <= output.Length0
    requires |rows| <= rowMax.Length && |rows| <= rowSum.Length && |rows| <= outputScale.Length && rowSum != outputScale
    requires kb + nValid <= |v| && kb < |v| && AllWidth(v, output.Length1)
    requires forall m :: 0 <= m < |rows| ==> RowHolds(e, rows[m], v, kb, rowMax[m], rowSum[m], Row(output, m))
    modifies tile, rowMax, rowSum, outputScale, output
    ensures forall m :: 0 <= m < |rows| ==>
      RowHolds(e, rows[m], v, kb + nValid, rowMax[m], rowSum[m], Row(output, m))
  {
    hide IsExp, WSum, Sum, MaxN, DotN, Rescale, Max, Weight, RowHolds, Source.Valid, ScaledRows, Tiled;
    LoadScores(src, scale, kb, nValid, tile);
    label Loaded:
    SoftmaxTile(tile, rowMax, rowSum, outputScale, nValid, |src.q|, e);
    RescaleRows(output, outputScale, |src.q|);
    PvTile(tile, v[kb..kb + nValid], output, |src.q|);
    forall m | 0 <= m < |rows|
      ensures RowHolds(e, rows[m], v, kb + nValid, rowMax[m], rowSum[m], Row(output, m))
    {
      CellsDot(Row(tile, m), v[kb..kb + nValid], output.Length1, nValid);
      RowStep(e, rows[m], v, old@Loaded(Row(tile, m)), Row(tile, m), kb, nValid,
              old(rowMax[m]), old(rowSum[m]), old(Row(output, m)),
              rowMax[m], outputScale[m], rowSum[m], Row(output, m), output.Length1);
    }
  }

  lemma CellsDot(cells: seq<Ext>, v: seq<Vec>, width: nat, nv: nat)
    requires |v| == nv <= |cells| && AllWidth(v, width)
    ensures forall dv :: 0 <= dv < width ==> |Component(v, width, dv)| == nv
  {
  }

  /** The loop over key tiles up to the limit; a limit at or below zero leaves the rows empty. */
  method KeyLoop(src: Source, scale: real, v: seq<Vec>, keyLimit: int, output: array2<real>, e: real -> real)
    returns (rowMax: array<Ext>, rowSum: array<real>)
    requires IsExp(e) && src.Valid() && src.count == |v|
    requires |src.q| == output.Length0 && keyLimit <= |v| && AllWidth(v, output.Length1)
    modifies output
    ensures fresh(rowMax) && fresh(rowSum) && rowMax.Length == rowSum.Length == |src.q|
    ensures forall m :: 0 <= m < |src.q| ==>
      RowHolds(e, ScaledRows(src, scale)[m], v, if keyLimit < 0 then 0 else keyLimit,
               rowMax[m], rowSum[m], Row(output, m))
  {
    hide IsExp, WSum, Sum, MaxN, RowHolds, Source.Valid, ScaledRows;
    var mValid, tileK := |src.q|, TileK(src);
    ghost var rows := ScaledRows(src, scale);
    var tile, outputScale := new Ext[mValid, tileK], new real[mValid];
    rowMax, rowSum := new Ext[mValid](i => NegInf), new real[mValid](i => 0.0);
    ClearRows(output, mValid);
    forall m | 0 <= m < mValid ensures RowHolds(e, rows[m], v, 0, rowMax[m], rowSum[m], Row(output, m)) {
      NothingSeen(e, rows[m], v, Row(output, m));
    }
    var kb := 0;
    ghost var covered := 0;
    while kb < keyLimit
      invariant 0 <= kb && covered == (if kb <= keyLimit then kb else if keyLimit < 0 then 0 else keyLimit)
      invariant covered <= |v|
      invariant forall m :: 0 <= m < mValid ==> RowHolds(e, rows[m], v, covered, rowMax[m], rowSum[m], Row(output, m))
    {
      var nValid := if keyLimit - kb < tileK then keyLimit - kb else tileK;
      KeyTile(src, scale, rows, v, kb, nValid, tile, rowMax, rowSum, outputScale, output, e);
      kb := kb + tileK;
      covered := covered + nValid;
    }
  }

  function TileK(src: Source): (tileK: nat)
    requires src.Valid()
    ensures tileK == src.shape.tileK > 0
  {
    src.shape.tileK
  }

  /** How far the rows of a source look: everything, or up to the last query when the mask is recognised as causal. */
  function LimitOf(src: Source): int {
    KeyLimit(src.count, Expressions.ImpliesCausality(src.mask), src.at(Arguments.Query) + src.queryOffset, |src.q|)
  }

  /** Keys past the limit are masked in every row. */
  lemma PastLimit(src: Source, m: nat, j: nat)
    requires src.Valid() && src.first == 0 && m < |src.q| && j < src.count && LimitOf(src) <= j
    ensures src.Row(m)[j] == NegInf
  {
    hide Source.Active, Source.Modified, Source.Raw;
    if src.Row(m)[j].Fin? { src.CausalRow(m, j); }
  }

  /** Query row m is at or past key j. */
  predicate Reaches(src: Source, m: nat, j: nat) { j <= src.at(Arguments.Query) + m + src.queryOffset }

  /** The limit cuts no more than that: a key is before it exactly when the mask is not recognised as causal, or some
      query of the block is at or past the key. */
  lemma LimitReached(src: Source, j: nat)
    requires |src.q| > 0 && j < src.count
    ensures j < LimitOf(src) <==>
      !Expressions.ImpliesCausality(src.mask) || exists m: nat :: m < |src.q| && Reaches(src, m, j)
  {
    if j < LimitOf(src) && Expressions.ImpliesCausality(src.mask) { assert Reaches(src, |src.q| - 1, j); }
  }

  /** The blocked kernel on one query block: for every tile size, score and mask expression, direct or packed K,
      each destination row is the full-row softmax reference over its scaled, masked scores. */
  method SoftmaxBlock(src: Source, scale: real, v: seq<Vec>, destination: array2<real>, e: real -> real)
    requires IsExp(e) && src.Valid() && src.first == 0 && src.count == |v|
    requires |src.q| == destination.Length0 && AllWidth(v, destination.Length1)
    modifies destination
    ensures forall m, dv :: 0 <= m < |src.q| && 0 <= dv < destination.Length1 ==>
      destination[m, dv] == Reference(e, ScaleScores(src.Row(m), scale), Component(v, destination.Length1, dv))
  {
    hide IsExp, WSum, Sum, MaxN, RowHolds, Reference, FinalScale, AllWidth, Source.Valid, Source.Row;
    var mValid := |src.q|;
    var keyLimit := LimitOf(src);
    var output := new real[mValid, destination.Length1];
    var rowMax, rowSum := KeyLoop(src, scale, v, keyLimit, output, e);
    var limit := if keyLimit < 0 then 0 else keyLimit;
    forall m, dv | 0 <= m < mValid && 0 <= dv < destination.Length1
      ensures output[m, dv] * FinalScale(rowSum[m])
           == Reference(e, ScaleScores(src.Row(m), scale), Component(v, destination.Length1, dv))
    {
      var row := ScaleScores(src.Row(m), scale);
      assert row == ScaledRows(src, scale)[m];
      forall j | limit <= j < |row| ensures row[j] == NegInf {
        PastLimit(src, m, j);
      }
      RowEnds(e, row, v, limit, rowMax[m], rowSum[m], Row(output, m), dv);
    }
    StoreRows(output, rowSum, destination, mValid);
  }

  lemma NothingSeen(e: real -> real, row: seq<Ext>, v: seq<Vec>, out: Vec)
    requires |row| == |v| && AllWidth(v, |out|) && forall dv :: 0 <= dv < |out| ==> out[dv] == 0.0
    ensures RowHolds(e, row, v, 0, NegInf, 0.0, out)
  {
  }

  lemma RowEnds(e: real -> real, row: seq<Ext>, v: seq<Vec>, limit: nat, top: Ext, sum: real, out: Vec, dv: nat)
    requires IsExp(e) && limit <= |row| == |v| && AllWidth(v, |out|) && dv < |out|
    requires RowHolds(e, row, v, limit, top, sum, out)
    requires forall j :: limit <= j < |row| ==> row[j] == NegInf
    ensures out[dv] * FinalScale(sum) == Reference(e, row, Component(v, |out|, dv))
  {
    hide IsExp, WSum, MaxN, Reference, FinalScale;
    var x := Component(v, |out|, dv);
    MaskedTail(e, row, top, x, limit, |row|);
    MaskedTail(e, row, top, Ones(|row|), limit, |row|);
    FinishedRow(e, row, x);
  }

  method StoreRows(output: array2<real>, rowSum: array<real>, destination: array2<real>, mValid: nat)
    requires mValid <= output.Length0 && mValid <= rowSum.Length && mValid <= destination.Length0
    requires output.Length1 == destination.Length1 && output != destination
    modifies destination
    ensures forall m, dv :: 0 <= m < mValid && 0 <= dv < destination.Length1 ==>
      destination[m, dv] == output[m, dv] * FinalScale(rowSum[m])
  {
    for m := 0 to mValid
      invariant forall i, dv :: 0 <= i < m && 0 <= dv < destination.Length1 ==>
        destination[i, dv] == output[i, dv] * FinalScale(rowSum[i])
    {
      var finalScale := FinalScale(rowSum[m]);
      for dv := 0 to destination.Length1
        invariant forall i, j :: 0 <= i < mValid && 0 <= j < destination.Length1 && (i < m || (i == m && j < dv)) ==>
          destination[i, j] == output[i, j] * FinalScale(rowSum[i])
      {
        destination[m, dv] := output[m, dv] * finalScale;
      }
    }
  }
}
