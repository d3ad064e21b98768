/** The blocked kernel for an arbitrary online protocol: a forward pass stores each step's
    rescale, a backward pass folds the suffix products into the weights and the output row. */
module BlockedGeneric {
  import opened Arrays
  import opened Vectors
  import opened BlockAlgebra
  import opened Softmax
  import opened ScoreTiles
  import opened RowNorms
  import opened Scores
  import BlockedSoftmax

  /** A cleared flag is a masked key. */
  lemma ReadFlag(cell: Ext, flag: real, score: Ext)
    requires Flagged(cell, flag, score)
    ensures flag == 0.0 <==> score.NegInf?
    ensures score.Fin? ==> Value(cell) == score.r
  {
  }

  /** The forward pass. The flag in step is read before it is replaced by the rescale factor,
      so a factor that is itself zero is never mistaken for a mask. */
  method Forward<S>(
    p: Protocol<S>, tile: array2<Ext>, step: array2<real>, m: nat, nValid: nat, entry: S, ghost row: seq<Ext>,
    ghost kb: nat)
    returns (state: S)
    requires kb + nValid <= |row| && m < tile.Length0 == step.Length0 && nValid <= tile.Length1 == step.Length1
    requires entry == RunState(p, row, kb)
    requires forall n :: 0 <= n < nValid ==> Flagged(tile[m, n], step[m, n], row[kb + n])
    modifies tile, step
    ensures state == RunState(p, row, kb + nValid)
    ensures forall n :: 0 <= n < nValid ==>
      tile[m, n] == Fin(StepWeight(p, row, kb + n)) && step[m, n] == StepRescale(p, row, kb + n)
    ensures forall i, n :: 0 <= i < tile.Length0 && i != m && 0 <= n < tile.Length1 ==>
      tile[i, n] == old(tile[i, n]) && step[i, n] == old(step[i, n])
  {
    hide Flagged;
    state := entry;
    for n := 0 to nValid
      invariant state == RunState(p, row, kb + n)
      invariant forall j :: 0 <= j < n ==>
        tile[m, j] == Fin(StepWeight(p, row, kb + j)) && step[m, j] == StepRescale(p, row, kb + j)
      invariant forall j :: n <= j < nValid ==> Flagged(tile[m, j], step[m, j], row[kb + j])
      invariant forall i, j :: 0 <= i < tile.Length0 && i != m && 0 <= j < tile.Length1 ==>
        tile[i, j] == old(tile[i, j]) && step[i, j] == old(step[i, j])
    {
      ReadFlag(tile[m, n], step[m, n], row[kb + n]);
      if step[m, n] == 0.0 {
        tile[m, n] := Fin(0.0);
        step[m, n] := 1.0;
      } else {
        var score := Value(tile[m, n]);
        var next := p.update(state, score);
        step[m, n] := p.rescale(state, next, score);
        tile[m, n] := Fin(p.weight(state, next, score));
        state := next;
      }
    }
  }

  /** The backward pass: each weight takes the product of the later steps' factors. */
  method Backward(tile: array2<Ext>, step: array2<real>, m: nat, nValid: nat) returns (suffix: real)
    requires m < tile.Length0 == step.Length0 && nValid <= tile.Length1 == step.Length1
    modifies tile
    ensures suffix == Prod(Row(step, m), 0, nValid)
    ensures forall n :: 0 <= n < nValid ==>
      tile[m, n] == Fin(Times(Value(old(tile[m, n])), Prod(Row(step, m), n + 1, nValid)))
    ensures forall i, n :: 0 <= i < tile.Length0 && i != m && 0 <= n < tile.Length1 ==> tile[i, n] == old(tile[i, n])
  {
    suffix := 1.0;
    ghost var steps := Row(step, m);
    for n := nValid downto 0
      invariant suffix == Prod(steps, n, nValid)
      invariant forall j :: n <= j < nValid ==>
        tile[m, j] == Fin(Times(Value(old(tile[m, j])), Prod(steps, j + 1, nValid)))
      invariant forall i, j :: 0 <= i < tile.Length0 && 0 <= j < tile.Length1 && (i != m || j < n) ==>
        tile[i, j] == old(tile[i, j])
    {
      tile[m, n] := Fin(Value(tile[m, n]) * suffix);
      ProdLeft(steps, n, nValid);
      suffix := suffix * step[m, n];
    }
  }

  /** What a tile's passes amount to: the running output, moved by nv keys. */
  lemma {:induction false} RunMoves<S>(
    p: Protocol<S>, row: seq<Ext>, x: Vec, kb: nat, steps: Vec, weights: Vec, y: Vec, size: nat, nv: nat)
    requires kb + nv <= |row| == |x| && nv <= size == |steps| && nv <= |weights| && nv <= |y|
    requires forall n :: 0 <= n < nv ==>
      steps[n] == StepRescale(p, row, kb + n) && weights[n] == StepWeight(p, row, kb + n) && y[n] == x[kb + n]
    ensures RunOut(p, row, x, kb + nv) == Mixed(steps, y, weights, RunOut(p, row, x, kb), nv, nv)
  {
    hide Mixed, Times, StepRescale, StepWeight;
    if nv == 0 {
      MixedEmpty(steps, y, weights, RunOut(p, row, x, kb));
    } else {
      var n := nv - 1;
      RunMoves(p, row, x, kb, steps, weights, y, size, n);
      StepMixed(steps, y, weights, RunOut(p, row, x, kb), n);
      TimesSwaps(weights[n], y[n]);
      assert kb + nv - 1 == kb + n;
    }
  }

  /** The kernel's scaled output plus its weighted value rows is the running output. */
  lemma TileOutput<S>(
    p: Protocol<S>, row: seq<Ext>, x: Vec, kb: nat, steps: Vec, weights: Vec, cells: Vec, y: Vec, nv: nat, out: real)
    requires kb + nv <= |row| == |x| && nv == |steps| == |weights| == |cells| == |y|
    requires forall n :: 0 <= n < nv ==>
      && steps[n] == StepRescale(p, row, kb + n) && weights[n] == StepWeight(p, row, kb + n) && y[n] == x[kb + n]
      && cells[n] == Times(weights[n], Prod(steps, n + 1, nv))
    requires out == RunOut(p, row, x, kb)
    ensures Times(Prod(steps, 0, nv), out) + DotN(cells, y, nv) == RunOut(p, row, x, kb + nv)
  {
    hide *;
    RunMoves(p, row, x, kb, steps, weights, y, nv, nv);
    MixedParts(steps, y, weights, out, nv, nv);
    WritesBlend(cells, y, steps, weights, nv, nv);
  }

  /** What a kernel row holds after the keys before kb. */
  ghost predicate RowRuns<S>(p: Protocol<S>, row: seq<Ext>, v: seq<Vec>, kb: nat, state: S, out: Vec)
    requires kb <= |row| == |v| && AllWidth(v, |out|)
  {
    && state == RunState(p, row, kb)
    && forall dv :: 0 <= dv < |out| ==> out[dv] == RunOut(p, row, Component(v, |out|, dv), kb)
  }

  /** One row of one key tile, up to its weights: returns the new state and the factor for the output row. */
  method RowPasses<S>(
    p: Protocol<S>, ghost row: seq<Ext>, ghost kb: nat, nValid: nat, tile: array2<Ext>, step: array2<real>, m: nat,
    entry: S)
    returns (state: S, suffix: real, ghost steps: Vec)
    requires kb + nValid <= |row| && m < tile.Length0 == step.Length0 && nValid <= tile.Length1 == step.Length1
    requires entry == RunState(p, row, kb)
    requires forall n :: 0 <= n < nValid ==> Flagged(tile[m, n], step[m, n], row[kb + n])
    modifies tile, step
    ensures state == RunState(p, row, kb + nValid) && |steps| == nValid && suffix == Prod(steps, 0, nValid)
    ensures forall n :: 0 <= n < nValid ==>
      && steps[n] == StepRescale(p, row, kb + n)
      && tile[m, n] == Fin(Times(StepWeight(p, row, kb + n), Prod(steps, n + 1, nValid)))
    ensures forall i, n :: 0 <= i < tile.Length0 && i != m && 0 <= n < tile.Length1 ==>
      tile[i, n] == old(tile[i, n]) && step[i, n] == old(step[i, n])
  {
    hide StepRescale, StepWeight, RunState, Prod, Times;
    state := Forward(p, tile, step, m, nValid, entry, row, kb);
    label Passed:
    suffix := Backward(tile, step, m, nValid);
    steps := Row(step, m)[..nValid];
    forall i: nat | i <= nValid ensures Prod(Row(step, m), i, nValid) == Prod(steps, i, nValid) {
      ProdPrefix(Row(step, m), steps, i, nValid);
    }
    forall n | 0 <= n < nValid
      ensures tile[m, n] == Fin(Times(StepWeight(p, row, kb + n), Prod(steps, n + 1, nValid)))
    {
      assert old@Passed(tile[m, n]) == Fin(StepWeight(p, row, kb + n));
    }
  }

  lemma {:induction false} ProdPrefix(a: Vec, b: Vec, i: nat, j: nat)
    requires j <= |a| && j <= |b| && forall n :: 0 <= n < j ==> a[n] == b[n]
    ensures Prod(a, i, j) == Prod(b, i, j)
  {
    if i < j { ProdPrefix(a, b, i, j - 1); }
  }

  /** A row's finished tile: every step's factor, and every weight times the factors of the steps after it. */
  ghost predicate Folded<S>(p: Protocol<S>, row: seq<Ext>, kb: nat, nv: nat, steps: Vec, cells: seq<Ext>)
    requires kb + nv <= |row|
  {
    nv == |steps| <= |cells| && forall n :: 0 <= n < nv ==>
      && steps[n] == StepRescale(p, row, kb + n)
      && cells[n] == Fin(Times(StepWeight(p, row, kb + n), Prod(steps, n + 1, nv)))
  }

  /** One row of one key tile, with its state and its output row. */
  method RowTile<S>(
    p: Protocol<S>, ghost row: seq<Ext>, ghost kb: nat, nValid: nat, tile: array2<Ext>, step: array2<real>, m: nat,
    states: array<S>, output: array2<real>)
    returns (ghost steps: Vec)
    requires kb + nValid <= |row| && m < tile.Length0 == step.Length0 && nValid <= tile.Length1 == step.Length1
    requires m < states.Length && m < output.Length0 && output != step
    requires states[m] == RunState(p, row, kb)
    requires forall n :: 0 <= n < nValid ==> Flagged(tile[m, n], step[m, n], row[kb + n])
    modifies tile, step, states, output
    ensures states[m] == RunState(p, row, kb + nValid) && Folded(p, row, kb, nValid, steps, Row(tile, m))
    ensures forall dv :: 0 <= dv < output.Length1 ==> output[m, dv] == Times(Prod(steps, 0, nValid), old(output[m, dv]))
    ensures forall i, n :: 0 <= i < tile.Length0 && i != m && 0 <= n < tile.Length1 ==>
      tile[i, n] == old(tile[i, n]) && step[i, n] == old(step[i, n])
    ensures forall i :: 0 <= i < states.Length && i != m ==> states[i] == old(states[i])
    ensures forall i, dv :: 0 <= i < output.Length0 && i != m && 0 <= dv < output.Length1 ==>
      output[i, dv] == old(output[i, dv])
  {
    hide StepRescale, StepWeight, RunState, Prod, Times, Flagged;
    var state, suffix;
    state, suffix, steps := RowPasses(p, row, kb, nValid, tile, step, m, states[m]);
    states[m] := state;
    ScaleRow(output, m, suffix);
    forall dv | 0 <= dv < output.Length1 ensures output[m, dv] == Times(Prod(steps, 0, nValid), old(output[m, dv])) {
      TimesSwaps(old(output[m, dv]), suffix);
    }
  }

  /** The forward and backward passes of every row of a tile. */
  method RowTiles<S>(
    p: Protocol<S>, ghost rows: seq<seq<Ext>>, ghost kb: nat, nValid: nat, mValid: nat, tile: array2<Ext>,
    step: array2<real>,
    states: array<S>, output: array2<real>)
    returns (ghost steps: seq<Vec>)
    requires mValid == |rows| <= tile.Length0 == step.Length0 && nValid <= tile.Length1 == step.Length1
    requires |rows| <= output.Length0 && |rows| <= states.Length && output != step
    requires forall m :: 0 <= m < |rows| ==> kb + nValid <= |rows[m]| && states[m] == RunState(p, rows[m], kb)
    requires forall m, n :: 0 <= m < |rows| && 0 <= n < nValid ==> Flagged(tile[m, n], step[m, n], rows[m][kb + n])
    modifies tile, step, states, output
    ensures |steps| == |rows| && forall m :: 0 <= m < |rows| ==>
      states[m] == RunState(p, rows[m], kb + nValid) && Folded(p, rows[m], kb, nValid, steps[m], Row(tile, m))
    ensures forall m, dv :: 0 <= m < |rows| && 0 <= dv < output.Length1 ==>
      output[m, dv] == Times(Prod(steps[m], 0, |steps[m]|), old(output[m, dv]))
  {
    hide RunState, Prod, Times, Flagged, Folded;
    steps := [];
    for m := 0 to mValid
      invariant |steps| == m
      invariant forall i, n :: m <= i < |rows| && 0 <= n < nValid ==> Flagged(tile[i, n], step[i, n], rows[i][kb + n])
      invariant forall i :: 0 <= i < m ==>
        states[i] == RunState(p, rows[i], kb + nValid) && Folded(p, rows[i], kb, nValid, steps[i], Row(tile, i))
      invariant forall i, dv :: 0 <= i < m && 0 <= dv < output.Length1 ==>
        output[i, dv] == Times(Prod(steps[i], 0, |steps[i]|), old(output[i, dv]))
      invariant forall i :: m <= i < |rows| ==> states[i] == RunState(p, rows[i], kb)
      invariant forall i, dv :: m <= i < output.Length0 && 0 <= dv < output.Length1 ==>
        output[i, dv] == old(output[i, dv])
    {
      label Before:
      ghost var factors := RowTile(p, rows[m], kb, nValid, tile, step, m, states, output);
      FoldedLength(p, rows[m], kb, nValid, factors, Row(tile, m));
      forall i | 0 <= i < m ensures Row(tile, i) == old@Before(Row(tile, i)) {
      }
      steps := steps + [factors];
    }
  }

  lemma FoldedLength<S>(p: Protocol<S>, row: seq<Ext>, kb: nat, nv: nat, steps: Vec, cells: seq<Ext>)
    requires kb + nv <= |row| && Folded(p, row, kb, nv, steps, cells)
    ensures |steps| == nv
  {
  }

  /** One key tile of every row. */
  method KeyTile<S>(
    p: Protocol<S>, src: Source, ghost rows: seq<seq<Ext>>, v: seq<Vec>, kb: nat, nValid: nat, tile: array2<Ext>,
    step: array2<real>,
    states: array<S>, output: array2<real>)
    requires src.Valid() && rows == src.Rows() && src.count == |v|
    requires |rows| <= tile.Length0 == step.Length0 && nValid <= tile.Length1 == step.Length1 == src.shape.tileK
    requires |rows| <= output.Length0 && |rows| <= states.Length && output != step
    requires kb + nValid <= |v| && kb < |v| && AllWidth(v, output.Length1)
    requires forall m :: 0 <= m < |rows| ==> RowRuns(p, rows[m], v, kb, states[m], Row(output, m))
    modifies tile, step, states, output
    ensures forall m :: 0 <= m < |rows| ==>
      RowRuns(p, rows[m], v, kb + nValid, states[m], Row(output, m))
  {
    hide RunState, RunOut, Prod, Times, DotN, Source.Valid, Source.Rows, Flagged, Folded;
    ghost var width, entry := output.Length1, seq(|rows|, m requires 0 <= m < |rows| reads output => Row(output, m));
    LoadFlags(src, kb, nValid, tile, step);
    ghost var steps := RowTiles(p, rows, kb, nValid, |src.q|, tile, step, states, output);
    PvTile(tile, v[kb..kb + nValid], output, |src.q|);
    forall m | 0 <= m < |rows|
      ensures RowRuns(p, rows[m], v, kb + nValid, states[m], Row(output, m))
    {
      FoldedLength(p, rows[m], kb, nValid, steps[m], Row(tile, m));
      RowRan(p, rows[m], v, kb, nValid, steps[m], Row(tile, m), entry[m], Row(output, m), width);
    }
  }

  lemma RowRan<S>(
    p: Protocol<S>, row: seq<Ext>, v: seq<Vec>, kb: nat, nv: nat, steps: Vec, cells: seq<Ext>, out: Vec, nextOut: Vec,
    width: nat)
    requires kb + nv <= |row| == |v| && nv == |steps| <= |cells| && AllWidth(v, width) && |out| == |nextOut| == width
    requires forall dv :: 0 <= dv < width ==> out[dv] == RunOut(p, row, Component(v, width, dv), kb)
    requires Folded(p, row, kb, nv, steps, cells)
    requires forall dv :: 0 <= dv < width ==>
      nextOut[dv] == Times(Prod(steps, 0, nv), out[dv]) + DotN(Values(cells), Component(v[kb..kb + nv], width, dv), nv)
    ensures forall dv :: 0 <= dv < width ==> nextOut[dv] == RunOut(p, row, Component(v, width, dv), kb + nv)
  {
    hide StepRescale, StepWeight, RunState, RunOut, Prod, Times, DotN;
    var weights := seq(nv, n requires 0 <= n < nv => StepWeight(p, row, kb + n));
    forall dv | 0 <= dv < width ensures nextOut[dv] == RunOut(p, row, Component(v, width, dv), kb + nv) {
      var y := Component(v[kb..kb + nv], width, dv);
      DotCongruent(Values(cells), y, Values(cells)[..nv], y, nv);
      TileOutput(p, row, Component(v, width, dv), kb, steps, weights, Values(cells)[..nv], y, nv, out[dv]);
    }
  }

  /** Keys past the limit are masked, so they change nothing. */
  lemma {:induction false} RunMaskedTail<S>(p: Protocol<S>, row: seq<Ext>, x: Vec, limit: nat, n: nat)
    requires limit <= n <= |row| == |x|
    requires forall j :: limit <= j < n ==> row[j] == NegInf
    ensures RunState(p, row, n) == RunState(p, row, limit) && RunOut(p, row, x, n) == RunOut(p, row, x, limit)
  {
    if limit < n {
      RunMaskedTail(p, row, x, limit, n - 1);
      KeepsValue(RunOut(p, row, x, n - 1), x[n - 1]);
    }
  }

  /** The loop over key tiles up to the limit. */
  method KeyLoop<S>(p: Protocol<S>, src: Source, v: seq<Vec>, keyLimit: int, output: array2<real>)
    returns (states: array<S>)
    requires src.Valid() && src.count == |v|
    requires |src.q| == output.Length0 && keyLimit <= |v| && AllWidth(v, output.Length1)
    modifies output
    ensures fresh(states) && states.Length == |src.q|
    ensures forall m :: 0 <= m < |src.q| ==>
      RowRuns(p, src.Rows()[m], v, if keyLimit < 0 then 0 else keyLimit, states[m], Row(output, m))
  {
    hide RunState, RunOut, Times, Source.Valid, Source.Rows;
    var mValid, tileK := |src.q|, BlockedSoftmax.TileK(src);
    ghost var rows := src.Rows();
    var tile, step := new Ext[mValid, tileK], new real[mValid, tileK];
    states := new S[mValid](i => p.init);
    ClearRows(output, mValid);
    forall m | 0 <= m < mValid ensures RowRuns(p, rows[m], v, 0, states[m], Row(output, m)) {
      NothingRun(p, rows[m], v, Row(output, m));
    }
    var kb := 0;
    ghost var covered := 0;
    while kb < keyLimit
      invariant 0 <= kb && covered == (if kb <= keyLimit then kb else if keyLimit < 0 then 0 else keyLimit)
      invariant covered <= |v|
      invariant forall m :: 0 <= m < mValid ==>
        RowRuns(p, rows[m], v, covered, states[m], Row(output, m))
    {
      var nValid := if keyLimit - kb < tileK then keyLimit - kb else tileK;
      KeyTile(p, src, rows, v, kb, nValid, tile, step, states, output);
      kb := kb + tileK;
      covered := covered + nValid;
    }
  }

  /** The generic kernel on one query block, for every tiling, score, mask and protocol. */
  method GenericBlock<S>(p: Protocol<S>, src: Source, v: seq<Vec>, destination: array2<real>)
    requires src.Valid() && src.first == 0 && src.count == |v|
    requires |src.q| == destination.Length0 && AllWidth(v, destination.Length1)
    modifies destination
    ensures forall m, dv :: 0 <= m < |src.q| && 0 <= dv < destination.Length1 ==>
      destination[m, dv] == OnlineOutput(p, src.Row(m), Component(v, destination.Length1, dv))
  {
    hide RunState, RunOut, OnlineOutput, Times, RowRuns, Source.Valid, Source.Row;
    var keyLimit := BlockedSoftmax.LimitOf(src);
    var output := new real[|src.q|, destination.Length1];
    var states := KeyLoop(p, src, v, keyLimit, output);
    forall m, j | 0 <= m < |src.q| && keyLimit <= j < |v| && 0 <= j ensures src.Rows()[m][j] == NegInf {
      BlockedSoftmax.PastLimit(src, m, j);
    }
    Finish(p, src.Rows(), v, if keyLimit < 0 then 0 else keyLimit, states, output, destination);
  }

  lemma NothingRun<S>(p: Protocol<S>, row: seq<Ext>, v: seq<Vec>, out: Vec)
    requires |row| == |v| && AllWidth(v, |out|) && forall dv :: 0 <= dv < |out| ==> out[dv] == 0.0
    ensures RowRuns(p, row, v, 0, p.init, out)
  {
  }

  /** Applies the final scale of every finished row. */
  method Finish<S>(
    p: Protocol<S>, ghost rows: seq<seq<Ext>>, ghost v: seq<Vec>, ghost limit: nat, states: array<S>,
    output: array2<real>,
    destination: array2<real>)
    requires |rows| == destination.Length0 == output.Length0 == states.Length && AllWidth(v, destination.Length1)
    requires output.Length1 == destination.Length1 && output != destination
    requires limit <= |v| && forall m :: 0 <= m < |rows| ==>
      |rows[m]| == |v| && RowRuns(p, rows[m], v, limit, states[m], Row(output, m))
    requires forall m, j :: 0 <= m < |rows| && limit <= j < |v| ==> rows[m][j] == NegInf
    modifies destination
    ensures forall m, dv :: 0 <= m < |rows| && 0 <= dv < destination.Length1 ==>
      destination[m, dv] == OnlineOutput(p, rows[m], Component(v, destination.Length1, dv))
  {
    hide RunState, RunOut, OnlineOutput;
    for m := 0 to states.Length
      invariant forall i, dv :: 0 <= i < m && 0 <= dv < destination.Length1 ==>
        destination[i, dv] == OnlineOutput(p, rows[i], Component(v, destination.Length1, dv))
    {
      var finalScale := p.finalScale(states[m]);
      for dv := 0 to destination.Length1
        invariant forall i, e :: 0 <= i < |rows| && 0 <= e < destination.Length1 && (i < m || (i == m && e < dv)) ==>
          destination[i, e] == OnlineOutput(p, rows[i], Component(v, destination.Length1, e))
      {
        assert Row(output, m)[dv] == RunOut(p, rows[m], Component(v, destination.Length1, dv), limit);
        RunMaskedTail(p, rows[m], Component(v, destination.Length1, dv), limit, |v|);
        FinishedRun(p, rows[m], Component(v, destination.Length1, dv));
        TimesSwaps(output[m, dv], finalScale);
        destination[m, dv] := output[m, dv] * finalScale;
      }
    }
  }
}
