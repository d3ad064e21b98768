/** The chunked lowering of Scale, then Outer(k, v), for both read timings. */
module ChunkedKernel {
  import opened Arrays
  import opened Vectors
  import opened ScanReference
  import opened BlockAlgebra
  import opened LinearBlocks

  datatype Scratch = Scratch(
    vBlock: array2<real>, oBlock: array2<real>, scores: array2<real>, prefix: array<real>, suffix: array<real>)
  {
    ghost predicate Fits(block: nat, width: nat) {
      && vBlock.Length0 == oBlock.Length0 == block && vBlock.Length1 == oBlock.Length1 == width
      && scores.Length0 == scores.Length1 == block
      && prefix.Length == suffix.Length == block
      && vBlock != oBlock && vBlock != scores && oBlock != scores && prefix != suffix
    }
  }

  /** How many of the block's tokens have been folded in when token m is read. */
  function Seen(timing: Timing, m: nat): nat {
    if timing.Before? then m else m + 1
  }

  /** The causal weights of the block: gates between write and read times the key match. */
  method FillWeights(
    scores: array2<real>, q: seq<Vec>, k: seq<Vec>, decay: Vec, timing: Timing, lanes: nat, ghost height: nat)
    requires |q| == |k| == |decay| <= scores.Length0 == scores.Length1 && lanes > 0
    requires AllHeight(q, height) && AllHeight(k, height)
    modifies scores
    ensures forall m, j :: 0 <= m < |k| && 0 <= j < |k| ==>
      scores[m, j] == if j < Seen(timing, m) then ScoreAt(decay, Constant(1.0, |k|), q[m], k, Seen(timing, m), j)
        else 0.0
  {
    for m := 0 to |k|
      invariant forall i, j :: 0 <= i < m && 0 <= j < |k| ==>
        scores[i, j] == if j < Seen(timing, i) then ScoreAt(decay, Constant(1.0, |k|), q[i], k, Seen(timing, i), j)
          else 0.0
    {
      for j := 0 to |k|
        invariant forall i, e :: 0 <= i < |k| && 0 <= e < |k| && (i < m || (i == m && e < j)) ==>
          scores[i, e] == if e < Seen(timing, i) then ScoreAt(decay, Constant(1.0, |k|), q[i], k, Seen(timing, i), e)
            else 0.0
      {
        scores[m, j] := Weight(q[m], k, decay, timing, m, j, lanes);
      }
    }
  }

  method Weight(y: Vec, k: seq<Vec>, decay: Vec, timing: Timing, m: nat, j: nat, lanes: nat) returns (weight: real)
    requires m < |k| == |decay| && j < |k| && AllHeight(k, |y|) && lanes > 0
    ensures weight == if j < Seen(timing, m) then ScoreAt(decay, Constant(1.0, |k|), y, k, Seen(timing, m), j) else 0.0
  {
    var active := j < m || (timing.After? && j == m);
    weight := 0.0;
    if active {
      var end := if timing.Before? then m else m + 1;
      var between := 1.0;
      for r := j + 1 to end
        invariant between == Prod(decay, j + 1, r)
      {
        between := between * decay[r];
      }
      var product := DotProduct(y, k[j], lanes);
      weight := product * between;
    }
  }

  method LoadValues(v: seq<Vec>, vBlock: array2<real>)
    requires |v| <= vBlock.Length0 && AllHeight(v, vBlock.Length1)
    modifies vBlock
    ensures forall m, dv :: 0 <= m < |v| && 0 <= dv < vBlock.Length1 ==> vBlock[m, dv] == v[m][dv]
  {
    for m := 0 to |v|
      invariant forall i, dv :: 0 <= i < m && 0 <= dv < vBlock.Length1 ==> vBlock[i, dv] == v[i][dv]
    {
      for dv := 0 to vBlock.Length1
        invariant forall i, e :: 0 <= i < |v| && 0 <= e < vBlock.Length1 && (i < m || (i == m && e < dv)) ==>
          vBlock[i, e] == v[i][e]
      {
        vBlock[m, dv] := v[m][dv];
      }
    }
  }

  lemma UnitWeights(w: Vec, n: nat)
    requires |w| == n
    ensures Weighted(Constant(1.0, n), w) == w
  {
  }

  /** The block's outputs in terms of the column recurrence. */
  method BlockReadout(
    a: Vec, q: seq<Vec>, k: seq<Vec>, state: array2<real>, scratch: Scratch, timing: Timing, lanes: nat)
    requires 0 < |a| == |k| == |q| <= scratch.scores.Length0 && lanes > 0
    requires scratch.Fits(scratch.scores.Length0, state.Length1)
    requires AllHeight(k, state.Length0) && AllHeight(q, state.Length0)
    requires state !in {scratch.vBlock, scratch.oBlock, scratch.scores}
    requires forall m :: 0 <= m < |a| ==> scratch.prefix[m] == Prod(a, 0, Seen(timing, m))
    modifies scratch.oBlock, scratch.scores
    ensures forall m, dv :: 0 <= m < |a| && 0 <= dv < state.Length1 ==>
      scratch.oBlock[m, dv] == Dot(q[m],
        AffineColumn(a, Col(scratch.vBlock, dv)[..|a|], k, Col(state, dv), Seen(timing, m)))
  {
    hide Times, Dot, DotN, Prod, ScoreAt, AffineColumn, Weighted;
    var n := |a|;
    ReadoutBlock(q, state, scratch.oBlock, scratch.prefix);
    FillWeights(scratch.scores, q, k, a, timing, lanes, state.Length0);
    ValuesBlock(scratch.scores, scratch.vBlock, scratch.oBlock, n);
    forall m, dv | 0 <= m < n && 0 <= dv < state.Length1
      ensures scratch.oBlock[m, dv]
        == Dot(q[m], AffineColumn(a, Col(scratch.vBlock, dv)[..n], k, Col(state, dv), Seen(timing, m)))
    {
      UnitWeights(Col(scratch.vBlock, dv)[..n], n);
      BlockOutput(Row(scratch.scores, m), Col(scratch.vBlock, dv), a, Constant(1.0, n), q[m], k, Col(state, dv), n,
        Seen(timing, m));
    }
  }

  method ChunkBlock(
    a: Vec, q: seq<Vec>, k: seq<Vec>, v: seq<Vec>, timing: Timing,
    state: array2<real>, output: array2<real>, sb: nat, scratch: Scratch, lanes: nat)
    requires 0 < |a| <= scratch.scores.Length0 && lanes > 0
    requires scratch.Fits(scratch.scores.Length0, state.Length1)
    requires TokenData(a, q, k, v, state.Length0, state.Length1)
    requires sb + |a| <= output.Length0 && output.Length1 == state.Length1
    requires state !in {scratch.vBlock, scratch.oBlock, scratch.scores, output}
    requires output !in {scratch.vBlock, scratch.oBlock, scratch.scores}
    modifies state, output, scratch.vBlock, scratch.oBlock, scratch.scores, scratch.prefix, scratch.suffix
    ensures View(state)
         == StateAfter(ChunkTokens(a, q, k, v, state.Length0, state.Length1), |a|, old(View(state)), state.Length0,
           state.Length1)
    ensures forall m :: 0 <= m < |a| ==>
      Row(output, sb + m) == OutputAt(ChunkTokens(a, q, k, v, state.Length0, state.Length1), m, timing,
        old(View(state)), state.Length0, state.Length1)
    ensures forall s, dv :: 0 <= s < output.Length0 && 0 <= dv < output.Length1 && !(sb <= s < sb + |a|) ==>
      output[s, dv] == old(output[s, dv])
  {
    hide Times, Dot, DotN, Prod, AffineColumn, Column, StateAfter, OutputAt;
    var n := |a|;
    ghost var width, m0, entry := state.Length1, View(state), Columns(state);
    forall dv | 0 <= dv < width ensures Column(m0, state.Length0, width, dv) == entry[dv] {
      ViewColumn(state, dv);
    }
    LoadValues(v, scratch.vBlock);
    var blockScale := DecayProducts(a, scratch.prefix, scratch.suffix, timing);
    assert |q| == |k| == |v| == n;
    BlockReadout(a, q, k, state, scratch, timing, lanes);
    ghost var outputs := View(scratch.oBlock)[..n];
    CopyRows(scratch.oBlock, output, sb, n);
    forall dv | 0 <= dv < width ensures Col(scratch.vBlock, dv)[..n] == Components(v, width, dv) {
    }
    FoldState(state, scratch.vBlock, a, k, scratch.suffix, blockScale);
    forall dv | 0 <= dv < width
      ensures Column(View(state), state.Length0, width, dv) == Col(state, dv)
    {
      ViewColumn(state, dv);
    }
    ChunkMeetsScan(a, q, k, v, timing, m0, View(state), outputs, n, state.Length0, width);
    forall m | 0 <= m < n ensures Row(output, sb + m) == outputs[m] {
    }
  }

  lemma ChunkMeetsScan(
    a: Vec, q: seq<Vec>, k: seq<Vec>, v: seq<Vec>, timing: Timing, m0: Matrix, after: Matrix, outputs: Matrix,
    n: nat, height: nat, width: nat)
    requires TokenData(a, q, k, v, height, width) && |a| == n == |outputs|
    requires IsMatrix(m0, height, width) && IsMatrix(after, height, width)
    requires forall t :: 0 <= t < n ==> |outputs[t]| == width
    requires forall dv :: 0 <= dv < width ==>
      Column(after, height, width, dv) == AffineColumn(a, Components(v, width, dv), k, Column(m0, height, width, dv), n)
    requires forall m, dv :: 0 <= m < n && 0 <= dv < width ==>
      outputs[m][dv] == Dot(q[m],
        AffineColumn(a, Components(v, width, dv), k, Column(m0, height, width, dv), Seen(timing, m)))
    ensures after == StateAfter(ChunkTokens(a, q, k, v, height, width), n, m0, height, width)
    ensures forall t :: 0 <= t < n ==>
      outputs[t] == OutputAt(ChunkTokens(a, q, k, v, height, width), t, timing, m0, height, width)
  {
    hide AffineColumn, Components, Dot, Column, ColumnAfter;
    var tokens := ChunkTokens(a, q, k, v, height, width);
    forall dv, t | 0 <= dv < width && 0 <= t <= n
      ensures ColumnAfter(tokens, t, Column(m0, height, width, dv), height, width, dv)
           == AffineColumn(a, Components(v, width, dv), k, Column(m0, height, width, dv), t)
    {
      ChunkColumn(a, q, k, v, Column(m0, height, width, dv), height, width, dv, t);
    }
    ScanFromColumns(tokens, timing, m0, after, outputs, n, height, width);
  }

  lemma ChunkTokensSlice(a: Vec, q: seq<Vec>, k: seq<Vec>, v: seq<Vec>, height: nat, width: nat, lo: nat, hi: nat)
    requires TokenData(a, q, k, v, height, width) && lo <= hi <= |a|
    ensures TokenData(a[lo..hi], q[lo..hi], k[lo..hi], v[lo..hi], height, width)
    ensures ChunkTokens(a[lo..hi], q[lo..hi], k[lo..hi], v[lo..hi], height, width)
         == ChunkTokens(a, q, k, v, height, width)[lo..hi]
  {
  }

  /** The chunked lowering of one (batch, head) row, for both read timings and every block size. */
  method ChunkedRow(
    a: Vec, q: seq<Vec>, k: seq<Vec>, v: seq<Vec>, timing: Timing,
    state: array2<real>, output: array2<real>, block: nat, lanes: nat)
    requires block > 0 && lanes > 0 && |a| == output.Length0
    requires TokenData(a, q, k, v, state.Length0, state.Length1)
    requires output.Length1 == state.Length1 && output != state
    modifies state, output
    ensures View(state)
         == StateAfter(ChunkTokens(a, q, k, v, state.Length0, state.Length1), |a|, old(View(state)), state.Length0,
           state.Length1)
    ensures forall s :: 0 <= s < |a| ==>
      Row(output, s) == OutputAt(ChunkTokens(a, q, k, v, state.Length0, state.Length1), s, timing, old(View(state)),
        state.Length0, state.Length1)
  {
    hide Dot, DotN, ApplySteps, ChunkTokens, OutputAt, StateAfter, IsMatrix;
    var vBlock, oBlock, scores := new real[block, state.Length1], new real[block, state.Length1],
      new real[block, block];
    var prefix, suffix := new real[block], new real[block];
    var scratch := Scratch(vBlock, oBlock, scores, prefix, suffix);
    ghost var height, width, m0 := state.Length0, state.Length1, View(state);
    ghost var tokens := ChunkTokens(a, q, k, v, height, width);
    var sb := 0;
    StateAtStart(tokens, m0, height, width);
    while sb < |a|
      invariant 0 <= sb <= |a|
      invariant View(state) == StateAfter(tokens, sb, m0, height, width)
      invariant forall s :: 0 <= s < sb ==> Row(output, s) == OutputAt(tokens, s, timing, m0, height, width)
    {
      var hi := if |a| - sb < block then |a| else sb + block;
      ChunkTokensSlice(a, q, k, v, height, width, sb, hi);
      ghost var done := View(output);
      ChunkBlock(a[sb..hi], q[sb..hi], k[sb..hi], v[sb..hi], timing, state, output, sb, scratch, lanes);
      CutAndResume(tokens, sb, hi, hi - sb, m0, height, width);
      forall s | 0 <= s < hi ensures Row(output, s) == OutputAt(tokens, s, timing, m0, height, width) {
        if sb <= s {
          OutputsResume(tokens, sb, hi, s - sb, timing, m0, height, width);
          assert Row(output, sb + (s - sb))
               == OutputAt(tokens[sb..hi], s - sb, timing, StateAfter(tokens, sb, m0, height, width), height, width);
        } else {
          assert Row(output, s) == done[s];
        }
      }
      sb := hi;
    }
  }
}
