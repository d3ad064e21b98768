/** The gated delta lowering: residuals by forward substitution, then one block readout
    and one block state update, proved equal to the token-by-token scan. */
module DeltaKernel {
  import opened Arrays
  import opened Vectors
  import opened ScanReference
  import opened BlockAlgebra
  import opened LinearBlocks

  /** The per-worker scratch of one block. */
  datatype Scratch = Scratch(
    wBlock: array2<real>, oBlock: array2<real>, scores: array2<real>,
    prefix: array<real>, suffix: array<real>, kdecay: array<real>)
  {
    ghost predicate Fits(block: nat, width: nat) {
      && wBlock.Length0 == oBlock.Length0 == block && wBlock.Length1 == oBlock.Length1 == width
      && scores.Length0 == scores.Length1 == block
      && prefix.Length == suffix.Length == kdecay.Length == block
      && wBlock != oBlock && wBlock != scores && oBlock != scores
      && prefix != suffix && prefix != kdecay && suffix != kdecay
    }
  }

  /** Row m of the score block: beta[j] * (y[m] . k[j]) * gates j+1..m, strictly below the
      diagonal for the triangular system, up to it for the readout. */
  method FillScores(
    scores: array2<real>, y: seq<Vec>, k: seq<Vec>, decay: Vec, beta: Vec, diagonal: bool, lanes: nat,
    ghost height: nat)
    requires |y| == |k| == |decay| == |beta| <= scores.Length0 == scores.Length1 && lanes > 0
    requires AllHeight(y, height) && AllHeight(k, height)
    modifies scores
    ensures forall m, j :: 0 <= j <= m < |k| && (j < m || diagonal) ==>
      scores[m, j] == ScoreAt(decay, beta, y[m], k, m + 1, j)
    ensures forall m, j :: 0 <= m < |k| && 0 <= j < scores.Length1 && (m < j || (m == j && !diagonal)) ==>
      scores[m, j] == 0.0
  {
    for m := 0 to |k|
      invariant forall i, j :: 0 <= j <= i < m && (j < i || diagonal) ==>
        scores[i, j] == ScoreAt(decay, beta, y[i], k, i + 1, j)
      invariant forall i, j :: 0 <= i < m && 0 <= j < scores.Length1 && (i < j || (i == j && !diagonal)) ==>
        scores[i, j] == 0.0
    {
      FillScoreRow(scores, m, y[m], k, decay, beta, diagonal, lanes);
    }
  }

  method FillScoreRow(
    scores: array2<real>, m: nat, y: Vec, k: seq<Vec>, decay: Vec, beta: Vec, diagonal: bool, lanes: nat)
    requires m < |k| == |decay| == |beta| <= scores.Length0 == scores.Length1 && lanes > 0
    requires AllHeight(k, |y|)
    modifies scores
    ensures forall i, j :: 0 <= i < scores.Length0 && i != m && 0 <= j < scores.Length1 ==>
      scores[i, j] == old(scores[i, j])
    ensures forall j :: 0 <= j <= m && (j < m || diagonal) ==>
      scores[m, j] == ScoreAt(decay, beta, y, k, m + 1, j)
    ensures forall j :: m <= j < scores.Length1 && (m < j || !diagonal) ==> scores[m, j] == 0.0
  {
    for j := 0 to scores.Length1
      invariant forall i, e :: 0 <= i < scores.Length0 && i != m && 0 <= e < scores.Length1 ==>
        scores[i, e] == old(scores[i, e])
      invariant forall e :: 0 <= e < j ==> scores[m, e] == 0.0
    {
      scores[m, j] := 0.0;
    }
    hide ScoreAt;
    var between := 1.0;
    var start := if diagonal then m + 1 else m;
    for j := start downto 0
      invariant between == Prod(decay, if j > m then m + 1 else j + 1, m + 1)
      invariant forall i, e :: 0 <= i < scores.Length0 && i != m && 0 <= e < scores.Length1 ==>
        scores[i, e] == old(scores[i, e])
      invariant forall e :: j <= e < start ==> scores[m, e] == ScoreAt(decay, beta, y, k, m + 1, e)
      invariant forall e :: start <= e < scores.Length1 ==> scores[m, e] == 0.0
    {
      if j != m {
        ProdLeft(decay, j + 1, m + 1);
        between := between * decay[j + 1];
      }
      var score := Score(decay, beta, y, k, between, m + 1, j, lanes);
      scores[m, j] := score;
    }
  }

  method Score(decay: Vec, beta: Vec, y: Vec, k: seq<Vec>, between: real, t: nat, j: nat, lanes: nat)
    returns (score: real)
    requires j < t <= |decay| && j < |beta| && j < |k| && |y| == |k[j]| && lanes > 0
    requires between == Prod(decay, j + 1, t)
    ensures score == ScoreAt(decay, beta, y, k, t, j)
  {
    var product := DotProduct(y, k[j], lanes);
    score := beta[j] * between * product;
  }

  method CopyGates(prefix: array<real>, kdecay: array<real>, n: nat)
    requires n <= prefix.Length && n <= kdecay.Length && prefix != kdecay
    modifies kdecay
    ensures forall m :: 0 <= m < n ==> kdecay[m] == prefix[m]
  {
    for m := 0 to n
      invariant forall i :: 0 <= i < m ==> kdecay[i] == prefix[i]
    {
      kdecay[m] := prefix[m];
    }
  }

  /** w becomes what each token still has to learn, column by column. */
  method Residuals(a: Vec, b: Vec, k: seq<Vec>, v: seq<Vec>, state: array2<real>, scratch: Scratch, lanes: nat)
    requires 0 < |a| == |b| == |k| == |v| <= scratch.scores.Length0 && lanes > 0
    requires scratch.Fits(scratch.scores.Length0, state.Length1)
    requires AllHeight(k, state.Length0) && AllHeight(v, state.Length1)
    requires state != scratch.wBlock && state != scratch.scores
    requires forall m :: 0 <= m < |a| ==> scratch.kdecay[m] == Prod(a, 0, m + 1)
    modifies scratch.wBlock, scratch.scores
    ensures forall dv :: 0 <= dv < state.Length1 ==>
      IsResidual(Col(scratch.wBlock, dv)[..|a|], a, b, k, Components(v, state.Length1, dv), Col(state, dv))
  {
    var w, scores := scratch.wBlock, scratch.scores;
    var n := |a|;
    ReadoutBlock(k, state, w, scratch.kdecay);
    SubtractFrom(v, w);
    FillScores(scores, k, k, a, b, false, lanes, state.Length0);
    label Solve:
    assert forall m, dv :: 0 <= m < n && 0 <= dv < state.Length1 ==>
      w[m, dv] == v[m][dv] - Times(Prod(a, 0, m + 1), Dot(k[m], Col(state, dv)));
    DeltaSolve(w, scores, n);
    forall dv | 0 <= dv < state.Length1
      ensures IsResidual(Col(w, dv)[..n], a, b, k, Components(v, state.Length1, dv), Col(state, dv))
    {
      forall m | 0 <= m < n
        ensures Col(w, dv)[m] + DotN(Row(scores, m), Col(w, dv), m)
          == v[m][dv] - Times(Prod(a, 0, m + 1), Dot(k[m], Col(state, dv)))
      {
        assert w[m, dv] + DotN(Row(scores, m), Col(w, dv), m) == old@Solve(w[m, dv]);
      }
      SolvedColumn(Col(w, dv), View(scores), a, b, k, v, Col(state, dv), dv, state.Length1, n);
    }
  }

  method SubtractFrom(v: seq<Vec>, w: array2<real>)
    requires |v| <= w.Length0 && AllHeight(v, w.Length1)
    modifies w
    ensures forall m, dv :: 0 <= m < w.Length0 && 0 <= dv < w.Length1 ==>
      w[m, dv] == if m < |v| then v[m][dv] - old(w[m, dv]) else old(w[m, dv])
  {
    for m := 0 to |v|
      invariant forall i, dv :: 0 <= i < w.Length0 && 0 <= dv < w.Length1 ==>
        w[i, dv] == if i < m then v[i][dv] - old(w[i, dv]) else old(w[i, dv])
    {
      for dv := 0 to w.Length1
        invariant forall i, e :: 0 <= i < w.Length0 && 0 <= e < w.Length1 ==>
          w[i, e] == if i < m || (i == m && e < dv) then v[i][e] - old(w[i, e]) else old(w[i, e])
      {
        w[m, dv] := v[m][dv] - w[m, dv];
      }
    }
  }

  lemma SolvedColumn(
    w: Vec, scores: Matrix, a: Vec, b: Vec, k: seq<Vec>, v: seq<Vec>, c: Vec, dv: nat, width: nat, n: nat)
    requires |a| == |b| == |k| == |v| == n <= |w| && n <= |scores|
    requires AllHeight(k, |c|) && AllHeight(v, width) && dv < width
    requires forall m :: 0 <= m < n ==> |scores[m]| >= n
    requires forall m, j :: 0 <= j < m < n ==> scores[m][j] == ScoreAt(a, b, k[m], k, m + 1, j)
    requires forall m :: 0 <= m < n ==>
      w[m] + DotN(scores[m], w, m) == v[m][dv] - Times(Prod(a, 0, m + 1), Dot(k[m], c))
    ensures IsResidual(w[..n], a, b, k, Components(v, width, dv), c)
  {
    hide Times, Dot, DotN, ScoreAt, Prod, IsResidual;
    forall m | 0 <= m < n ensures DotN(scores[m], w, m) == DotN(scores[m], w[..n], m) {
      DotCongruent(scores[m], w, scores[m], w[..n], m);
    }
    SolutionIsResidual(w[..n], scores[..n], a, b, k, Components(v, width, dv), c);
  }

  /** The block's outputs: the decayed state reading plus the weighted residuals. */
  method BlockReadout(a: Vec, b: Vec, q: seq<Vec>, k: seq<Vec>, state: array2<real>, scratch: Scratch, lanes: nat)
    requires 0 < |a| == |b| == |k| == |q| <= scratch.scores.Length0 && lanes > 0
    requires scratch.Fits(scratch.scores.Length0, state.Length1)
    requires AllHeight(k, state.Length0) && AllHeight(q, state.Length0)
    requires state !in {scratch.wBlock, scratch.oBlock, scratch.scores}
    requires forall m :: 0 <= m < |a| ==> scratch.prefix[m] == Prod(a, 0, m + 1)
    modifies scratch.oBlock, scratch.scores
    ensures forall m, dv :: 0 <= m < |a| && 0 <= dv < state.Length1 ==>
      scratch.oBlock[m, dv] == Dot(q[m],
        AffineColumn(a, Weighted(b, Col(scratch.wBlock, dv)[..|a|]), k, Col(state, dv), m + 1))
  {
    hide Times, Dot, DotN, Prod, ScoreAt, AffineColumn, Weighted;
    var n := |a|;
    ReadoutBlock(q, state, scratch.oBlock, scratch.prefix);
    FillScores(scratch.scores, q, k, a, b, true, lanes, state.Length0);
    ValuesBlock(scratch.scores, scratch.wBlock, scratch.oBlock, n);
    forall m, dv | 0 <= m < n && 0 <= dv < state.Length1
      ensures scratch.oBlock[m, dv]
        == Dot(q[m], AffineColumn(a, Weighted(b, Col(scratch.wBlock, dv)[..n]), k, Col(state, dv), m + 1))
    {
      BlockOutput(Row(scratch.scores, m), Col(scratch.wBlock, dv), a, b, q[m], k, Col(state, dv), n, m + 1);
    }
  }

  /** One block: the state and the outputs land where the ordered scan puts them. */
  method DeltaBlock(
    a: Vec, b: Vec, q: seq<Vec>, k: seq<Vec>, v: seq<Vec>,
    state: array2<real>, output: array2<real>, sb: nat, scratch: Scratch, lanes: nat)
    requires 0 < |a| == |b| <= scratch.scores.Length0 && lanes > 0
    requires scratch.Fits(scratch.scores.Length0, state.Length1)
    requires TokenData(a, q, k, v, state.Length0, state.Length1)
    requires sb + |a| <= output.Length0 && output.Length1 == state.Length1
    requires state !in {scratch.wBlock, scratch.oBlock, scratch.scores, output}
    requires output !in {scratch.wBlock, scratch.oBlock, scratch.scores}
    modifies state, output, scratch.wBlock, scratch.oBlock, scratch.scores, scratch.prefix, scratch.suffix,
      scratch.kdecay
    ensures View(state)
         == StateAfter(DeltaTokens(a, b, q, k, v, state.Length0, state.Length1), |a|, old(View(state)), state.Length0,
           state.Length1)
    ensures forall m :: 0 <= m < |a| ==>
      Row(output, sb + m) == OutputAt(DeltaTokens(a, b, q, k, v, state.Length0, state.Length1), m, After,
        old(View(state)), state.Length0, state.Length1)
    ensures forall s, dv :: 0 <= s < output.Length0 && 0 <= dv < output.Length1 && !(sb <= s < sb + |a|) ==>
      output[s, dv] == old(output[s, dv])
  {
    hide Times, Dot, DotN, Prod, AffineColumn, IsResidual, Column, StateAfter, OutputAt;
    var n := |a|;
    ghost var width, m0, entry := state.Length1, View(state), Columns(state);
    forall dv | 0 <= dv < width ensures Column(m0, state.Length0, width, dv) == entry[dv] {
      ViewColumn(state, dv);
    }
    var blockScale := DecayProducts(a, scratch.prefix, scratch.suffix, After);
    CopyGates(scratch.prefix, scratch.kdecay, n);
    Residuals(a, b, k, v, state, scratch, lanes);
    assert |b| == |q| == |k| == |v| == n;
    ghost var solved := Columns(scratch.wBlock);
    ghost var w := seq(width, dv requires 0 <= dv < width => solved[dv][..n]);
    BlockReadout(a, b, q, k, state, scratch, lanes);
    ghost var outputs := View(scratch.oBlock)[..n];
    CopyRows(scratch.oBlock, output, sb, n);
    ScaleRows(scratch.wBlock, b);
    forall dv | 0 <= dv < width ensures Col(scratch.wBlock, dv)[..n] == Weighted(b, w[dv]) {
    }
    FoldState(state, scratch.wBlock, a, k, scratch.suffix, blockScale);
    forall dv | 0 <= dv < width
      ensures Column(View(state), state.Length0, width, dv) == Col(state, dv)
    {
      ViewColumn(state, dv);
    }
    DeltaMeetsScan(a, b, q, k, v, m0, View(state), outputs, w, n, state.Length0, width);
    forall m | 0 <= m < n ensures Row(output, sb + m) == outputs[m] {
    }
  }

  /** Residual columns, read and folded as the kernel does, are the scan of the delta program. */
  lemma DeltaMeetsScan(
    a: Vec, b: Vec, q: seq<Vec>, k: seq<Vec>, v: seq<Vec>, m0: Matrix, after: Matrix, outputs: Matrix,
    w: seq<Vec>, n: nat, height: nat, width: nat)
    requires TokenData(a, q, k, v, height, width) && |a| == |b| == n == |outputs| && |w| == width
    requires IsMatrix(m0, height, width) && IsMatrix(after, height, width)
    requires forall t :: 0 <= t < n ==> |outputs[t]| == width
    requires forall dv :: 0 <= dv < width ==>
      |w[dv]| == n && IsResidual(w[dv], a, b, k, Components(v, width, dv), Column(m0, height, width, dv))
    requires forall dv :: 0 <= dv < width ==>
      Column(after, height, width, dv) == AffineColumn(a, Weighted(b, w[dv]), k, Column(m0, height, width, dv), n)
    requires forall m, dv :: 0 <= m < n && 0 <= dv < width ==>
      outputs[m][dv] == Dot(q[m], AffineColumn(a, Weighted(b, w[dv]), k, Column(m0, height, width, dv), m + 1))
    ensures after == StateAfter(DeltaTokens(a, b, q, k, v, height, width), n, m0, height, width)
    ensures forall t :: 0 <= t < n ==>
      outputs[t] == OutputAt(DeltaTokens(a, b, q, k, v, height, width), t, After, m0, height, width)
  {
    hide IsResidual, AffineColumn, Weighted, Dot, Column, ColumnAfter;
    var tokens := DeltaTokens(a, b, q, k, v, height, width);
    forall dv, t | 0 <= dv < width && 0 <= t <= n
      ensures ColumnAfter(tokens, t, Column(m0, height, width, dv), height, width, dv)
           == AffineColumn(a, Weighted(b, w[dv]), k, Column(m0, height, width, dv), t)
    {
      DeltaColumn(w[dv], a, b, q, k, v, Column(m0, height, width, dv), height, width, dv, t);
    }
    ScanFromColumns(tokens, After, m0, after, outputs, n, height, width);
  }

  lemma DeltaTokensSlice(
    a: Vec, b: Vec, q: seq<Vec>, k: seq<Vec>, v: seq<Vec>, height: nat, width: nat, lo: nat, hi: nat)
    requires TokenData(a, q, k, v, height, width) && |b| == |a| && lo <= hi <= |a|
    ensures TokenData(a[lo..hi], q[lo..hi], k[lo..hi], v[lo..hi], height, width)
    ensures DeltaTokens(a[lo..hi], b[lo..hi], q[lo..hi], k[lo..hi], v[lo..hi], height, width)
         == DeltaTokens(a, b, q, k, v, height, width)[lo..hi]
  {
  }

  /** The delta lowering of one (batch, head) row. For every block size, lane count, sequence length and
      initial state the outputs and the final state are those of the ordered scan. */
  method DeltaRow(
    a: Vec, b: Vec, q: seq<Vec>, k: seq<Vec>, v: seq<Vec>,
    state: array2<real>, output: array2<real>, block: nat, lanes: nat)
    requires block > 0 && lanes > 0 && |a| == |b| == output.Length0
    requires TokenData(a, q, k, v, state.Length0, state.Length1)
    requires output.Length1 == state.Length1 && output != state
    modifies state, output
    ensures View(state)
         == StateAfter(DeltaTokens(a, b, q, k, v, state.Length0, state.Length1), |a|, old(View(state)), state.Length0,
           state.Length1)
    ensures forall s :: 0 <= s < |a| ==>
      Row(output, s) == OutputAt(DeltaTokens(a, b, q, k, v, state.Length0, state.Length1), s, After, old(View(state)),
        state.Length0, state.Length1)
  {
    hide Dot, DotN, ApplySteps, DeltaTokens, OutputAt, StateAfter, IsMatrix;
    var wBlock, oBlock, scores := new real[block, state.Length1], new real[block, state.Length1],
      new real[block, block];
    var prefix, suffix, kdecay := new real[block], new real[block], new real[block];
    var scratch := Scratch(wBlock, oBlock, scores, prefix, suffix, kdecay);
    ghost var height, width, m0 := state.Length0, state.Length1, View(state);
    ghost var tokens := DeltaTokens(a, b, q, k, v, height, width);
    var sb := 0;
    StateAtStart(tokens, m0, height, width);
    while sb < |a|
      invariant 0 <= sb <= |a|
      invariant View(state) == StateAfter(tokens, sb, m0, height, width)
      invariant forall s :: 0 <= s < sb ==> Row(output, s) == OutputAt(tokens, s, After, m0, height, width)
    {
      var hi := if |a| - sb < block then |a| else sb + block;
      DeltaTokensSlice(a, b, q, k, v, height, width, sb, hi);
      ghost var done := View(output);
      DeltaBlock(a[sb..hi], b[sb..hi], q[sb..hi], k[sb..hi], v[sb..hi], state, output, sb, scratch, lanes);
      CutAndResume(tokens, sb, hi, hi - sb, m0, height, width);
      forall s | 0 <= s < hi ensures Row(output, s) == OutputAt(tokens, s, After, m0, height, width) {
        if sb <= s {
          OutputsResume(tokens, sb, hi, s - sb, After, m0, height, width);
          assert Row(output, sb + (s - sb))
               == OutputAt(tokens[sb..hi], s - sb, After, StateAfter(tokens, sb, m0, height, width), height, width);
        } else {
          assert Row(output, s) == done[s];
        }
      }
      sb := hi;
    }
  }
}
