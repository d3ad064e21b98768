/** Why a block of tokens can be processed at once: closed forms of an affine
    column recurrence, and the triangular system of the gated delta rule. */
module BlockAlgebra {
  import opened Vectors
  import opened ScanReference

  /** The rows k[0..] all have the state height. */
  ghost predicate AllHeight(k: seq<Vec>, height: nat) {
    forall j :: 0 <= j < |k| ==> |k[j]| == height
  }

  /** The column recurrence c := a[t] * c + u[t] * k[t], run for t tokens. */
  ghost function AffineColumn(a: Vec, u: Vec, k: seq<Vec>, c: Vec, t: nat): (r: Vec)
    requires t <= |a| && t <= |u| && t <= |k| && AllHeight(k, |c|)
    ensures |r| == |c|
  {
    if t == 0 then c
    else Affine(a[t - 1], AffineColumn(a, u, k, c, t - 1), u[t - 1], k[t - 1])
  }

  /** Sum over j < i of a[j+1] * ... * a[t-1] * u[j] * x[j]. */
  ghost function Blend(a: Vec, u: Vec, x: Vec, i: nat, t: nat): real
    requires i <= t <= |a| && i <= |u| && i <= |x|
    decreases i
  {
    if i == 0 then 0.0
    else Blend(a, u, x, i - 1, t) + Prod(a, i, t) * u[i - 1] * x[i - 1]
  }

  lemma {:induction false} BlendStep(a: Vec, u: Vec, x: Vec, i: nat, t: nat)
    requires i <= t < |a| && i <= |u| && i <= |x|
    ensures Blend(a, u, x, i, t + 1) == a[t] * Blend(a, u, x, i, t)
  {
    if i > 0 {
      BlendStep(a, u, x, i - 1, t);
      var p, y := Prod(a, i, t), u[i - 1] * x[i - 1];
      assert Prod(a, i, t + 1) == p * a[t];
      assert (p * a[t]) * u[i - 1] * x[i - 1] == a[t] * (p * u[i - 1] * x[i - 1]);
    }
  }

  /** x holds the dot products of y with the rows of k. */
  ghost predicate Projects(x: Vec, y: Vec, k: seq<Vec>)
    requires AllHeight(k, |y|)
  {
    |x| == |k| && forall j :: 0 <= j < |k| ==> x[j] == Dot(y, k[j])
  }

  /** x holds component d of each row of k. */
  ghost predicate Selects(x: Vec, d: nat, k: seq<Vec>, height: nat)
    requires AllHeight(k, height) && d < height
  {
    |x| == |k| && forall j :: 0 <= j < |k| ==> x[j] == k[j][d]
  }

  ghost function Projections(y: Vec, k: seq<Vec>): (x: Vec)
    requires AllHeight(k, |y|)
    ensures |x| == |k| && Projects(x, y, k)
  {
    seq(|k|, j requires 0 <= j < |k| => Dot(y, k[j]))
  }

  ghost function Components(k: seq<Vec>, height: nat, d: nat): (x: Vec)
    requires AllHeight(k, height) && d < height
    ensures |x| == |k| && Selects(x, d, k, height)
  {
    seq(|k|, j requires 0 <= j < |k| => k[j][d])
  }

  /** A closed form over plain numbers: x0 decayed through t tokens plus the blend of the first n. */
  ghost function Mixed(a: Vec, u: Vec, x: Vec, x0: real, n: nat, t: nat): real
    requires n <= t <= |a| && n <= |u| && n <= |x|
  {
    Times(Prod(a, 0, t), x0) + Blend(a, u, x, n, t)
  }

  lemma GateMixed(a: Vec, u: Vec, x: Vec, x0: real, n: nat)
    requires n < |a| && n <= |u| && n <= |x|
    ensures Times(a[n], Mixed(a, u, x, x0, n, n)) == Mixed(a, u, x, x0, n, n + 1)
  {
    BlendStep(a, u, x, n, n);
    Distribute(a[n], Prod(a, 0, n), Prod(a, 0, n + 1), x0, Blend(a, u, x, n, n), Blend(a, u, x, n, n + 1));
  }

  lemma Distribute(a: real, p: real, p': real, x0: real, blend: real, blend': real)
    requires p' == p * a && blend' == a * blend
    ensures Times(a, Times(p, x0) + blend) == Times(p', x0) + blend'
  {
    assert a * (p * x0 + blend) == a * (p * x0) + a * blend;
    assert a * (p * x0) == (p * a) * x0;
  }

  lemma StepMixed(a: Vec, u: Vec, x: Vec, x0: real, n: nat)
    requires n < |a| && n < |u| && n < |x|
    ensures Times(a[n], Mixed(a, u, x, x0, n, n)) + Times(u[n], x[n]) == Mixed(a, u, x, x0, n + 1, n + 1)
  {
    GateMixed(a, u, x, x0, n);
    assert Prod(a, n + 1, n + 1) == 1.0;
    assert 1.0 * u[n] * x[n] == u[n] * x[n];
  }

  /** Reading the column with y: the decayed initial column plus every decayed contribution. */
  lemma {:induction false} ReadoutClosedForm(a: Vec, u: Vec, k: seq<Vec>, c: Vec, y: Vec, x: Vec, t: nat)
    requires t <= |a| && t <= |u| && t <= |k| == |x| && AllHeight(k, |c|) && |y| == |c| && Projects(x, y, k)
    ensures Dot(y, AffineColumn(a, u, k, c, t)) == Mixed(a, u, x, Dot(y, c), t, t)
  {
    hide Dot, DotN, Mixed, Times, Affine, Blend, Prod;
    if t == 0 {
      MixedEmpty(a, u, x, Dot(y, c));
    } else {
      var n := t - 1;
      ReadoutClosedForm(a, u, k, c, y, x, n);
      DotAffineAll(y, a[n], AffineColumn(a, u, k, c, n), u[n], k[n]);
      StepMixed(a, u, x, Dot(y, c), n);
    }
  }

  lemma MixedEmpty(a: Vec, u: Vec, x: Vec, x0: real)
    ensures Mixed(a, u, x, x0, 0, 0) == x0
  {
  }

  lemma MixedParts(a: Vec, u: Vec, x: Vec, x0: real, n: nat, t: nat)
    requires n <= t <= |a| && n <= |u| && n <= |x|
    ensures Mixed(a, u, x, x0, n, t) == Times(Prod(a, 0, t), x0) + Blend(a, u, x, n, t)
  {
  }

  lemma DotAffineAll(z: Vec, a: real, x: Vec, u: real, y: Vec)
    requires |z| == |x| == |y|
    ensures Dot(z, Affine(a, x, u, y)) == Times(a, Dot(z, x)) + Times(u, Dot(z, y))
  {
    DotAffine(z, a, x, u, y, |z|);
  }

  /** Token m reads the state it sees through its own gate. */
  lemma GatedReadout(a: Vec, u: Vec, k: seq<Vec>, c: Vec, y: Vec, x: Vec, m: nat)
    requires m < |a| && m <= |u| && m <= |k| == |x| && AllHeight(k, |c|) && |y| == |c| && Projects(x, y, k)
    ensures Times(a[m], Dot(y, AffineColumn(a, u, k, c, m))) == Mixed(a, u, x, Dot(y, c), m, m + 1)
  {
    hide *;
    ReadoutClosedForm(a, u, k, c, y, x, m);
    GateMixed(a, u, x, Dot(y, c), m);
  }

  /** Element d of the column, in the same closed form. */
  lemma {:induction false} ElementClosedForm(a: Vec, u: Vec, k: seq<Vec>, c: Vec, d: nat, x: Vec, t: nat)
    requires t <= |a| && t <= |u| && t <= |k| == |x| && AllHeight(k, |c|) && d < |c| && Selects(x, d, k, |c|)
    ensures AffineColumn(a, u, k, c, t)[d] == Mixed(a, u, x, c[d], t, t)
  {
    hide Mixed, Blend, Prod, Times;
    if t == 0 {
      MixedEmpty(a, u, x, c[d]);
    } else {
      var n := t - 1;
      ElementClosedForm(a, u, k, c, d, x, n);
      StepMixed(a, u, x, c[d], n);
    }
  }

  // ---- The chunkable recurrence: Scale, then Outer(k, v) ---------------------

  /** Token data of one row of the kernel, after modulation. */
  ghost predicate TokenData(a: Vec, q: seq<Vec>, k: seq<Vec>, v: seq<Vec>, height: nat, width: nat) {
    |q| == |k| == |v| == |a| && AllHeight(q, height) && AllHeight(k, height) && AllHeight(v, width)
  }

  ghost function ChunkToken(a: real, q: Vec, k: Vec, v: Vec): Token {
    Token([Scale(Constant(a, |k|)), Outer(k, v)], q)
  }

  ghost function ChunkTokens(a: Vec, q: seq<Vec>, k: seq<Vec>, v: seq<Vec>, height: nat, width: nat): (r: seq<Token>)
    requires TokenData(a, q, k, v, height, width)
    ensures |r| == |a| && TokensFit(r, height, width)
  {
    seq(|a|, t requires 0 <= t < |a| => ChunkToken(a[t], q[t], k[t], v[t]))
  }

  lemma ChunkStepIsAffine(a: real, q: Vec, k: Vec, v: Vec, c: Vec, height: nat, width: nat, dv: nat)
    requires |k| == |c| == |q| == height && |v| == width && dv < width
    ensures ColumnSteps(ChunkToken(a, q, k, v).steps, 2, c, height, width, dv) == Affine(a, c, v[dv], k)
  {
    var steps := ChunkToken(a, q, k, v).steps;
    GateStepScales(steps, a, c, height, width, dv);
    var final := ColumnStep(steps[1], Scaled(a, c), height, width, dv);
    forall d | 0 <= d < height ensures final[d] == Affine(a, c, v[dv], k)[d] {
      assert k[d] * v[dv] == v[dv] * k[d];
    }
  }

  lemma GateStepScales(steps: seq<Step>, a: real, c: Vec, height: nat, width: nat, dv: nat)
    requires |steps| > 0 && steps[0] == Scale(Constant(a, height)) && |c| == height && dv < width
    ensures ColumnSteps(steps, 1, c, height, width, dv) == Scaled(a, c)
  {
    assert ColumnSteps(steps, 0, c, height, width, dv) == c;
    var gated := ColumnStep(steps[0], c, height, width, dv);
    forall d | 0 <= d < height ensures gated[d] == Scaled(a, c)[d] {
      assert c[d] * a == a * c[d];
    }
    assert gated == Scaled(a, c);
  }

  lemma {:induction false} ChunkColumn(
    a: Vec, q: seq<Vec>, k: seq<Vec>, v: seq<Vec>, c: Vec, height: nat, width: nat, dv: nat, t: nat)
    requires TokenData(a, q, k, v, height, width) && |c| == height && dv < width && t <= |a|
    ensures ColumnAfter(ChunkTokens(a, q, k, v, height, width), t, c, height, width, dv)
         == AffineColumn(a, Components(v, width, dv), k, c, t)
  {
    if t > 0 {
      var n := t - 1;
      ChunkColumn(a, q, k, v, c, height, width, dv, n);
      var before := AffineColumn(a, Components(v, width, dv), k, c, n);
      ChunkStepIsAffine(a[n], q[n], k[n], v[n], before, height, width, dv);
    }
  }

  // ---- The gated delta rule: Scale, Rank1(-beta k, k), Outer(k, beta v) ------

  ghost function DeltaToken(a: real, b: real, q: Vec, k: Vec, v: Vec): Token {
    Token([Scale(Constant(a, |k|)), Rank1(Scaled(-b, k), k), Outer(k, Scaled(b, v))], q)
  }

  ghost function DeltaTokens(
    a: Vec, b: Vec, q: seq<Vec>, k: seq<Vec>, v: seq<Vec>, height: nat, width: nat): (r: seq<Token>)
    requires TokenData(a, q, k, v, height, width) && |b| == |a|
    ensures |r| == |a| && TokensFit(r, height, width)
  {
    seq(|a|, t requires 0 <= t < |a| => DeltaToken(a[t], b[t], q[t], k[t], v[t]))
  }

  /** x scaled by b, element by element. */
  ghost function Weighted(b: Vec, w: Vec): (u: Vec)
    requires |b| == |w|
    ensures |u| == |b|
  {
    seq(|b|, j requires 0 <= j < |b| => Times(b[j], w[j]))
  }

  /** w[t] is what token t still has to learn: its value minus what the gated state already answers. */
  ghost predicate IsResidual(w: Vec, a: Vec, b: Vec, k: seq<Vec>, x: Vec, c: Vec)
    requires |w| == |a| == |b| == |k| == |x| && AllHeight(k, |c|)
  {
    forall t :: 0 <= t < |w| ==>
      w[t] == x[t] - Times(a[t], Dot(k[t], AffineColumn(a, Weighted(b, w), k, c, t)))
  }

  lemma DeltaStepIsAffine(a: real, b: real, u: real, q: Vec, k: Vec, v: Vec, c: Vec, height: nat, width: nat, dv: nat)
    requires |k| == |c| == |q| == height && |v| == width && dv < width
    requires u == Times(b, v[dv] - Times(a, Dot(k, c)))
    ensures ColumnSteps(DeltaToken(a, b, q, k, v).steps, 3, c, height, width, dv) == Affine(a, c, u, k)
  {
    hide Dot, DotN, Times, Affine;
    var steps := DeltaToken(a, b, q, k, v).steps;
    var gated := Scaled(a, c);
    GateStepScales(steps, a, c, height, width, dv);
    DotScaledAll(k, a, c);
    var p := Dot(k, gated);
    var corrected := ColumnStep(steps[1], gated, height, width, dv);
    assert ColumnSteps(steps, 2, c, height, width, dv) == corrected;
    var final := ColumnStep(steps[2], corrected, height, width, dv);
    assert ColumnSteps(steps, 3, c, height, width, dv) == final;
    forall d | 0 <= d < height ensures final[d] == Affine(a, c, u, k)[d] {
      DeltaElement(a, c, b, u, k, v[dv], p, d, gated[d], corrected[d], final[d]);
    }
    assert final == Affine(a, c, u, k);
  }

  lemma DotScaledAll(z: Vec, a: real, x: Vec)
    requires |z| == |x|
    ensures Dot(z, Scaled(a, x)) == Times(a, Dot(z, x))
  {
    DotScaledRight(z, a, x, |z|);
  }

  /** One element through gate, correction and write. */
  lemma DeltaElement(
    a: real, c: Vec, b: real, u: real, k: Vec, v: real, p: real, d: nat, gated: real, corrected: real, final: real)
    requires d < |c| == |k| && u == Times(b, v - p)
    requires gated == a * c[d] && corrected == gated + (-b * k[d]) * p && final == corrected + k[d] * (b * v)
    ensures final == Affine(a, c, u, k)[d]
  {
    assert (-b * k[d]) * p + k[d] * (b * v) == (b * (v - p)) * k[d];
  }

  lemma ResidualAtStep(w: Vec, u: Vec, a: Vec, b: Vec, k: seq<Vec>, x: Vec, c: Vec, n: nat)
    requires |w| == |a| == |b| == |k| == |x| && AllHeight(k, |c|) && n < |a|
    requires IsResidual(w, a, b, k, x, c) && u == Weighted(b, w)
    ensures w[n] == x[n] - Times(a[n], Dot(k[n], AffineColumn(a, u, k, c, n)))
  {
    hide Dot, AffineColumn, Times, Weighted;
  }

  lemma WeightedAt(b: Vec, w: Vec, n: nat)
    requires |b| == |w| && n < |b|
    ensures Weighted(b, w)[n] == Times(b[n], w[n])
  {
  }

  /** The residuals turn the delta scan into the plain affine recurrence. */
  lemma {:induction false} DeltaColumn(
    w: Vec, a: Vec, b: Vec, q: seq<Vec>, k: seq<Vec>, v: seq<Vec>, c: Vec,
    height: nat, width: nat, dv: nat, t: nat)
    requires TokenData(a, q, k, v, height, width) && |b| == |a| == |w| && |c| == height && dv < width && t <= |a|
    requires IsResidual(w, a, b, k, Components(v, width, dv), c)
    ensures ColumnAfter(DeltaTokens(a, b, q, k, v, height, width), t, c, height, width, dv)
         == AffineColumn(a, Weighted(b, w), k, c, t)
  {
    hide Affine, ColumnSteps, Dot, IsResidual, ColumnStep;
    if t > 0 {
      DeltaColumn(w, a, b, q, k, v, c, height, width, dv, t - 1);
      var n, u := t - 1, Weighted(b, w);
      var before := AffineColumn(a, u, k, c, n);
      ResidualAtStep(w, u, a, b, k, Components(v, width, dv), c, n);
      WeightedAt(b, w, n);
      DeltaStepIsAffine(a[n], b[n], u[n], q[n], k[n], v[n], before, height, width, dv);
    }
  }

  /** The weight of token j for a reader y that sees the first t tokens:
      beta[j] * (y . k[j]) * a[j+1] * ... * a[t-1]. */
  ghost function ScoreAt(a: Vec, b: Vec, y: Vec, k: seq<Vec>, t: nat, j: nat): real
    requires j < t <= |a| && j < |b| && j < |k| && |y| == |k[j]|
  {
    b[j] * Prod(a, j + 1, t) * Dot(y, k[j])
  }

  /** A row of scores times the written values is the blended history that y reads. */
  lemma {:induction false} ScoresBlend(row: Vec, w: Vec, a: Vec, b: Vec, y: Vec, x: Vec, k: seq<Vec>, t: nat, i: nat)
    requires |w| == |b| == |a| == |k| == |x| && AllHeight(k, |y|) && i <= t <= |a| && i <= |row|
    requires Projects(x, y, k)
    requires forall j :: 0 <= j < i ==> row[j] == ScoreAt(a, b, y, k, t, j)
    ensures DotN(row, w, i) == Blend(a, Weighted(b, w), x, i, t)
  {
    if i > 0 {
      var j := i - 1;
      ScoresBlend(row, w, a, b, y, x, k, t, j);
      assert row[j] == b[j] * Prod(a, i, t) * x[j];
      ScoreTerm(b[j], Prod(a, i, t), x[j], w[j], Weighted(b, w)[j], row[j]);
    }
  }

  lemma ScoreTerm(b: real, p: real, x: real, w: real, u: real, score: real)
    requires u == b * w && score == b * p * x
    ensures score * w == p * u * x
  {
  }

  /** Every solution of (I + L) w = v - p is the residual sequence of the scan. */
  lemma SolutionIsResidual(
    w: Vec, rows: seq<Vec>, a: Vec, b: Vec, k: seq<Vec>, x: Vec, c: Vec)
    requires |w| == |a| == |b| == |k| == |x| == |rows| && AllHeight(k, |c|)
    requires forall m :: 0 <= m < |a| ==> |rows[m]| >= m
    requires forall m, j :: 0 <= j < m < |a| ==> rows[m][j] == ScoreAt(a, b, k[m], k, m + 1, j)
    requires forall m :: 0 <= m < |a| ==>
      w[m] + DotN(rows[m], w, m) == x[m] - Times(Prod(a, 0, m + 1), Dot(k[m], c))
    ensures IsResidual(w, a, b, k, x, c)
  {
    hide Dot, DotN, AffineColumn, Prod, Times, ScoreAt;
    forall m | 0 <= m < |w|
      ensures w[m] == x[m] - Times(a[m], Dot(k[m], AffineColumn(a, Weighted(b, w), k, c, m)))
    {
      ResidualAt(w, rows[m], a, b, k, Projections(k[m], k), k[m], x[m], c, m);
    }
  }

  lemma ResidualAt(w: Vec, row: Vec, a: Vec, b: Vec, k: seq<Vec>, p: Vec, y: Vec, x: real, c: Vec, m: nat)
    requires |w| == |a| == |b| == |k| == |p| && AllHeight(k, |c|) && m < |a| && |row| >= m && |y| == |c|
    requires Projects(p, y, k)
    requires forall j :: 0 <= j < m ==> row[j] == ScoreAt(a, b, y, k, m + 1, j)
    requires w[m] + DotN(row, w, m) == x - Times(Prod(a, 0, m + 1), Dot(y, c))
    ensures w[m] == x - Times(a[m], Dot(y, AffineColumn(a, Weighted(b, w), k, c, m)))
  {
    hide Dot, DotN, AffineColumn, Blend, Prod, Times, ScoreAt;
    ScoresBlend(row, w, a, b, y, p, k, m + 1, m);
    GatedReadout(a, Weighted(b, w), k, c, y, p, m);
  }

  /** Entries past the reader's horizon are zero and drop out. */
  lemma {:induction false} DotZeroTail(x: Vec, y: Vec, i: nat, n: nat)
    requires i <= n <= |x| && n <= |y|
    requires forall j :: i <= j < n ==> x[j] == 0.0
    ensures DotN(x, y, n) == DotN(x, y, i)
  {
    if i < n { DotZeroTail(x, y, i, n - 1); }
  }

  /** What the kernels store for a reader of the first t tokens is the scan's readout. */
  lemma OutputBridge(row: Vec, w: Vec, a: Vec, b: Vec, y: Vec, k: seq<Vec>, c: Vec, n: nat, t: nat)
    requires |w| == |b| == |a| == |k| == n <= |row| && AllHeight(k, |c|) && |y| == |c| && t <= n
    requires forall j :: 0 <= j < t ==> row[j] == ScoreAt(a, b, y, k, t, j)
    requires forall j :: t <= j < n ==> row[j] == 0.0
    ensures Times(Prod(a, 0, t), Dot(y, c)) + DotN(row, w, n) == Dot(y, AffineColumn(a, Weighted(b, w), k, c, t))
  {
    hide Dot, DotN, AffineColumn, Blend, Prod, Times, ScoreAt;
    var x := Projections(y, k);
    DotZeroTail(row, w, t, n);
    ScoresBlend(row, w, a, b, y, x, k, t, t);
    ReadoutClosedForm(a, Weighted(b, w), k, c, y, x, t);
  }

  /** The state element the kernels write back is the scan's element after the block. */
  lemma StateBridge(weights: Vec, u: Vec, a: Vec, k: seq<Vec>, c: Vec, d: nat, x: Vec, n: nat)
    requires |weights| == |u| == |a| == |k| == |x| == n && AllHeight(k, |c|) && d < |c| && Selects(x, d, k, |c|)
    requires forall j :: 0 <= j < n ==> weights[j] == Times(x[j], Prod(a, j + 1, n))
    ensures Times(Prod(a, 0, n), c[d]) + DotN(weights, u, n) == AffineColumn(a, u, k, c, n)[d]
  {
    hide *;
    WritesBlend(weights, u, a, x, n, n);
    MixedParts(a, u, x, c[d], n, n);
    ElementClosedForm(a, u, k, c, d, x, n);
  }

  lemma {:induction false} WritesBlend(weights: Vec, u: Vec, a: Vec, x: Vec, n: nat, i: nat)
    requires |weights| == |u| == |a| == |x| == n && i <= n
    requires forall j :: 0 <= j < n ==> weights[j] == Times(x[j], Prod(a, j + 1, n))
    ensures DotN(weights, u, i) == Blend(a, u, x, i, n)
  {
    if i > 0 {
      var j := i - 1;
      WritesBlend(weights, u, a, x, n, j);
      var p := Prod(a, i, n);
      assert (x[j] * p) * u[j] == p * u[j] * x[j];
    }
  }
}
