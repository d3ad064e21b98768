/** The four built-in norms as online protocols, each proved to weight the active keys as its
    whole-row reference does. Scores arrive unscaled; every norm applies its own scale. */
module NormInstances {
  import opened Vectors
  import opened Softmax
  import opened RowNorms
  import opened BlockedSoftmax

  // ---- Norms that never rescale: identity, l1, sigmoid ------------------------

  /** A protocol whose state is a running sum of a term and whose weights ignore the state. */
  function Additive(term: real -> real, weight: real -> real, finalScale: real -> real): Protocol<real> {
    Protocol(0.0, (s: real, x: real) => s + term(x), (s: real, t: real, x: real) => 1.0,
      (s: real, t: real, x: real) => weight(x), finalScale)
  }

  function SumOf(term: real -> real, scores: Vec): real {
    if scores == [] then 0.0 else SumOf(term, scores[..|scores| - 1]) + term(scores[|scores| - 1])
  }

  lemma {:induction false} AdditiveState(
    term: real -> real, weight: real -> real, finalScale: real -> real, scores: Vec)
    ensures OnlineState(Additive(term, weight, finalScale), scores) == SumOf(term, scores)
  {
    if scores != [] { AdditiveState(term, weight, finalScale, scores[..|scores| - 1]); }
  }

  lemma {:induction false} AdditiveWeights(
    term: real -> real, weight: real -> real, finalScale: real -> real, scores: Vec, i: nat)
    requires i < |scores|
    ensures OnlineWeights(Additive(term, weight, finalScale), scores)[i] == weight(scores[i])
  {
    if i < |scores| - 1 {
      AdditiveWeights(term, weight, finalScale, scores[..|scores| - 1], i);
    }
  }

  function Abs(x: real): real { if x < 0.0 then -x else x }

  function Larger(x: real, y: real): real { if x < y then y else x }

  /** Weights the whole-row definitions give score i. */
  function IdentityReference(scores: Vec, i: nat): real
    requires i < |scores|
  {
    scores[i]
  }

  function L1Reference(scale: real, scores: Vec, i: nat): real
    requires i < |scores|
  {
    scores[i] * scale / Larger(SumOf((x: real) => Abs(Times(x, scale)), scores), 1.0)
  }

  function SigmoidReference(value: real -> real, scores: Vec, i: nat): real
    requires i < |scores|
  {
    var l := SumOf(value, scores);
    if l > 0.0 then value(scores[i]) / l else 0.0
  }

  function Identity(): Protocol<real> {
    Additive((x: real) => 0.0, (x: real) => x, (s: real) => 1.0)
  }

  function L1(scale: real): Protocol<real> {
    Additive((x: real) => Abs(Times(x, scale)), (x: real) => x * scale, (s: real) => 1.0 / Larger(s, 1.0))
  }

  function SigmoidNorm(value: real -> real): Protocol<real> {
    Additive(value, value, FinalScale)
  }

  lemma IdentityMeetsReference(scores: Vec, i: nat)
    requires i < |scores|
    ensures FinalWeights(Identity(), scores)[i] == IdentityReference(scores, i)
  {
    AdditiveWeights((x: real) => 0.0, (x: real) => x, (s: real) => 1.0, scores, i);
  }

  lemma L1MeetsReference(scale: real, scores: Vec, i: nat)
    requires i < |scores|
    ensures FinalWeights(L1(scale), scores)[i] == L1Reference(scale, scores, i)
  {
    hide Abs, Times, SumOf;
    var term, weight := (x: real) => Abs(Times(x, scale)), (x: real) => x * scale;
    var final := (s: real) => 1.0 / Larger(s, 1.0);
    AdditiveWeights(term, weight, final, scores, i);
    AdditiveState(term, weight, final, scores);
    Quotient(scores[i] * scale, Larger(SumOf(term, scores), 1.0));
  }

  lemma Quotient(x: real, y: real)
    requires y != 0.0
    ensures (1.0 / y) * x == x / y
  {
  }

  lemma SigmoidMeetsReference(value: real -> real, scores: Vec, i: nat)
    requires i < |scores|
    ensures FinalWeights(SigmoidNorm(value), scores)[i] == SigmoidReference(value, scores, i)
  {
    AdditiveWeights(value, value, FinalScale, scores, i);
    AdditiveState(value, value, FinalScale, scores);
    var l := SumOf(value, scores);
    if l > 0.0 { Quotient(value(scores[i]), l); }
  }

  // ---- Softmax ---------------------------------------------------------------

  /** The running maximum and sum. */
  datatype Running = Running(m: Ext, l: real)

  function SoftmaxUpdate(e: real -> real, was: Running, score: Ext): Running {
    var next := Max(was.m, score);
    Running(next, was.l * Rescale(e, was.l, was.m, next) + Weight(e, score, next))
  }

  /** The online softmax protocol over the scaled scores. */
  function SoftmaxNorm(e: real -> real, scale: real): Protocol<Running> {
    Protocol(
      Running(NegInf, 0.0),
      (s: Running, x: real) => SoftmaxUpdate(e, s, Fin(Times(x, scale))),
      (s: Running, t: Running, x: real) => Rescale(e, s.l, s.m, t.m),
      (s: Running, t: Running, x: real) => Weight(e, Fin(Times(x, scale)), t.m),
      (s: Running) => FinalScale(s.l))
  }

  /** The protocol's running state and output are the maximum, the sum and the weighted sum of the prefix. */
  lemma {:induction false} SoftmaxRuns(e: real -> real, scale: real, row: seq<Ext>, x: Vec, n: nat)
    requires IsExp(e) && n <= |row| == |x|
    ensures var p, s := SoftmaxNorm(e, scale), ScaleScores(row, scale);
      && RunState(p, row, n) == Running(MaxN(s, n), Sum(e, s, MaxN(s, n), n))
      && RunOut(p, row, x, n) == WSum(e, s, MaxN(s, n), x, n)
  {
    hide IsExp, WSum, MaxN, RunState, RunOut, SoftmaxNorm, ScaleScores, Times;
    if n == 0 {
      SoftmaxStarts(e, scale, row, x);
    } else {
      SoftmaxRuns(e, scale, row, x, n - 1);
      if row[n - 1].Fin? {
        SoftmaxRunsActive(e, scale, row, x, n - 1);
      } else {
        SoftmaxRunsMasked(e, scale, row, x, n - 1);
      }
    }
  }

  lemma SoftmaxStarts(e: real -> real, scale: real, row: seq<Ext>, x: Vec)
    requires |row| == |x|
    ensures var p, s := SoftmaxNorm(e, scale), ScaleScores(row, scale);
      && RunState(p, row, 0) == Running(MaxN(s, 0), Sum(e, s, MaxN(s, 0), 0))
      && RunOut(p, row, x, 0) == WSum(e, s, MaxN(s, 0), x, 0)
  {
  }

  lemma SoftmaxRunsMasked(e: real -> real, scale: real, row: seq<Ext>, x: Vec, n: nat)
    requires n < |row| == |x| && row[n].NegInf?
    ensures var p, s := SoftmaxNorm(e, scale), ScaleScores(row, scale);
      && MaxN(s, n + 1) == MaxN(s, n)
      && Sum(e, s, MaxN(s, n), n + 1) == Sum(e, s, MaxN(s, n), n)
      && WSum(e, s, MaxN(s, n), x, n + 1) == WSum(e, s, MaxN(s, n), x, n)
      && RunState(p, row, n + 1) == RunState(p, row, n)
      && RunOut(p, row, x, n + 1) == RunOut(p, row, x, n)
  {
    var p, s := SoftmaxNorm(e, scale), ScaleScores(row, scale);
    MaskedTail(e, s, MaxN(s, n), x, n, n + 1);
    MaskedTail(e, s, MaxN(s, n), Ones(|s|), n, n + 1);
    KeepsValue(RunOut(p, row, x, n), x[n]);
  }

  lemma SoftmaxRunsActive(e: real -> real, scale: real, row: seq<Ext>, x: Vec, n: nat)
    requires IsExp(e) && n < |row| == |x| && row[n].Fin?
    requires var p, s := SoftmaxNorm(e, scale), ScaleScores(row, scale);
      && RunState(p, row, n) == Running(MaxN(s, n), Sum(e, s, MaxN(s, n), n))
      && RunOut(p, row, x, n) == WSum(e, s, MaxN(s, n), x, n)
    ensures var p, s := SoftmaxNorm(e, scale), ScaleScores(row, scale);
      && RunState(p, row, n + 1) == Running(MaxN(s, n + 1), Sum(e, s, MaxN(s, n + 1), n + 1))
      && RunOut(p, row, x, n + 1) == WSum(e, s, MaxN(s, n + 1), x, n + 1)
  {
    hide IsExp, WSum, MaxN, Rescale, Weight;
    var p, s := SoftmaxNorm(e, scale), ScaleScores(row, scale);
    var top := MaxN(s, n);
    SumGrows(e, s, Ones(|s|), n);
    SumGrows(e, s, x, n);
    TimesSwaps(Sum(e, s, top, n), Rescale(e, Sum(e, s, top, n), top, MaxN(s, n + 1)));
    TimesOne(Weight(e, s[n], MaxN(s, n + 1)));
    SoftmaxStep(e, scale, row, x, n);
  }

  /** One active key through the softmax protocol. */
  lemma SoftmaxStep(e: real -> real, scale: real, row: seq<Ext>, x: Vec, n: nat)
    requires n < |row| == |x| && row[n].Fin?
    ensures var p, s := SoftmaxNorm(e, scale), ScaleScores(row, scale);
      var was, next := RunState(p, row, n), RunState(p, row, n + 1);
      && s[n].Fin? && next == SoftmaxUpdate(e, was, s[n])
      && RunOut(p, row, x, n + 1)
        == Times(Rescale(e, was.l, was.m, next.m), RunOut(p, row, x, n)) + Times(Weight(e, s[n], next.m), x[n])
  {
  }

  lemma SumGrows(e: real -> real, s: seq<Ext>, x: Vec, n: nat)
    requires IsExp(e) && n < |s| && n < |x| && s[n].Fin?
    ensures MaxN(s, n + 1) == Max(MaxN(s, n), s[n])
    ensures var top, next := MaxN(s, n), MaxN(s, n + 1);
      WSum(e, s, next, x, n + 1)
        == Times(Rescale(e, Sum(e, s, top, n), top, next), WSum(e, s, top, x, n)) + Times(Weight(e, s[n], next), x[n])
  {
    hide IsExp, Sum, Weight, Rescale;
    RowMoves(e, s, MaxN(s, n + 1), x, n);
  }

  lemma TimesOne(w: real)
    ensures Times(w, 1.0) == w
  {
  }

  /** The fast path's row and the generic path over the softmax protocol are the same full-row reference. */
  lemma SoftmaxMeetsReference(e: real -> real, scale: real, row: seq<Ext>, x: Vec)
    requires IsExp(e) && |row| == |x|
    ensures OnlineOutput(SoftmaxNorm(e, scale), row, x) == Reference(e, ScaleScores(row, scale), x)
  {
    hide IsExp, OnlineOutput, Reference, WSum, MaxN, RunState, RunOut, Times, FinalScale;
    var p, s, n := SoftmaxNorm(e, scale), ScaleScores(row, scale), |row|;
    SoftmaxRuns(e, scale, row, x, n);
    FinishedRun(p, row, x);
    FinishedRow(e, s, x);
    assert p.finalScale(RunState(p, row, n)) == FinalScale(Sum(e, s, MaxN(s, n), n));
    TimesSwaps(RunOut(p, row, x, n), FinalScale(Sum(e, s, MaxN(s, n), n)));
  }
}
