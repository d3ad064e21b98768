/** What the built-in norms' weights are like, whatever they are computed from: how they sum, and in what proportions
    the scores share them. */
module NormMeaning {
  import opened Vectors
  import opened Softmax
  import opened RowNorms
  import opened NormInstances

  // ---- l1 ----------------------------------------------------------------------

  /** The sum of absolute values. */
  function AbsoluteSum(x: Vec): real {
    if x == [] then 0.0
    else
      var last := x[|x| - 1];
      AbsoluteSum(x[..|x| - 1]) + if last < 0.0 then -last else last
  }

  function ScaledScores(scale: real, scores: Vec): (r: Vec)
    ensures |r| == |scores|
  {
    seq(|scores|, i requires 0 <= i < |scores| => scores[i] * scale)
  }

  /** What l1 normalises: the weights are the scaled scores, shrunk so that their absolute values sum to one when they
      would sum to more. No weight changes its sign. */
  lemma L1Normalises(scale: real, scores: Vec)
    ensures var scaled, weights := ScaledScores(scale, scores), FinalWeights(L1(scale), scores);
      var total := AbsoluteSum(scaled);
      && AbsoluteSum(weights) == (if total < 1.0 then total else 1.0)
      && (total <= 1.0 ==> weights == scaled)
      && (forall i :: 0 <= i < |scores| ==>
        && (total > 1.0 ==> weights[i] == scaled[i] / total)
        && (weights[i] < 0.0 <==> scaled[i] < 0.0) && (weights[i] == 0.0 <==> scaled[i] == 0.0))
  {
    hide L1, FinalWeights, L1Reference, AbsoluteSum, ScaledScores;
    var scaled, weights := ScaledScores(scale, scores), FinalWeights(L1(scale), scores);
    var total := AbsoluteSum(scaled);
    var divisor := if total < 1.0 then 1.0 else total;
    forall i | 0 <= i < |scores|
      ensures weights[i] == scaled[i] / divisor
      ensures (weights[i] < 0.0 <==> scaled[i] < 0.0) && (weights[i] == 0.0 <==> scaled[i] == 0.0)
    {
      L1MeetsReference(scale, scores, i);
      L1Divides(scale, scores, i);
      SignKept(scaled[i], divisor);
    }
    AbsoluteShrinks(scaled, weights, divisor);
    WholeOrLess(total);
    if total <= 1.0 {
      forall i | 0 <= i < |scores| ensures weights[i] == scaled[i] {
        DividedByOne(scaled[i]);
      }
    }
  }

  lemma WholeOrLess(total: real)
    ensures total / (if total < 1.0 then 1.0 else total) == if total < 1.0 then total else 1.0
  {
  }

  lemma DividedByOne(x: real)
    ensures x / 1.0 == x
  {
  }

  lemma L1Divides(scale: real, scores: Vec, i: nat)
    requires i < |scores|
    ensures var total := AbsoluteSum(ScaledScores(scale, scores));
      L1Reference(scale, scores, i) == ScaledScores(scale, scores)[i] / if total < 1.0 then 1.0 else total
  {
    hide SumOf, AbsoluteSum, Times, Abs;
    var term := (x: real) => Abs(Times(x, scale));
    SumOfAbsolutes(term, scale, scores);
    assert L1Reference(scale, scores, i) == scores[i] * scale / Larger(SumOf(term, scores), 1.0);
  }

  lemma {:induction false} SumOfAbsolutes(term: real -> real, scale: real, scores: Vec)
    requires forall x :: term(x) == Abs(Times(x, scale))
    ensures SumOf(term, scores) == AbsoluteSum(ScaledScores(scale, scores))
  {
    if scores != [] {
      var n := |scores| - 1;
      SumOfAbsolutes(term, scale, scores[..n]);
      ScaledPrefix(scale, scores, n);
    }
  }

  lemma ScaledPrefix(scale: real, scores: Vec, n: nat)
    requires n <= |scores|
    ensures ScaledScores(scale, scores)[..n] == ScaledScores(scale, scores[..n])
  {
    forall i | 0 <= i < n ensures ScaledScores(scale, scores)[i] == ScaledScores(scale, scores[..n])[i] {
      assert scores[..n][i] == scores[i];
    }
  }

  lemma {:induction false} AbsoluteShrinks(x: Vec, w: Vec, divisor: real)
    requires |x| == |w| && divisor > 0.0 && forall i :: 0 <= i < |x| ==> w[i] == x[i] / divisor
    ensures AbsoluteSum(w) == AbsoluteSum(x) / divisor
  {
    if x != [] {
      var last := |x| - 1;
      AbsoluteShrinks(x[..last], w[..last], divisor);
      Fractions(AbsoluteSum(x[..last]), if x[last] < 0.0 then -x[last] else x[last], divisor);
      SignKept(x[last], divisor);
    }
  }

  lemma Fractions(a: real, b: real, divisor: real)
    requires divisor > 0.0
    ensures a / divisor + b / divisor == (a + b) / divisor
  {
  }

  lemma SignKept(x: real, divisor: real)
    requires divisor > 0.0
    ensures (x / divisor < 0.0 <==> x < 0.0) && (x / divisor == 0.0 <==> x == 0.0) && -(x / divisor) == -x / divisor
  {
  }

  // ---- Sigmoid -----------------------------------------------------------------

  function Total(x: Vec): real {
    if x == [] then 0.0 else Total(x[..|x| - 1]) + x[|x| - 1]
  }

  /** The values the sigmoid norm shares out. */
  function Values(value: real -> real, scores: Vec): (r: Vec)
    ensures |r| == |scores|
  {
    seq(|scores|, i requires 0 <= i < |scores| => value(scores[i]))
  }

  /** The weights sum to one and are in the proportions of the values, or all are zero where the values sum to nothing
      positive. */
  lemma SigmoidNormalises(value: real -> real, scores: Vec)
    ensures var weights, total := FinalWeights(SigmoidNorm(value), scores), Total(Values(value, scores));
      && Total(weights) == (if total > 0.0 then 1.0 else 0.0)
      && forall i :: 0 <= i < |scores| ==>
        weights[i] == if total > 0.0 then value(scores[i]) / total else 0.0
  {
    hide SigmoidNorm, FinalWeights, Total;
    var weights, total := FinalWeights(SigmoidNorm(value), scores), Total(Values(value, scores));
    SumOfValues(value, scores);
    forall i | 0 <= i < |scores| ensures weights[i] == if total > 0.0 then value(scores[i]) / total else 0.0 {
      SigmoidMeetsReference(value, scores, i);
    }
    if total > 0.0 {
      TotalShrinks(Values(value, scores), weights, total);
      OverItself(total);
    } else {
      TotalOfZeros(weights);
    }
  }

  lemma OverItself(x: real)
    requires x > 0.0
    ensures x / x == 1.0
  {
  }

  lemma {:induction false} SumOfValues(value: real -> real, scores: Vec)
    ensures SumOf(value, scores) == Total(Values(value, scores))
  {
    if scores != [] {
      var n := |scores| - 1;
      SumOfValues(value, scores[..n]);
      assert Values(value, scores)[..n] == Values(value, scores[..n]);
    }
  }

  lemma {:induction false} TotalShrinks(x: Vec, w: Vec, divisor: real)
    requires |x| == |w| && divisor > 0.0 && forall i :: 0 <= i < |x| ==> w[i] == x[i] / divisor
    ensures Total(w) == Total(x) / divisor
  {
    if x != [] {
      var last := |x| - 1;
      TotalShrinks(x[..last], w[..last], divisor);
      Fractions(Total(x[..last]), x[last], divisor);
    }
  }

  lemma {:induction false} TotalOfZeros(x: Vec)
    requires forall i :: 0 <= i < |x| ==> x[i] == 0.0
    ensures Total(x) == 0.0
  {
    if x != [] { TotalOfZeros(x[..|x| - 1]); }
  }

  // ---- Softmax -----------------------------------------------------------------

  /** The sum over the first n keys of exp(score * scale) times a value, masked keys left out. */
  function Exponentials(e: real -> real, scale: real, row: seq<Ext>, x: Vec, n: nat): real
    requires n <= |row| && n <= |x|
  {
    if n == 0 then 0.0 else Exponentials(e, scale, row, x, n - 1) + Share(e, scale, row[n - 1], x[n - 1])
  }

  function Share(e: real -> real, scale: real, score: Ext, x: real): real {
    if score.Fin? then Times(e(Times(score.r, scale)), x) else 0.0
  }

  /** The softmax output without its maximum: the exponentials of the scaled active scores share out the values, and a
      row without an active key gives zero. */
  lemma SoftmaxMeans(e: real -> real, scale: real, row: seq<Ext>, x: Vec)
    requires IsExp(e) && |row| == |x|
    ensures var total := Exponentials(e, scale, row, Ones(|row|), |row|);
      && (total > 0.0 <==> exists i :: 0 <= i < |row| && row[i].Fin?)
      && Reference(e, ScaleScores(row, scale), x)
         == if total > 0.0 then Exponentials(e, scale, row, x, |row|) / total else 0.0
  {
    hide IsExp, Reference, WSum, MaxN, Exponentials, FinalScale;
    var s, n := ScaleScores(row, scale), |row|;
    var m := MaxN(s, n);
    FinishedRow(e, s, x);
    SumPositive(e, s, m, n);
    MaxActive(s, n);
    ScaledActive(row, scale);
    if m.Fin? {
      ExponentialsMove(e, scale, row, m.r, x, n);
      ExponentialsMove(e, scale, row, m.r, Ones(n), n);
      ExpPositive(e, m.r);
      Shared(e(m.r), WSum(e, s, m, x, n), Sum(e, s, m, n));
    } else {
      NoExponentials(e, scale, row, Ones(n), n);
      NoShare(WSum(e, s, m, x, n), Sum(e, s, m, n));
    }
  }

  lemma {:induction false} MaxActive(s: seq<Ext>, n: nat)
    requires n <= |s|
    ensures MaxN(s, n).Fin? <==> exists i :: 0 <= i < n && s[i].Fin?
  {
    if n > 0 { MaxActive(s, n - 1); }
  }

  lemma ScaledActive(row: seq<Ext>, scale: real)
    ensures forall i :: 0 <= i < |row| ==> (ScaleScores(row, scale)[i].Fin? <==> row[i].Fin?)
  {
  }

  /** Taking a common factor out of the exponentials is what subtracting the maximum does. */
  lemma {:induction false} ExponentialsMove(e: real -> real, scale: real, row: seq<Ext>, m: real, x: Vec, n: nat)
    requires IsExp(e) && n <= |row| && n <= |x|
    ensures Exponentials(e, scale, row, x, n) == Times(e(m), WSum(e, ScaleScores(row, scale), Fin(m), x, n))
  {
    hide IsExp, Times, Weight, WSum;
    var s := ScaleScores(row, scale);
    if n == 0 {
      NothingTimes(e, s, m, x);
    } else {
      ExponentialsMove(e, scale, row, m, x, n - 1);
      SumStep(e, s, m, x, n);
      ShareMoves(e, scale, row[n - 1], m, x[n - 1]);
      Distribute(e(m), WSum(e, s, Fin(m), x, n - 1), Times(Weight(e, s[n - 1], Fin(m)), x[n - 1]));
    }
  }

  lemma NothingTimes(e: real -> real, s: seq<Ext>, m: real, x: Vec)
    ensures Times(e(m), WSum(e, s, Fin(m), x, 0)) == 0.0
  {
  }

  lemma SumStep(e: real -> real, s: seq<Ext>, m: real, x: Vec, n: nat)
    requires 0 < n <= |s| && n <= |x|
    ensures WSum(e, s, Fin(m), x, n)
         == WSum(e, s, Fin(m), x, n - 1) + Times(Weight(e, s[n - 1], Fin(m)), x[n - 1])
  {
  }

  lemma Distribute(f: real, sum: real, more: real)
    ensures Times(f, sum + more) == Times(f, sum) + Times(f, more)
  {
  }

  lemma ShareMoves(e: real -> real, scale: real, score: Ext, m: real, x: real)
    requires IsExp(e)
    ensures var scaled := if score.Fin? then Fin(Times(score.r, scale)) else NegInf;
      Share(e, scale, score, x) == Times(e(m), Times(Weight(e, scaled, Fin(m)), x))
  {
    hide IsExp;
    if score.Fin? {
      var scaled := Times(score.r, scale);
      ExpAdd(e, m, scaled - m);
      assert m + (scaled - m) == scaled;
      Associate(e(m), e(scaled - m), x);
    }
  }

  lemma Associate(a: real, b: real, c: real)
    ensures Times(a * b, c) == Times(a, Times(b, c))
  {
  }

  lemma {:induction false} NoExponentials(e: real -> real, scale: real, row: seq<Ext>, x: Vec, n: nat)
    requires n <= |row| && n <= |x| && forall i :: 0 <= i < n ==> row[i].NegInf?
    ensures Exponentials(e, scale, row, x, n) == 0.0
  {
    if n > 0 { NoExponentials(e, scale, row, x, n - 1); }
  }

  lemma Shared(f: real, sum: real, total: real)
    requires f > 0.0 && total > 0.0
    ensures Times(f, total) > 0.0 && sum * FinalScale(total) == Times(f, sum) / Times(f, total)
  {
    assert Times(f, total) * (sum * (1.0 / total)) == Times(f, sum);
  }

  lemma NoShare(sum: real, total: real)
    requires total <= 0.0
    ensures sum * FinalScale(total) == 0.0
  {
  }
}
