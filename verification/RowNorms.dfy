/** Online row normalisation: a fixed-size state updated per active score, with
    rescale and weight factors that are arbitrary functions. */
module RowNorms {
  import opened Vectors
  import opened Softmax

  /** The per-score protocol; rescale and weight see the old state, the new state and the score. */
  datatype Protocol<!S> = Protocol(
    init: S,
    update: (S, real) -> S,
    rescale: (S, S, real) -> real,
    weight: (S, S, real) -> real,
    finalScale: S -> real)

  function OnlineState<S>(p: Protocol<S>, scores: Vec): S {
    if scores == [] then p.init
    else p.update(OnlineState(p, scores[..|scores| - 1]), scores[|scores| - 1])
  }

  /** The weights before the final scale: each step rescales all earlier ones. */
  function OnlineWeights<S>(p: Protocol<S>, scores: Vec): (w: Vec)
    ensures |w| == |scores|
  {
    if scores == [] then []
    else
      var last := |scores| - 1;
      var was, score := OnlineState(p, scores[..last]), scores[last];
      var next := p.update(was, score);
      Scaled(p.rescale(was, next, score), OnlineWeights(p, scores[..last])) + [p.weight(was, next, score)]
  }

  function FinalWeights<S>(p: Protocol<S>, scores: Vec): (w: Vec)
    ensures |w| == |scores|
  {
    Scaled(p.finalScale(OnlineState(p, scores)), OnlineWeights(p, scores))
  }

  method ScalePrefix(weights: array<real>, n: nat, factor: real)
    requires n <= weights.Length
    modifies weights
    ensures weights[..n] == Scaled(factor, old(weights[..n]))
    ensures forall i :: n <= i < weights.Length ==> weights[i] == old(weights[i])
  {
    for i := 0 to n
      invariant forall j :: 0 <= j < i ==> weights[j] == factor * old(weights[j])
      invariant forall j :: i <= j < weights.Length ==> weights[j] == old(weights[j])
    {
      weights[i] := weights[i] * factor;
    }
    ghost var scaled := Scaled(factor, old(weights[..n]));
    forall i | 0 <= i < n ensures weights[..n][i] == scaled[i] {
    }
    assert weights[..n] == scaled;
  }

  /** The interpreter of the protocol: one pass over the scores, rescaling in place. */
  method Interpret<S>(p: Protocol<S>, scores: Vec) returns (weights: array<real>)
    ensures fresh(weights) && weights[..] == FinalWeights(p, scores)
  {
    weights := new real[|scores|](i => 0.0);
    var state := p.init;
    for index := 0 to |scores|
      invariant state == OnlineState(p, scores[..index])
      invariant weights[..index] == OnlineWeights(p, scores[..index])
    {
      var next := p.update(state, scores[index]);
      assert scores[..index + 1][..index] == scores[..index];
      ScalePrefix(weights, index, p.rescale(state, next, scores[index]));
      weights[index] := p.weight(state, next, scores[index]);
      state := next;
    }
    assert scores[..|scores|] == scores;
    assert weights[..] == weights[..|scores|];
    ScalePrefix(weights, |scores|, p.finalScale(state));
    assert weights[..] == weights[..|scores|];
  }

  // ---- The same protocol over a masked row -----------------------------------

  /** The state after the first n keys; masked keys leave it alone. */
  function RunState<S>(p: Protocol<S>, row: seq<Ext>, n: nat): S
    requires n <= |row|
  {
    if n == 0 then p.init
    else
      var was := RunState(p, row, n - 1);
      if row[n - 1].NegInf? then was else p.update(was, row[n - 1].r)
  }

  /** The factor key n applies to everything before it: one when masked. */
  function StepRescale<S>(p: Protocol<S>, row: seq<Ext>, n: nat): real
    requires n < |row|
  {
    if row[n].NegInf? then 1.0 else p.rescale(RunState(p, row, n), RunState(p, row, n + 1), row[n].r)
  }

  /** The weight key n enters with: zero when masked. */
  function StepWeight<S>(p: Protocol<S>, row: seq<Ext>, n: nat): real
    requires n < |row|
  {
    if row[n].NegInf? then 0.0 else p.weight(RunState(p, row, n), RunState(p, row, n + 1), row[n].r)
  }

  /** The running output of one value component. */
  function RunOut<S>(p: Protocol<S>, row: seq<Ext>, x: Vec, n: nat): real
    requires n <= |row| && n <= |x|
  {
    if n == 0 then 0.0
    else Times(StepRescale(p, row, n - 1), RunOut(p, row, x, n - 1)) + Times(StepWeight(p, row, n - 1), x[n - 1])
  }

  lemma {:induction false} DotScaledLeft(a: real, x: Vec, y: Vec, n: nat)
    requires n <= |x| && n <= |y|
    ensures DotN(Scaled(a, x), y, n) == a * DotN(x, y, n)
  {
    if n > 0 {
      DotScaledLeft(a, x, y, n - 1);
      assert (a * x[n - 1]) * y[n - 1] == a * (x[n - 1] * y[n - 1]);
    }
  }

  /** One more score through the weights, seen from a value component. */
  lemma OnlineDotGrows<S>(p: Protocol<S>, scores: Vec, x: Vec)
    requires |scores| == |x| > 0
    ensures var last := |scores| - 1;
      var was, score := OnlineState(p, scores[..last]), scores[last];
      var next := p.update(was, score);
      Dot(OnlineWeights(p, scores), x)
        == Times(p.rescale(was, next, score), Dot(OnlineWeights(p, scores[..last]), x[..last]))
         + Times(p.weight(was, next, score), x[last])
  {
    var last := |scores| - 1;
    var was, score := OnlineState(p, scores[..last]), scores[last];
    var next := p.update(was, score);
    var before := OnlineWeights(p, scores[..last]);
    var scaled := Scaled(p.rescale(was, next, score), before);
    var weights := OnlineWeights(p, scores);
    assert weights == scaled + [p.weight(was, next, score)];
    DotCongruent(weights, x, scaled, x[..last], last);
    DotScaledLeft(p.rescale(was, next, score), before, x[..last], last);
  }

  /** Running over a masked row is the online protocol over its active scores. */
  lemma {:induction false} RunIsOnline<S>(p: Protocol<S>, row: seq<Ext>, x: Vec, n: nat)
    requires n <= |row| == |x|
    ensures var keys := ActiveKeys(row, n);
      RunState(p, row, n) == OnlineState(p, Scores(row, keys))
      && RunOut(p, row, x, n) == Dot(OnlineWeights(p, Scores(row, keys)), Gather(x, keys))
  {
    hide ActiveKeys, Scores, Gather, Dot, OnlineWeights;
    if n == 0 {
      NoWeights(p, row, x);
    } else {
      RunIsOnline(p, row, x, n - 1);
      ActiveGrows(row, x, n - 1);
      var keys := ActiveKeys(row, n);
      if row[n - 1].Fin? {
        OnlineDotGrows(p, Scores(row, keys), Gather(x, keys));
      } else {
        KeepsValue(RunOut(p, row, x, n - 1), x[n - 1]);
      }
    }
  }

  lemma KeepsValue(out: real, x: real)
    ensures Times(1.0, out) + Times(0.0, x) == out
  {
  }

  lemma NoWeights<S>(p: Protocol<S>, row: seq<Ext>, x: Vec)
    ensures ActiveKeys(row, 0) == [] && Scores(row, []) == [] && Gather(x, []) == []
    ensures Dot(OnlineWeights(p, []), []) == 0.0
  {
  }

  /** The output element a finished row must show: the protocol's weights over the active keys. */
  function OnlineOutput<S>(p: Protocol<S>, row: seq<Ext>, x: Vec): real
    requires |row| == |x|
  {
    var keys := ActiveKeys(row, |row|);
    Dot(FinalWeights(p, Scores(row, keys)), Gather(x, keys))
  }

  lemma FinishedRun<S>(p: Protocol<S>, row: seq<Ext>, x: Vec)
    requires |row| == |x|
    ensures Times(p.finalScale(RunState(p, row, |row|)), RunOut(p, row, x, |row|)) == OnlineOutput(p, row, x)
  {
    hide Dot, DotN, RunOut, RunState, OnlineState, OnlineWeights, Scores, Gather, ActiveKeys, Times, Scaled;
    var keys := ActiveKeys(row, |row|);
    RunIsOnline(p, row, x, |row|);
    DotScaledLeftAll(p.finalScale(RunState(p, row, |row|)), OnlineWeights(p, Scores(row, keys)), Gather(x, keys));
  }

  lemma DotScaledLeftAll(a: real, x: Vec, y: Vec)
    requires |x| == |y|
    ensures Dot(Scaled(a, x), y) == Times(a, Dot(x, y))
  {
    DotScaledLeft(a, x, y, |x|);
  }
}
