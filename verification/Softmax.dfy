/** Softmax of one masked row: the full-row reference, and what a running maximum,
    sum and output row mean after any number of keys. */
module Softmax {
  import opened Vectors

  /** A score, or the -infinity that a masked key carries. */
  datatype Ext = NegInf | Fin(r: real)

  /** The facts about exp that exact arithmetic relies on. */
  ghost predicate IsExp(e: real -> real) {
    && e(0.0) == 1.0
    && (forall a :: e(a) > 0.0)
    && (forall a, b :: e(a + b) == e(a) * e(b))
  }

  lemma ExpAdd(e: real -> real, a: real, b: real)
    requires IsExp(e)
    ensures e(a + b) == e(a) * e(b)
  {
  }

  lemma ExpPositive(e: real -> real, a: real)
    requires IsExp(e)
    ensures e(a) > 0.0
  {
  }

  function Max(a: Ext, b: Ext): Ext {
    match (a, b)
    case (NegInf, _) => b
    case (_, NegInf) => a
    case (Fin(x), Fin(y)) => if x < y then b else a
  }

  predicate AtMost(a: Ext, b: Ext) {
    a.NegInf? || (b.Fin? && a.r <= b.r)
  }

  function MaxN(row: seq<Ext>, n: nat): Ext
    requires n <= |row|
  {
    if n == 0 then NegInf else Max(MaxN(row, n - 1), row[n - 1])
  }

  /** exp(s - m), zero for a masked key. */
  function Weight(e: real -> real, s: Ext, m: Ext): real {
    if s.NegInf? || m.NegInf? then 0.0 else e(s.r - m.r)
  }

  /** Sum over the first n keys of exp(s - m) * x. */
  function WSum(e: real -> real, row: seq<Ext>, m: Ext, x: Vec, n: nat): real
    requires n <= |row| && n <= |x|
  {
    if n == 0 then 0.0 else WSum(e, row, m, x, n - 1) + Weight(e, row[n - 1], m) * x[n - 1]
  }

  /** The active scores times the norm's scale. */
  function ScaleScores(row: seq<Ext>, scale: real): (r: seq<Ext>)
    ensures |r| == |row|
  {
    seq(|row|, i requires 0 <= i < |row| => if row[i].Fin? then Fin(Times(row[i].r, scale)) else NegInf)
  }

  function Ones(n: nat): (r: Vec)
    ensures |r| == n
  {
    seq(n, i => 1.0)
  }

  /** The running sum of one row. */
  function Sum(e: real -> real, row: seq<Ext>, m: Ext, n: nat): real
    requires n <= |row|
  {
    WSum(e, row, m, Ones(|row|), n)
  }

  /** The factor the kernel applies to what it has when the maximum moves. */
  function Rescale(e: real -> real, sum: real, m: Ext, m': Ext): real {
    if sum > 0.0 then Weight(e, m, m') else 0.0
  }

  lemma {:induction false} MaxUpdates(row: seq<Ext>, lo: nat, n: nat)
    requires lo <= n <= |row|
    ensures MaxN(row, n) == Max(MaxN(row, lo), MaxN(row[lo..], n - lo))
  {
    if lo < n {
      MaxUpdates(row, lo, n - 1);
      assert row[lo..][n - 1 - lo] == row[n - 1];
    }
  }

  /** With every key so far masked, each weighted sum is zero under any maximum. */
  lemma {:induction false} AllMasked(e: real -> real, row: seq<Ext>, m: Ext, x: Vec, n: nat)
    requires n <= |row| && n <= |x|
    requires MaxN(row, n) == NegInf
    ensures WSum(e, row, m, x, n) == 0.0
  {
    if n > 0 {
      assert row[n - 1] == NegInf && MaxN(row, n - 1) == NegInf;
      AllMasked(e, row, m, x, n - 1);
    }
  }

  lemma {:induction false} SumNonNegative(e: real -> real, row: seq<Ext>, m: Ext, n: nat)
    requires IsExp(e) && n <= |row|
    ensures Sum(e, row, m, n) >= 0.0
  {
    hide IsExp;
    if n > 0 {
      SumNonNegative(e, row, m, n - 1);
      if row[n - 1].Fin? && m.Fin? { ExpPositive(e, row[n - 1].r - m.r); }
    }
  }

  /** The sum is zero exactly when no key was active. */
  lemma {:induction false} SumPositive(e: real -> real, row: seq<Ext>, m: Ext, n: nat)
    requires IsExp(e) && n <= |row|
    ensures Sum(e, row, m, n) > 0.0 <==> MaxN(row, n).Fin? && m.Fin?
  {
    hide IsExp;
    if n > 0 {
      SumPositive(e, row, m, n - 1);
      SumNonNegative(e, row, m, n - 1);
      if row[n - 1].Fin? && m.Fin? { ExpPositive(e, row[n - 1].r - m.r); }
    }
  }

  lemma WeightMoves(e: real -> real, s: Ext, m: Ext, m': Ext)
    requires IsExp(e) && m.Fin? && m'.Fin?
    ensures Weight(e, s, m') == Weight(e, m, m') * Weight(e, s, m)
  {
    hide IsExp;
    if s.Fin? {
      ExpAdd(e, m.r - m'.r, s.r - m.r);
      assert (m.r - m'.r) + (s.r - m.r) == s.r - m'.r;
    }
  }

  /** Moving the maximum multiplies every weighted sum by the rescale factor, also when
      that factor is the zero of an empty row. */
  lemma {:induction false} SumsMove(e: real -> real, row: seq<Ext>, m: Ext, m': Ext, x: Vec, n: nat)
    requires IsExp(e) && n <= |row| && n <= |x| && m.Fin? && m'.Fin?
    ensures WSum(e, row, m', x, n) == Weight(e, m, m') * WSum(e, row, m, x, n)
  {
    hide IsExp, Weight;
    if n > 0 {
      SumsMove(e, row, m, m', x, n - 1);
      WeightMoves(e, row[n - 1], m, m');
      Distributes(Weight(e, m, m'), WSum(e, row, m, x, n - 1), Weight(e, row[n - 1], m), x[n - 1]);
    }
  }

  lemma Distributes(f: real, sum: real, w: real, x: real)
    ensures f * sum + (f * w) * x == f * (sum + w * x)
  {
  }

  lemma RowMoves(e: real -> real, row: seq<Ext>, m': Ext, x: Vec, n: nat)
    requires IsExp(e) && n <= |row| && n <= |x| && AtMost(MaxN(row, n), m')
    ensures var m := MaxN(row, n);
      WSum(e, row, m', x, n) == Rescale(e, Sum(e, row, m, n), m, m') * WSum(e, row, m, x, n)
  {
    hide IsExp, WSum, Sum, MaxN, Weight;
    var m := MaxN(row, n);
    SumPositive(e, row, m, n);
    if m.NegInf? {
      AllMasked(e, row, m', x, n);
      AllMasked(e, row, m, x, n);
    } else {
      SumsMove(e, row, m, m', x, n);
    }
  }

  /** The weighted sum of a tile, added to what came before. */
  lemma {:induction false} SumSplits(e: real -> real, row: seq<Ext>, m: Ext, x: Vec, lo: nat, n: nat)
    requires lo <= n <= |row| && n <= |x|
    ensures WSum(e, row, m, x, n) == WSum(e, row, m, x, lo) + WSum(e, row[lo..], m, x[lo..], n - lo)
  {
    if lo < n { SumSplits(e, row, m, x, lo, n - 1); }
  }

  // ---- The reference: weights of the active keys only ------------------------

  function ActiveKeys(row: seq<Ext>, n: nat): (keys: seq<nat>)
    requires n <= |row|
    ensures forall i :: 0 <= i < |keys| ==> keys[i] < n && row[keys[i]].Fin?
  {
    if n == 0 then []
    else ActiveKeys(row, n - 1) + if row[n - 1].Fin? then [n - 1] else []
  }

  function RefMax(scores: Vec): real
    requires scores != []
  {
    if |scores| == 1 then scores[0]
    else
      var rest := RefMax(scores[..|scores| - 1]);
      if rest < scores[|scores| - 1] then scores[|scores| - 1] else rest
  }

  function RefSum(e: real -> real, scores: Vec, m: real): real {
    if scores == [] then 0.0
    else RefSum(e, scores[..|scores| - 1], m) + e(scores[|scores| - 1] - m)
  }

  function RefWeight(e: real -> real, score: real, m: real, l: real): real {
    if l > 0.0 then e(score - m) / l else 0.0
  }

  function RefDot(e: real -> real, scores: Vec, m: real, l: real, values: Vec): real
    requires |scores| == |values|
  {
    if scores == [] then 0.0
    else
      var last := |scores| - 1;
      RefDot(e, scores[..last], m, l, values[..last]) + RefWeight(e, scores[last], m, l) * values[last]
  }

  function Scores(row: seq<Ext>, keys: seq<nat>): (r: Vec)
    requires forall i :: 0 <= i < |keys| ==> keys[i] < |row| && row[keys[i]].Fin?
    ensures |r| == |keys|
  {
    seq(|keys|, i requires 0 <= i < |keys| => row[keys[i]].r)
  }

  function Gather(x: Vec, keys: seq<nat>): (r: Vec)
    requires forall i :: 0 <= i < |keys| ==> keys[i] < |x|
    ensures |r| == |keys|
  {
    seq(|keys|, i requires 0 <= i < |keys| => x[keys[i]])
  }

  /** One output element of the full-row softmax: zero when no key is active. */
  function Reference(e: real -> real, row: seq<Ext>, x: Vec): real
    requires |x| == |row|
  {
    var keys := ActiveKeys(row, |row|);
    if keys == [] then 0.0
    else
      var scores := Scores(row, keys);
      var m := RefMax(scores);
      RefDot(e, scores, m, RefSum(e, scores, m), Gather(x, keys))
  }

  /** Key n joins the active keys at the end, or not at all. */
  lemma ActiveGrows(row: seq<Ext>, x: Vec, n: nat)
    requires n < |row| == |x|
    ensures var before, keys := ActiveKeys(row, n), ActiveKeys(row, n + 1);
      if row[n].Fin? then
        |keys| == |before| + 1
        && Scores(row, keys)[..|before|] == Scores(row, before) && Scores(row, keys)[|before|] == row[n].r
        && Gather(x, keys)[..|before|] == Gather(x, before) && Gather(x, keys)[|before|] == x[n]
      else keys == before
  {
  }

  lemma {:induction false} ActiveMax(row: seq<Ext>, n: nat)
    requires n <= |row|
    ensures var keys := ActiveKeys(row, n);
      (keys == [] <==> MaxN(row, n) == NegInf)
      && (keys != [] ==> MaxN(row, n) == Fin(RefMax(Scores(row, keys))))
  {
    if n > 0 {
      ActiveMax(row, n - 1);
      ActiveGrows(row, Ones(|row|), n - 1);
    }
  }

  lemma {:induction false} ActiveSum(e: real -> real, row: seq<Ext>, m: real, n: nat)
    requires n <= |row|
    ensures RefSum(e, Scores(row, ActiveKeys(row, n)), m) == Sum(e, row, Fin(m), n)
  {
    hide ActiveKeys, Scores;
    if n == 0 {
      NoKeys(row);
    } else {
      ActiveSum(e, row, m, n - 1);
      ActiveGrows(row, Ones(|row|), n - 1);
    }
  }

  lemma NoKeys(row: seq<Ext>)
    ensures ActiveKeys(row, 0) == [] && Scores(row, []) == []
  {
  }

  lemma {:induction false} ActiveDot(e: real -> real, row: seq<Ext>, m: real, l: real, x: Vec, n: nat)
    requires n <= |row| == |x| && l > 0.0
    ensures var keys := ActiveKeys(row, n);
      RefDot(e, Scores(row, keys), m, l, Gather(x, keys)) == WSum(e, row, Fin(m), x, n) / l
  {
    hide ActiveKeys, Scores, Gather, RefDot, WSum;
    if n == 0 {
      NoKeys(row);
      NoDot(e, row, m, l, x);
    } else {
      ActiveDot(e, row, m, l, x, n - 1);
      ActiveGrows(row, x, n - 1);
      DotsGrow(e, row, m, l, x, n - 1, Scores(row, ActiveKeys(row, n)), Gather(x, ActiveKeys(row, n)));
      if row[n - 1].Fin? {
        Divides(WSum(e, row, Fin(m), x, n - 1), e(row[n - 1].r - m), x[n - 1], l);
      }
    }
  }

  lemma NoDot(e: real -> real, row: seq<Ext>, m: real, l: real, x: Vec)
    requires l > 0.0
    ensures RefDot(e, [], m, l, []) == WSum(e, row, Fin(m), x, 0) / l
  {
  }

  /** What one more key adds to either sum. */
  lemma DotsGrow(e: real -> real, row: seq<Ext>, m: real, l: real, x: Vec, n: nat, scores: Vec, values: Vec)
    requires n < |row| == |x| && l > 0.0 && |scores| == |values|
    ensures WSum(e, row, Fin(m), x, n + 1)
         == WSum(e, row, Fin(m), x, n) + (if row[n].Fin? then e(row[n].r - m) else 0.0) * x[n]
    ensures scores != [] ==>
      var last := |scores| - 1;
      RefDot(e, scores, m, l, values)
      == RefDot(e, scores[..last], m, l, values[..last]) + e(scores[last] - m) / l * values[last]
  {
  }

  lemma Divides(sum: real, w: real, x: real, l: real)
    requires l > 0.0
    ensures sum / l + (w / l) * x == (sum + w * x) / l
  {
  }

  /** The scale a finished row is multiplied by. */
  function FinalScale(sum: real): real {
    if sum > 0.0 then 1.0 / sum else 0.0
  }

  /** Scaling the running output by the finished sum gives the reference, also for a fully masked row. */
  lemma FinishedRow(e: real -> real, row: seq<Ext>, x: Vec)
    requires IsExp(e) && |x| == |row|
    ensures var m := MaxN(row, |row|);
      WSum(e, row, m, x, |row|) * FinalScale(Sum(e, row, m, |row|)) == Reference(e, row, x)
  {
    hide IsExp, WSum, RefDot, RefSum, Scores, Gather, ActiveKeys, MaxN;
    var n := |row|;
    var m := MaxN(row, n);
    var keys := ActiveKeys(row, n);
    ActiveMax(row, n);
    SumPositive(e, row, m, n);
    if m.Fin? {
      ActiveSum(e, row, m.r, n);
      ActiveDot(e, row, m.r, Sum(e, row, m, n), x, n);
    } else {
      AllMasked(e, row, m, x, n);
    }
  }
}
