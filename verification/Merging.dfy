/** Merging partial rows. A part stands for a set of keys: the protocol run over the row with every
    other key masked. Merging parts of disjoint key sets gives the part of their union, so any
    merge order over any division of the keys ends at the whole row. */
module Merging {
  import opened Vectors
  import opened Softmax
  import opened ScoreTiles
  import opened RowNorms
  import opened NormInstances

  datatype Part<S> = Part(state: S, out: Vec)

  /** How two states combine, and the factors for the two output rows. */
  datatype MergeRule<!S> = MergeRule(
    merge: (S, S) -> S,
    leftScale: (S, S, S) -> real,
    rightScale: (S, S, S) -> real)

  function Merge<S>(rule: MergeRule<S>, left: Part<S>, right: Part<S>): (r: Part<S>)
    requires |left.out| == |right.out|
    ensures |r.out| == |left.out|
  {
    var merged := rule.merge(left.state, right.state);
    var ls := rule.leftScale(left.state, right.state, merged);
    var rs := rule.rightScale(left.state, right.state, merged);
    Part(merged,
      seq(|left.out|, dv requires 0 <= dv < |left.out| => Times(left.out[dv], ls) + Times(right.out[dv], rs)))
  }

  ghost function MaskTo(row: seq<Ext>, keys: set<nat>): (r: seq<Ext>)
    ensures |r| == |row|
  {
    seq(|row|, i requires 0 <= i < |row| => if i in keys then row[i] else NegInf)
  }

  /** The part of a key set. */
  ghost function PartOf<S>(p: Protocol<S>, row: seq<Ext>, v: seq<Vec>, width: nat, keys: set<nat>): (r: Part<S>)
    requires |row| == |v| && AllWidth(v, width)
    ensures |r.out| == width
  {
    var masked := MaskTo(row, keys);
    Part(RunState(p, masked, |row|),
         seq(width, dv requires 0 <= dv < width => RunOut(p, masked, Component(v, width, dv), |row|)))
  }

  /** The merge law of a protocol on a row. */
  ghost predicate MergesDisjoint<S>(rule: MergeRule<S>, p: Protocol<S>, row: seq<Ext>, v: seq<Vec>, width: nat)
    requires |row| == |v| && AllWidth(v, width)
  {
    forall a: set<nat>, b: set<nat> :: a !! b ==>
      Merge(rule, PartOf(p, row, v, width, a), PartOf(p, row, v, width, b)) == PartOf(p, row, v, width, a + b)
  }

  /** Parts of disjoint key sets merge in any order and grouping, and the part of no keys changes nothing. */
  lemma MergeLaws<S>(
    rule: MergeRule<S>, p: Protocol<S>, row: seq<Ext>, v: seq<Vec>, width: nat, a: set<nat>, b: set<nat>, c: set<nat>)
    requires |row| == |v| && AllWidth(v, width) && MergesDisjoint(rule, p, row, v, width) && a !! b && a !! c && b !! c
    ensures var x, y, z := PartOf(p, row, v, width, a), PartOf(p, row, v, width, b), PartOf(p, row, v, width, c);
      && Merge(rule, x, y) == Merge(rule, y, x)
      && Merge(rule, Merge(rule, x, y), z) == Merge(rule, x, Merge(rule, y, z))
      && Merge(rule, x, PartOf(p, row, v, width, {})) == x
  {
    hide PartOf, Merge;
    assert a + b == b + a && (a + b) + c == a + (b + c) && a + {} == a;
    assert a !! b + c && a + b !! c && a !! {};
  }

  // ---- Softmax ---------------------------------------------------------------

  function SoftmaxMerge(e: real -> real): MergeRule<Running> {
    MergeRule(
      (l: Running, r: Running) => MergeRunning(e, l, r),
      (l: Running, r: Running, m: Running) => Rescale(e, l.l, l.m, m.m),
      (l: Running, r: Running, m: Running) => Rescale(e, r.l, r.m, m.m))
  }

  function MergeRunning(e: real -> real, l: Running, r: Running): Running {
    var m := Max(l.m, r.m);
    Running(m, Times(l.l, Rescale(e, l.l, l.m, m)) + Times(r.l, Rescale(e, r.l, r.m, m)))
  }

  lemma {:induction false} MaxOfUnion(s: seq<Ext>, t: seq<Ext>, u: seq<Ext>, n: nat)
    requires n <= |s| == |t| == |u|
    requires forall i :: 0 <= i < n ==> (s[i] == NegInf && u[i] == t[i]) || (t[i] == NegInf && u[i] == s[i])
    ensures MaxN(u, n) == Max(MaxN(s, n), MaxN(t, n))
  {
    if n > 0 { MaxOfUnion(s, t, u, n - 1); }
  }

  lemma {:induction false} SumOfUnion(e: real -> real, m: Ext, s: seq<Ext>, t: seq<Ext>, u: seq<Ext>, x: Vec, n: nat)
    requires n <= |s| == |t| == |u| && n <= |x|
    requires forall i :: 0 <= i < n ==> (s[i] == NegInf && u[i] == t[i]) || (t[i] == NegInf && u[i] == s[i])
    ensures WSum(e, u, m, x, n) == WSum(e, s, m, x, n) + WSum(e, t, m, x, n)
  {
    if n > 0 { SumOfUnion(e, m, s, t, u, x, n - 1); }
  }

  /** Two weighted sums, each under its own maximum, combine under the larger one. */
  lemma SumsMerge(e: real -> real, s: seq<Ext>, t: seq<Ext>, u: seq<Ext>, x: Vec, n: nat)
    requires IsExp(e) && n == |s| == |t| == |u| == |x|
    requires forall i :: 0 <= i < n ==> (s[i] == NegInf && u[i] == t[i]) || (t[i] == NegInf && u[i] == s[i])
    ensures var a, b, m := MaxN(s, n), MaxN(t, n), MaxN(u, n);
      m == Max(a, b)
      && WSum(e, u, m, x, n) == Times(WSum(e, s, a, x, n), Rescale(e, Sum(e, s, a, n), a, m))
                              + Times(WSum(e, t, b, x, n), Rescale(e, Sum(e, t, b, n), b, m))
  {
    hide IsExp, WSum, MaxN, Rescale, Sum;
    MaxOfUnion(s, t, u, n);
    SumOfUnion(e, MaxN(u, n), s, t, u, x, n);
    RowMovesTimes(e, s, MaxN(u, n), x, n);
    RowMovesTimes(e, t, MaxN(u, n), x, n);
  }

  lemma RowMovesTimes(e: real -> real, row: seq<Ext>, m': Ext, x: Vec, n: nat)
    requires IsExp(e) && n <= |row| && n <= |x| && AtMost(MaxN(row, n), m')
    ensures var m := MaxN(row, n);
      WSum(e, row, m', x, n) == Times(WSum(e, row, m, x, n), Rescale(e, Sum(e, row, m, n), m, m'))
  {
    RowMoves(e, row, m', x, n);
  }

  lemma SoftmaxMerges(e: real -> real, scale: real, row: seq<Ext>, v: seq<Vec>, width: nat)
    requires IsExp(e) && |row| == |v| && AllWidth(v, width)
    ensures MergesDisjoint(SoftmaxMerge(e), SoftmaxNorm(e, scale), row, v, width)
  {
    var p, rule := SoftmaxNorm(e, scale), SoftmaxMerge(e);
    forall a: set<nat>, b: set<nat> | a !! b
      ensures Merge(rule, PartOf(p, row, v, width, a), PartOf(p, row, v, width, b)) == PartOf(p, row, v, width, a + b)
    {
      SoftmaxPair(e, scale, row, v, width, a, b);
    }
  }

  lemma SoftmaxPair(e: real -> real, scale: real, row: seq<Ext>, v: seq<Vec>, width: nat, a: set<nat>, b: set<nat>)
    requires IsExp(e) && |row| == |v| && AllWidth(v, width) && a !! b
    ensures var p := SoftmaxNorm(e, scale);
      Merge(SoftmaxMerge(e), PartOf(p, row, v, width, a), PartOf(p, row, v, width, b))
        == PartOf(p, row, v, width, a + b)
  {
    hide IsExp, WSum, MaxN, Rescale, Sum, Times, SoftmaxNorm, RunState, RunOut;
    var n, p := |row|, SoftmaxNorm(e, scale);
    var left, right, both := PartOf(p, row, v, width, a), PartOf(p, row, v, width, b), PartOf(p, row, v, width, a + b);
    var merged := Merge(SoftmaxMerge(e), left, right);
    var s, t, u := ScaleScores(MaskTo(row, a), scale), ScaleScores(MaskTo(row, b), scale),
      ScaleScores(MaskTo(row, a + b), scale);
    MergedStates(e, scale, row, v, width, a, b);
    forall dv | 0 <= dv < width ensures merged.out[dv] == both.out[dv] {
      var x := Component(v, width, dv);
      SoftmaxRuns(e, scale, MaskTo(row, a), x, n);
      SoftmaxRuns(e, scale, MaskTo(row, b), x, n);
      SoftmaxRuns(e, scale, MaskTo(row, a + b), x, n);
      SumsMerge(e, s, t, u, x, n);
    }
  }

  /** The state half of the merge. */
  lemma MergedStates(e: real -> real, scale: real, row: seq<Ext>, v: seq<Vec>, width: nat, a: set<nat>, b: set<nat>)
    requires IsExp(e) && |row| == |v| && a !! b
    ensures var p, n := SoftmaxNorm(e, scale), |row|;
      MergeRunning(e, RunState(p, MaskTo(row, a), n), RunState(p, MaskTo(row, b), n))
        == RunState(p, MaskTo(row, a + b), n)
  {
    hide IsExp, WSum, MaxN, Rescale, Times, SoftmaxNorm, RunState, RunOut;
    var n, x := |row|, Ones(|row|);
    var s, t, u := ScaleScores(MaskTo(row, a), scale), ScaleScores(MaskTo(row, b), scale),
      ScaleScores(MaskTo(row, a + b), scale);
    SoftmaxRuns(e, scale, MaskTo(row, a), x, n);
    SoftmaxRuns(e, scale, MaskTo(row, b), x, n);
    SoftmaxRuns(e, scale, MaskTo(row, a + b), x, n);
    SumsMerge(e, s, t, u, x, n);
  }

  // ---- Additive norms --------------------------------------------------------

  function AdditiveMerge(): MergeRule<real> {
    MergeRule((l: real, r: real) => l + r, (l: real, r: real, m: real) => 1.0, (l: real, r: real, m: real) => 1.0)
  }

  lemma {:induction false} AdditiveUnion(
    term: real -> real, weight: real -> real, final: real -> real, s: seq<Ext>, t: seq<Ext>, u: seq<Ext>, x: Vec,
    n: nat)
    requires n <= |s| == |t| == |u| && n <= |x|
    requires forall i :: 0 <= i < n ==> (s[i] == NegInf && u[i] == t[i]) || (t[i] == NegInf && u[i] == s[i])
    ensures var p := Additive(term, weight, final);
      && RunState(p, u, n) == RunState(p, s, n) + RunState(p, t, n)
      && RunOut(p, u, x, n) == RunOut(p, s, x, n) + RunOut(p, t, x, n)
  {
    if n > 0 { AdditiveUnion(term, weight, final, s, t, u, x, n - 1); }
  }

  lemma AdditiveMerges(
    term: real -> real, weight: real -> real, final: real -> real, row: seq<Ext>, v: seq<Vec>, width: nat)
    requires |row| == |v| && AllWidth(v, width)
    ensures MergesDisjoint(AdditiveMerge(), Additive(term, weight, final), row, v, width)
  {
    hide RunState, RunOut, Additive;
    var p, rule := Additive(term, weight, final), AdditiveMerge();
    forall a: set<nat>, b: set<nat> | a !! b
      ensures Merge(rule, PartOf(p, row, v, width, a), PartOf(p, row, v, width, b)) == PartOf(p, row, v, width, a + b)
    {
      var left, right, both := PartOf(p, row, v, width, a), PartOf(p, row, v, width, b),
        PartOf(p, row, v, width, a + b);
      AdditiveUnion(term, weight, final, MaskTo(row, a), MaskTo(row, b), MaskTo(row, a + b), Ones(|row|), |row|);
      forall dv | 0 <= dv < width ensures Merge(rule, left, right).out[dv] == both.out[dv] {
        AdditiveUnion(term, weight, final, MaskTo(row, a), MaskTo(row, b), MaskTo(row, a + b), Component(v, width, dv),
          |row|);
      }
    }
  }
}
