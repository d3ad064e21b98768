/** Split-key execution of one output row: every worker turns its share of the keys into a part,
    parts merge within their NUMA group at the group's first worker, and group roots merge across groups. */
module SplitK {
  import opened Arrays
  import opened Integers
  import opened Vectors
  import opened Softmax
  import opened ScoreTiles
  import opened Scores
  import opened RowNorms
  import opened NormInstances
  import opened Merging
  import opened BlockedSoftmax
  import BlockedGeneric

  ghost predicate Within(lo: nat, hi: nat, i: nat) {
    lo <= i < hi
  }

  ghost function KeySet(lo: nat, hi: nat): (keys: set<nat>)
    ensures forall i: nat :: i in keys <==> lo <= i < hi
  {
    set i: nat | i < hi && Within(lo, hi, i)
  }

  // ---- One worker's part -----------------------------------------------------

  /** Running over a slice is running over the row with all other keys masked. */
  lemma {:induction false} SliceRuns<S>(p: Protocol<S>, row: seq<Ext>, x: Vec, lo: nat, hi: nat, n: nat)
    requires lo <= hi <= |row| == |x| && n <= |row|
    ensures var masked, m := MaskTo(row, KeySet(lo, hi)), if n <= lo then 0 else if n <= hi then n - lo else hi - lo;
      RunState(p, masked, n) == RunState(p, row[lo..hi], m)
      && RunOut(p, masked, x, n) == RunOut(p, row[lo..hi], x[lo..hi], m)
  {
    if n > 0 {
      SliceRuns(p, row, x, lo, hi, n - 1);
      if lo < n <= hi {
        assert MaskTo(row, KeySet(lo, hi))[n - 1] == row[lo..hi][n - 1 - lo];
        assert x[lo..hi][n - 1 - lo] == x[n - 1];
      } else {
        KeepsValue(RunOut(p, MaskTo(row, KeySet(lo, hi)), x, n - 1), x[n - 1]);
      }
    }
  }

  lemma SlicePart<S>(p: Protocol<S>, row: seq<Ext>, v: seq<Vec>, width: nat, lo: nat, hi: nat, state: S, out: Vec)
    requires lo <= hi <= |row| == |v| && AllWidth(v, width) && |out| == width
    requires BlockedGeneric.RowRuns(p, row[lo..hi], v[lo..hi], hi - lo, state, out)
    ensures Part(state, out) == PartOf(p, row, v, width, KeySet(lo, hi))
  {
    hide RunState, RunOut;
    SliceRuns(p, row, seq(|row|, i => 0.0), lo, hi, |row|);
    var part := PartOf(p, row, v, width, KeySet(lo, hi));
    forall dv | 0 <= dv < width ensures out[dv] == part.out[dv] {
      assert Component(v, width, dv)[lo..hi] == Component(v[lo..hi], width, dv);
      SliceRuns(p, row, Component(v, width, dv), lo, hi, |row|);
    }
  }

  /** A worker's share through the generic tile loop. */
  method GenericPart<S>(p: Protocol<S>, src: Source, ghost row: seq<Ext>, v: seq<Vec>, lo: nat, hi: nat, width: nat)
    returns (state: S, out: array2<real>)
    requires RowSource(src, row) && lo <= hi <= |row| == |v| && AllWidth(v, width)
    ensures fresh(out) && out.Length0 == 1 && out.Length1 == width
    ensures Part(state, Row(out, 0)) == PartOf(p, row, v, width, KeySet(lo, hi))
  {
    hide RunState, RunOut, PartOf, Source.Valid, Source.Row;
    out := new real[1, width];
    assert AllWidth(v[lo..hi], width);
    SliceRow(src, lo, hi, 0);
    var slice := Slice(src, lo, hi);
    var states := BlockedGeneric.KeyLoop(p, slice, v[lo..hi], hi - lo, out);
    state := states[0];
    assert BlockedGeneric.RowRuns(p, slice.Rows()[0], v[lo..hi], hi - lo, states[0], Row(out, 0));
    SlicePart(p, row, v, width, lo, hi, state, Row(out, 0));
  }

  /** A source of one query row, whose masked scores are the given row. */
  ghost predicate RowSource(src: Source, row: seq<Ext>) {
    src.Valid() && |src.q| == 1 && src.first == 0 && src.Row(0) == row
  }

  /** A worker's share through the softmax fast path gives the same part as the generic protocol. */
  method SoftmaxPart(
    e: real -> real, scale: real, src: Source, ghost row: seq<Ext>, v: seq<Vec>, lo: nat, hi: nat, width: nat)
    returns (state: Running, out: array2<real>)
    requires IsExp(e) && RowSource(src, row) && lo <= hi <= |row| == |v| && AllWidth(v, width)
    ensures fresh(out) && out.Length0 == 1 && out.Length1 == width
    ensures Part(state, Row(out, 0)) == PartOf(SoftmaxNorm(e, scale), row, v, width, KeySet(lo, hi))
  {
    hide IsExp, WSum, MaxN, RunState, RunOut, PartOf, SoftmaxNorm, Source.Valid, Source.Row;
    out := new real[1, width];
    assert AllWidth(v[lo..hi], width);
    SliceRow(src, lo, hi, 0);
    var slice := Slice(src, lo, hi);
    var rowMax, rowSum := BlockedSoftmax.KeyLoop(slice, scale, v[lo..hi], hi - lo, out, e);
    state := Running(rowMax[0], rowSum[0]);
    assert RowHolds(e, ScaledRows(slice, scale)[0], v[lo..hi], hi - lo, rowMax[0], rowSum[0], Row(out, 0));
    SoftmaxRowRuns(e, scale, row[lo..hi], v[lo..hi], state, Row(out, 0));
    SlicePart(SoftmaxNorm(e, scale), row, v, width, lo, hi, state, Row(out, 0));
  }

  lemma SoftmaxRowRuns(e: real -> real, scale: real, row: seq<Ext>, v: seq<Vec>, state: Running, out: Vec)
    requires IsExp(e) && |row| == |v| && AllWidth(v, |out|)
    requires RowHolds(e, ScaleScores(row, scale), v, |row|, state.m, state.l, out)
    ensures BlockedGeneric.RowRuns(SoftmaxNorm(e, scale), row, v, |row|, state, out)
  {
    hide IsExp, WSum, MaxN, RunState, RunOut, SoftmaxNorm;
    SoftmaxRuns(e, scale, row, Ones(|row|), |row|);
    forall dv | 0 <= dv < |out|
      ensures out[dv] == RunOut(SoftmaxNorm(e, scale), row, Component(v, |out|, dv), |row|)
    {
      SoftmaxRuns(e, scale, row, Component(v, |out|, dv), |row|);
    }
  }

  // ---- Merging ---------------------------------------------------------------

  method MergeInPlace(target: array2<real>, t: nat, source: array2<real>, s: nat, targetScale: real, sourceScale: real)
    requires t < target.Length0 && s < source.Length0 && target.Length1 == source.Length1
    requires target != source || t != s
    modifies target
    ensures forall i, dv :: 0 <= i < target.Length0 && 0 <= dv < target.Length1 ==>
      target[i, dv] == if i == t then Times(old(target[t, dv]), targetScale) + Times(old(source[s, dv]), sourceScale)
        else old(target[i, dv])
  {
    for dv := 0 to target.Length1
      invariant forall i, e :: 0 <= i < target.Length0 && 0 <= e < target.Length1 ==>
        target[i, e] ==
          if i == t && e < dv then Times(old(target[t, e]), targetScale) + Times(old(source[s, e]), sourceScale)
          else old(target[i, e])
    {
      target[t, dv] := target[t, dv] * targetScale + source[s, dv] * sourceScale;
    }
  }

  /** The partial row a worker's slot holds. */
  ghost function Slot<S>(states: array<S>, outs: array2<real>, i: nat): (r: Part<S>)
    requires i < states.Length == outs.Length0
    reads states, outs
    ensures |r.out| == outs.Length1
  {
    Part(states[i], Row(outs, i))
  }

  /** Merges slot s into slot t, leaving every other slot alone. */
  method MergeSlots<S>(rule: MergeRule<S>, states: array<S>, outs: array2<real>, t: nat, s: nat)
    requires states.Length == outs.Length0 && t < states.Length && s < states.Length && t != s
    modifies states, outs
    ensures Slot(states, outs, t) == Merge(rule, old(Slot(states, outs, t)), old(Slot(states, outs, s)))
    ensures forall i :: 0 <= i < states.Length && i != t ==> Slot(states, outs, i) == old(Slot(states, outs, i))
  {
    var left, right := states[t], states[s];
    var merged := rule.merge(left, right);
    MergeInPlace(outs, t, outs, s, rule.leftScale(left, right, merged), rule.rightScale(left, right, merged));
    states[t] := merged;
    forall i | 0 <= i < states.Length && i != t ensures Slot(states, outs, i) == old(Slot(states, outs, i)) {
      forall dv | 0 <= dv < outs.Length1 ensures Row(outs, i)[dv] == old(Row(outs, i))[dv] {
      }
    }
  }

  /** The keys held by the first n members that belong to a group. */
  ghost function GroupKeys(groups: seq<nat>, held: seq<set<nat>>, base: nat, n: nat, group: nat): set<nat>
    requires base + n <= |groups| && base + n <= |held|
  {
    if n == 0 then {}
    else GroupKeys(groups, held, base, n - 1, group) + if groups[base + n - 1] == group then held[base + n - 1] else {}
  }

  /** The keys held by members of the groups before a bound. */
  ghost function KeysBefore(groups: seq<nat>, held: seq<set<nat>>, base: nat, n: nat, bound: nat): set<nat>
    requires base + n <= |groups| && base + n <= |held|
  {
    if n == 0 then {}
    else KeysBefore(groups, held, base, n - 1, bound) + if groups[base + n - 1] < bound then held[base + n - 1] else {}
  }

  ghost predicate PairwiseDisjoint(held: seq<set<nat>>, base: nat, n: nat)
    requires base + n <= |held|
  {
    forall i, j :: base <= i < base + n && base <= j < base + n && i != j ==> held[i] !! held[j]
  }

  /** A member's keys are apart from those of the earlier members. */
  lemma {:induction false} GroupApart(
    groups: seq<nat>, held: seq<set<nat>>, base: nat, n: nat, count: nat, group: nat, j: nat)
    requires n <= count && base + count <= |groups| && base + count <= |held| && PairwiseDisjoint(held, base, count)
    requires base + n <= j < base + count
    ensures GroupKeys(groups, held, base, n, group) !! held[j]
  {
    if n > 0 { GroupApart(groups, held, base, n - 1, count, group, j); }
  }

  /** The next group's keys extend the keys before it, disjointly. */
  lemma {:induction false} GroupsExtend(
    groups: seq<nat>, held: seq<set<nat>>, base: nat, n: nat, count: nat, group: nat)
    requires n <= count && base + count <= |groups| && base + count <= |held| && PairwiseDisjoint(held, base, count)
    ensures KeysBefore(groups, held, base, n, group) !! GroupKeys(groups, held, base, n, group)
    ensures KeysBefore(groups, held, base, n, group + 1)
         == KeysBefore(groups, held, base, n, group) + GroupKeys(groups, held, base, n, group)
  {
    if n > 0 {
      GroupsExtend(groups, held, base, n - 1, count, group);
      GroupApart(groups, held, base, n - 1, count, group, base + n - 1);
      BeforeApart(groups, held, base, n - 1, count, group, base + n - 1);
    }
  }

  lemma {:induction false} BeforeApart(
    groups: seq<nat>, held: seq<set<nat>>, base: nat, n: nat, count: nat, bound: nat, j: nat)
    requires n <= count && base + count <= |groups| && base + count <= |held| && PairwiseDisjoint(held, base, count)
    requires base + n <= j < base + count
    ensures KeysBefore(groups, held, base, n, bound) !! held[j]
  {
    if n > 0 { BeforeApart(groups, held, base, n - 1, count, bound, j); }
  }

  lemma {:induction false} GroupEmpty(groups: seq<nat>, held: seq<set<nat>>, base: nat, n: nat, group: nat)
    requires base + n <= |groups| && base + n <= |held|
    requires forall i :: base <= i < base + n ==> groups[i] != group
    ensures GroupKeys(groups, held, base, n, group) == {}
  {
    if n > 0 { GroupEmpty(groups, held, base, n - 1, group); }
  }

  /** The first member of each group, or -1. */
  method GroupRoots(groups: seq<nat>, groupCount: nat, base: nat, count: nat) returns (found: seq<int>)
    requires base + count <= |groups| && forall i :: base <= i < base + count ==> groups[i] < groupCount
    ensures |found| == groupCount && AllRoots(groups, base, count, found)
  {
    var roots := new int[groupCount](i => -1);
    for i := 0 to count
      invariant forall g :: 0 <= g < groupCount ==> IsRoot(groups, base, i, g, roots[g])
    {
      var group := groups[base + i];
      if roots[group] < 0 { roots[group] := base + i; }
    }
    found := roots[..];
  }

  ghost predicate IsRoot(groups: seq<nat>, base: nat, count: nat, group: nat, root: int)
    requires base + count <= |groups|
  {
    if root < 0 then root == -1 && forall i :: base <= i < base + count ==> groups[i] != group
    else base <= root < base + count && groups[root] == group && forall i :: base <= i < root ==> groups[i] != group
  }

  ghost predicate AllRoots(groups: seq<nat>, base: nat, count: nat, roots: seq<int>)
    requires base + count <= |groups|
  {
    forall g {:trigger roots[g]} :: 0 <= g < |roots| ==> IsRoot(groups, base, count, g, roots[g])
  }

  /** The members before a group's root contribute nothing to the group. */
  lemma RootStarts(groups: seq<nat>, held: seq<set<nat>>, base: nat, count: nat, group: nat, root: nat)
    requires base + count <= |groups| && base + count <= |held| && IsRoot(groups, base, count, group, root)
    ensures GroupKeys(groups, held, base, root - base, group) == {}
    ensures GroupKeys(groups, held, base, root - base + 1, group) == held[root]
  {
    GroupEmpty(groups, held, base, root - base, group);
  }

  lemma GroupGrows(groups: seq<nat>, held: seq<set<nat>>, base: nat, n: nat, group: nat)
    requires base + n < |groups| && base + n < |held|
    ensures GroupKeys(groups, held, base, n + 1, group)
         == (if groups[base + n] == group then GroupKeys(groups, held, base, n, group) + held[base + n]
            else GroupKeys(groups, held, base, n, group))
  {
  }

  lemma UseLaw<S>(rule: MergeRule<S>, p: Protocol<S>, row: seq<Ext>, v: seq<Vec>, width: nat, a: set<nat>, b: set<nat>)
    requires |row| == |v| && AllWidth(v, width) && MergesDisjoint(rule, p, row, v, width) && a !! b
    ensures Merge(rule, PartOf(p, row, v, width, a), PartOf(p, row, v, width, b)) == PartOf(p, row, v, width, a + b)
  {
    hide PartOf, Merge;
  }

  /** Merges every other member of a group into its root. */
  method MergeGroup<S>(
    rule: MergeRule<S>, states: array<S>, outs: array2<real>, groups: seq<nat>, base: nat, count: nat, group: nat,
    root: nat,
    ghost p: Protocol<S>, ghost row: seq<Ext>, ghost v: seq<Vec>, ghost held: seq<set<nat>>)
    requires states.Length == outs.Length0 == |groups| == |held| && base + count <= |groups|
    requires |row| == |v| && AllWidth(v, outs.Length1) && MergesDisjoint(rule, p, row, v, outs.Length1)
    requires PairwiseDisjoint(held, base, count) && IsRoot(groups, base, count, group, root)
    requires forall i :: base <= i < base + count && groups[i] == group ==>
      Slot(states, outs, i) == PartOf(p, row, v, outs.Length1, held[i])
    modifies states, outs
    ensures Slot(states, outs, root) == PartOf(p, row, v, outs.Length1, GroupKeys(groups, held, base, count, group))
    ensures forall i :: 0 <= i < states.Length && i != root ==> Slot(states, outs, i) == old(Slot(states, outs, i))
  {
    hide PartOf, Merge, Slot, MergesDisjoint, GroupKeys, PairwiseDisjoint, AllWidth;
    ghost var width, first := outs.Length1, root - base;
    RootStarts(groups, held, base, count, group, root);
    for i := 0 to count
      invariant forall j :: 0 <= j < states.Length && j != root ==> Slot(states, outs, j) == old(Slot(states, outs, j))
      invariant Slot(states, outs, root)
        == PartOf(p, row, v, width, GroupKeys(groups, held, base, if i <= first then first + 1 else i, group))
    {
      var worker := base + i;
      GroupGrows(groups, held, base, i, group);
      if worker != root && groups[worker] == group {
        assert first < i;
        GroupApart(groups, held, base, i, count, group, worker);
        UseLaw(rule, p, row, v, width, GroupKeys(groups, held, base, i, group), held[worker]);
        assert Slot(states, outs, worker) == PartOf(p, row, v, width, held[worker]);
        MergeSlots(rule, states, outs, root, worker);
      }
    }
  }

  /** Merges each group at its root. */
  method MergeGroups<S>(
    rule: MergeRule<S>, states: array<S>, outs: array2<real>, groups: seq<nat>, groupCount: nat, base: nat, count: nat,
    roots: seq<int>,
    ghost p: Protocol<S>, ghost row: seq<Ext>, ghost v: seq<Vec>, ghost held: seq<set<nat>>)
    requires states.Length == outs.Length0 == |groups| == |held| && base + count <= |groups|
    requires |row| == |v| && AllWidth(v, outs.Length1) && MergesDisjoint(rule, p, row, v, outs.Length1)
    requires PairwiseDisjoint(held, base, count) && |roots| == groupCount
    requires AllRoots(groups, base, count, roots)
    requires forall i :: base <= i < base + count ==> Slot(states, outs, i) == PartOf(p, row, v, outs.Length1, held[i])
    modifies states, outs
    ensures forall g :: 0 <= g < groupCount && roots[g] >= 0 ==>
      Slot(states, outs, roots[g]) == PartOf(p, row, v, outs.Length1, GroupKeys(groups, held, base, count, g))
  {
    hide PartOf, Merge, Slot, MergesDisjoint, GroupKeys, PairwiseDisjoint, AllWidth;
    for g := 0 to groupCount
      invariant forall k :: 0 <= k < g && roots[k] >= 0 ==>
        Slot(states, outs, roots[k]) == PartOf(p, row, v, outs.Length1, GroupKeys(groups, held, base, count, k))
      invariant forall i :: base <= i < base + count && groups[i] >= g ==>
        Slot(states, outs, i) == PartOf(p, row, v, outs.Length1, held[i])
    {
      var root := roots[g];
      if root >= 0 {
        MergeGroup(rule, states, outs, groups, base, count, g, root, p, row, v, held);
      }
    }
  }

  /** Merges the group roots into the output row, first group first, and applies the final scale. */
  method MergeRoots<S>(
    rule: MergeRule<S>, p: Protocol<S>, states: array<S>, outs: array2<real>, groups: seq<nat>, groupCount: nat,
    base: nat, count: nat,
    roots: seq<int>, output: array2<real>, r: nat,
    ghost row: seq<Ext>, ghost v: seq<Vec>, ghost held: seq<set<nat>>)
    requires states.Length == outs.Length0 == |groups| == |held| && base + count <= |groups| && count > 0
    requires r < output.Length0 && output.Length1 == outs.Length1 && output != outs
    requires |row| == |v| && AllWidth(v, outs.Length1) && MergesDisjoint(rule, p, row, v, outs.Length1)
    requires PairwiseDisjoint(held, base, count) && |roots| == groupCount
    requires forall i :: base <= i < base + count ==> groups[i] < groupCount
    requires AllRoots(groups, base, count, roots)
    requires forall g :: 0 <= g < groupCount && roots[g] >= 0 ==>
      Slot(states, outs, roots[g]) == PartOf(p, row, v, outs.Length1, GroupKeys(groups, held, base, count, g))
    modifies output
    ensures forall dv :: 0 <= dv < output.Length1 ==> output[r, dv] == Times(
      p.finalScale(PartOf(p, row, v, outs.Length1, KeysBefore(groups, held, base, count, groupCount)).state),
      PartOf(p, row, v, outs.Length1, KeysBefore(groups, held, base, count, groupCount)).out[dv])
    ensures forall i, dv :: 0 <= i < output.Length0 && i != r && 0 <= dv < output.Length1 ==>
      output[i, dv] == old(output[i, dv])
  {
    hide PartOf, Merge, MergesDisjoint, GroupKeys, KeysBefore, PairwiseDisjoint, AllWidth, Times;
    ghost var width := outs.Length1;
    var first := 0;
    while first < groupCount && roots[first] < 0
      invariant 0 <= first <= groupCount
      invariant forall g :: 0 <= g < first ==> roots[g] < 0
    {
      first := first + 1;
    }
    FirstExists(groups, base, count, roots, groupCount, first);
    BeforeFirst(groups, held, base, count, roots, first);
    GroupsExtend(groups, held, base, count, count, first);
    var worker := roots[first];
    CopyRow(outs, worker, output, r);
    var state := states[worker];
    assert Slot(states, outs, worker) == PartOf(p, row, v, width, GroupKeys(groups, held, base, count, first));
    assert Row(output, r) == Row(outs, worker);
    assert KeysBefore(groups, held, base, count, first + 1) == GroupKeys(groups, held, base, count, first);
    for g := first + 1 to groupCount
      invariant Part(state, Row(output, r)) == PartOf(p, row, v, width, KeysBefore(groups, held, base, count, g))
      invariant forall i, dv :: 0 <= i < output.Length0 && i != r && 0 <= dv < output.Length1 ==>
        output[i, dv] == old(output[i, dv])
    {
      var root := roots[g];
      GroupsExtend(groups, held, base, count, count, g);
      if root < 0 {
        GroupEmpty(groups, held, base, count, g);
        assert KeysBefore(groups, held, base, count, g + 1) == KeysBefore(groups, held, base, count, g);
      } else {
        UseLaw(rule, p, row, v, width, KeysBefore(groups, held, base, count, g),
          GroupKeys(groups, held, base, count, g));
        ghost var left, right := Part(state, Row(output, r)), Slot(states, outs, root);
        var merged := rule.merge(state, states[root]);
        MergeInPlace(output, r, outs, root, rule.leftScale(state, states[root], merged),
          rule.rightScale(state, states[root], merged));
        state := merged;
        MergedRow(rule, left, right, state, Row(output, r));
      }
    }
    ghost var before := Row(output, r);
    ScaleRow(output, r, p.finalScale(state));
    forall dv | 0 <= dv < output.Length1 ensures output[r, dv] == Times(p.finalScale(state), before[dv]) {
      TimesSwaps(before[dv], p.finalScale(state));
    }
  }

  lemma MergedRow<S>(rule: MergeRule<S>, left: Part<S>, right: Part<S>, state: S, out: Vec)
    requires |left.out| == |right.out| == |out|
    requires state == rule.merge(left.state, right.state)
    requires forall dv :: 0 <= dv < |out| ==>
      out[dv] == Times(left.out[dv], rule.leftScale(left.state, right.state, state))
        + Times(right.out[dv], rule.rightScale(left.state, right.state, state))
    ensures Part(state, out) == Merge(rule, left, right)
  {
    hide Times;
    assert out == Merge(rule, left, right).out;
  }

  method CopyRow(source: array2<real>, s: nat, target: array2<real>, t: nat)
    requires s < source.Length0 && t < target.Length0 && source.Length1 == target.Length1 && source != target
    modifies target
    ensures forall i, dv :: 0 <= i < target.Length0 && 0 <= dv < target.Length1 ==>
      target[i, dv] == if i == t then source[s, dv] else old(target[i, dv])
  {
    for dv := 0 to target.Length1
      invariant forall i, e :: 0 <= i < target.Length0 && 0 <= e < target.Length1 ==>
        target[i, e] == if i == t && e < dv then source[s, e] else old(target[i, e])
    {
      target[t, dv] := source[s, dv];
    }
  }

  lemma {:induction false} NoneBefore(groups: seq<nat>, held: seq<set<nat>>, base: nat, n: nat, bound: nat)
    requires base + n <= |groups| && base + n <= |held|
    requires forall i :: base <= i < base + n ==> groups[i] >= bound
    ensures KeysBefore(groups, held, base, n, bound) == {}
  {
    if n > 0 { NoneBefore(groups, held, base, n - 1, bound); }
  }

  lemma FirstExists(groups: seq<nat>, base: nat, count: nat, roots: seq<int>, groupCount: nat, first: nat)
    requires base + count <= |groups| && count > 0 && |roots| == groupCount && first <= groupCount
    requires forall i :: base <= i < base + count ==> groups[i] < groupCount
    requires AllRoots(groups, base, count, roots)
    requires forall g :: 0 <= g < first ==> roots[g] < 0
    ensures first < groupCount
  {
    assert IsRoot(groups, base, count, groups[base], roots[groups[base]]);
  }

  /** Groups without members hold no keys. */
  lemma {:induction false} BeforeFirst(
    groups: seq<nat>, held: seq<set<nat>>, base: nat, count: nat, roots: seq<int>, first: nat)
    requires base + count <= |groups| && base + count <= |held| && first <= |roots|
    requires PairwiseDisjoint(held, base, count)
    requires AllRoots(groups, base, count, roots) && forall g :: 0 <= g < first ==> roots[g] < 0
    ensures KeysBefore(groups, held, base, count, first) == {}
  {
    if first == 0 {
      NoneBefore(groups, held, base, count, 0);
    } else {
      BeforeFirst(groups, held, base, count, roots, first - 1);
      GroupsExtend(groups, held, base, count, count, first - 1);
      assert roots[first - 1] < 0;
      GroupEmpty(groups, held, base, count, first - 1);
    }
  }

  // ---- The whole row ---------------------------------------------------------

  /** The keys of each worker of the row: consecutive shares for the members, nothing for the others. */
  ghost function Shares(keys: nat, workers: nat, base: nat, count: nat): (held: seq<set<nat>>)
    requires count > 0
    ensures |held| == workers
  {
    seq(workers, w requires 0 <= w < workers =>
      if base <= w < base + count then KeySet(ShareBegin(keys, w - base, count), ShareBegin(keys, w - base + 1, count))
        else {})
  }

  lemma SharesDisjoint(keys: nat, workers: nat, base: nat, count: nat)
    requires count > 0 && base + count <= workers
    ensures PairwiseDisjoint(Shares(keys, workers, base, count), base, count)
  {
    hide KeySet, ShareBegin, Shares;
    var held := Shares(keys, workers, base, count);
    forall i: nat, j: nat | base <= i < base + count && base <= j < base + count && i != j ensures held[i] !! held[j] {
      ShareOf(keys, workers, base, count, i);
      ShareOf(keys, workers, base, count, j);
      if i < j { SharesApart(keys, count, i - base, j - base); } else { SharesApart(keys, count, j - base, i - base); }
    }
  }

  /** A later share begins where an earlier one has ended. */
  lemma SharesApart(keys: nat, count: nat, a: nat, b: nat)
    requires a < b < count
    ensures KeySet(ShareBegin(keys, a, count), ShareBegin(keys, a + 1, count))
         !! KeySet(ShareBegin(keys, b, count), ShareBegin(keys, b + 1, count))
  {
    hide ShareBegin;
    ShareOrdered(keys, a + 1, b, count);
  }

  lemma ShareOf(keys: nat, workers: nat, base: nat, count: nat, w: nat)
    requires count > 0 && base <= w < base + count <= workers
    ensures Shares(keys, workers, base, count)[w]
         == KeySet(ShareBegin(keys, w - base, count), ShareBegin(keys, w - base + 1, count))
  {
  }

  lemma KeySetsJoin(lo: nat, mid: nat, hi: nat)
    requires lo <= mid <= hi
    ensures KeySet(lo, mid) + KeySet(mid, hi) == KeySet(lo, hi)
  {
  }

  /** The shares of the first n members are exactly the keys before the next share. */
  lemma {:induction false} SharesCover(groups: seq<nat>, keys: nat, base: nat, count: nat, n: nat, groupCount: nat)
    requires count > 0 && base + count <= |groups| && n <= count
    requires forall i :: base <= i < base + count ==> groups[i] < groupCount
    ensures KeysBefore(groups, Shares(keys, |groups|, base, count), base, n, groupCount)
         == KeySet(0, ShareBegin(keys, n, count))
  {
    if n == 0 {
      DivModUnique(0, count, 0, 0);
    } else {
      SharesCover(groups, keys, base, count, n - 1, groupCount);
      ShareOrdered(keys, n - 1, n, count);
      KeySetsJoin(0, ShareBegin(keys, n - 1, count), ShareBegin(keys, n, count));
      ShareOf(keys, |groups|, base, count, base + n - 1);
    }
  }

  lemma AllShares(groups: seq<nat>, keys: nat, base: nat, count: nat, groupCount: nat)
    requires count > 0 && base + count <= |groups|
    requires forall i :: base <= i < base + count ==> groups[i] < groupCount
    ensures KeysBefore(groups, Shares(keys, |groups|, base, count), base, count, groupCount) == KeySet(0, keys)
  {
    SharesCover(groups, keys, base, count, count, groupCount);
    DivModUnique(keys * count, count, keys, 0);
  }

  /** The part of all keys, scaled, is the row's output. */
  lemma WholePart<S>(p: Protocol<S>, row: seq<Ext>, v: seq<Vec>, width: nat, dv: nat)
    requires |row| == |v| && AllWidth(v, width) && dv < width
    ensures var part := PartOf(p, row, v, width, KeySet(0, |row|));
      Times(p.finalScale(part.state), part.out[dv]) == OnlineOutput(p, row, Component(v, width, dv))
  {
    hide OnlineOutput, RunState, RunOut;
    assert MaskTo(row, KeySet(0, |row|)) == row;
    FinishedRun(p, row, Component(v, width, dv));
  }

  /** The merge phase of one output row: from one part per member to the finished row. */
  method MergeRow<S>(
    rule: MergeRule<S>, p: Protocol<S>, states: array<S>, outs: array2<real>, groups: seq<nat>, groupCount: nat,
    base: nat, count: nat, output: array2<real>, r: nat, ghost row: seq<Ext>, ghost v: seq<Vec>)
    requires states.Length == outs.Length0 == |groups| && base + count <= |groups| && count > 0
    requires forall i :: base <= i < base + count ==> groups[i] < groupCount
    requires r < output.Length0 && output.Length1 == outs.Length1 && output != outs
    requires |row| == |v| && AllWidth(v, outs.Length1) && MergesDisjoint(rule, p, row, v, outs.Length1)
    requires forall i :: base <= i < base + count ==>
      Slot(states, outs, i) == PartOf(p, row, v, outs.Length1, Shares(|row|, |groups|, base, count)[i])
    modifies states, outs, output
    ensures forall dv :: 0 <= dv < output.Length1 ==>
      output[r, dv] == OnlineOutput(p, row, Component(v, output.Length1, dv))
    ensures forall i, dv :: 0 <= i < output.Length0 && i != r && 0 <= dv < output.Length1 ==>
      output[i, dv] == old(output[i, dv])
  {
    hide PartOf, MergesDisjoint, GroupKeys, KeysBefore, PairwiseDisjoint, AllWidth, Times, OnlineOutput, Shares, Slot;
    ghost var held := Shares(|row|, |groups|, base, count);
    SharesDisjoint(|row|, |groups|, base, count);
    var roots := GroupRoots(groups, groupCount, base, count);
    MergeGroups(rule, states, outs, groups, groupCount, base, count, roots, p, row, v, held);
    MergeRoots(rule, p, states, outs, groups, groupCount, base, count, roots, output, r, row, v, held);
    AllShares(groups, |row|, base, count, groupCount);
    forall dv | 0 <= dv < output.Length1
      ensures output[r, dv] == OnlineOutput(p, row, Component(v, output.Length1, dv))
    {
      WholePart(p, row, v, output.Length1, dv);
    }
  }

  /** Split-key execution of one row on the generic path: members base .. base + count of all workers, each
      reading its own copy of the keys. */
  method SplitRow<S>(
    rule: MergeRule<S>, p: Protocol<S>, sources: seq<Source>, ghost row: seq<Ext>, v: seq<Vec>, groups: seq<nat>,
    groupCount: nat,
    base: nat, count: nat, output: array2<real>, r: nat)
    requires base + count <= |groups| == |sources| && count > 0 && r < output.Length0
    requires forall w :: base <= w < base + count ==> RowSource(sources[w], row)
    requires forall i :: base <= i < base + count ==> groups[i] < groupCount
    requires |row| == |v| && AllWidth(v, output.Length1) && MergesDisjoint(rule, p, row, v, output.Length1)
    modifies output
    ensures forall dv :: 0 <= dv < output.Length1 ==>
      output[r, dv] == OnlineOutput(p, row, Component(v, output.Length1, dv))
    ensures forall i, dv :: 0 <= i < output.Length0 && i != r && 0 <= dv < output.Length1 ==>
      output[i, dv] == old(output[i, dv])
  {
    hide PartOf, MergesDisjoint, OnlineOutput, AllWidth, Shares, Slot, ShareBegin, RowSource;
    var states, outs := new S[|groups|](i => p.init), new real[|groups|, output.Length1];
    for w := base to base + count
      invariant forall j :: base <= j < w ==>
        Slot(states, outs, j) == PartOf(p, row, v, output.Length1, Shares(|row|, |groups|, base, count)[j])
      invariant forall k, dv :: 0 <= k < output.Length0 && 0 <= dv < output.Length1 ==>
        output[k, dv] == old(output[k, dv])
    {
      ShareOrdered(|row|, w - base, w - base + 1, count);
      ShareOf(|row|, |groups|, base, count, w);
      var begin, end := ShareBegin(|v|, w - base, count), ShareBegin(|v|, w - base + 1, count);
      var state, out := GenericPart(p, sources[w], row, v, begin, end, output.Length1);
      FillSlot(states, outs, w, state, out);
    }
    MergeRow(rule, p, states, outs, groups, groupCount, base, count, output, r, row, v);
  }

  method FillSlot<S>(states: array<S>, outs: array2<real>, i: nat, state: S, out: array2<real>)
    requires i < states.Length == outs.Length0 && out.Length0 == 1 && out.Length1 == outs.Length1 && out != outs
    modifies states, outs
    ensures Slot(states, outs, i) == Part(state, Row(out, 0))
    ensures forall j :: 0 <= j < states.Length && j != i ==> Slot(states, outs, j) == old(Slot(states, outs, j))
  {
    CopyRow(out, 0, outs, i);
    states[i] := state;
    assert Row(outs, i) == Row(out, 0);
    forall j | 0 <= j < states.Length && j != i ensures Row(outs, j) == old(Row(outs, j)) {
    }
  }

  /** Split-key softmax through the fast path, for any division among workers and NUMA groups. */
  method SplitSoftmaxRow(
    e: real -> real, scale: real, sources: seq<Source>, ghost row: seq<Ext>, v: seq<Vec>, groups: seq<nat>,
    groupCount: nat,
    base: nat, count: nat, output: array2<real>, r: nat)
    requires IsExp(e) && base + count <= |groups| == |sources| && count > 0 && r < output.Length0
    requires forall w :: base <= w < base + count ==> RowSource(sources[w], row)
    requires forall i :: base <= i < base + count ==> groups[i] < groupCount
    requires |row| == |v| && AllWidth(v, output.Length1)
    modifies output
    ensures forall dv :: 0 <= dv < output.Length1 ==>
      output[r, dv] == Reference(e, ScaleScores(row, scale), Component(v, output.Length1, dv))
    ensures forall i, dv :: 0 <= i < output.Length0 && i != r && 0 <= dv < output.Length1 ==>
      output[i, dv] == old(output[i, dv])
  {
    hide IsExp, PartOf, MergesDisjoint, OnlineOutput, AllWidth, Reference, SoftmaxNorm, SoftmaxMerge, Shares, Slot,
      ShareBegin, RowSource;
    var p, rule := SoftmaxNorm(e, scale), SoftmaxMerge(e);
    var states, outs := new Running[|groups|](i => Running(NegInf, 0.0)), new real[|groups|, output.Length1];
    for w := base to base + count
      invariant forall j :: base <= j < w ==>
        Slot(states, outs, j) == PartOf(p, row, v, output.Length1, Shares(|row|, |groups|, base, count)[j])
      invariant forall k, dv :: 0 <= k < output.Length0 && 0 <= dv < output.Length1 ==>
        output[k, dv] == old(output[k, dv])
    {
      ShareOrdered(|row|, w - base, w - base + 1, count);
      ShareOf(|row|, |groups|, base, count, w);
      var begin, end := ShareBegin(|v|, w - base, count), ShareBegin(|v|, w - base + 1, count);
      var state, out := SoftmaxPart(e, scale, sources[w], row, v, begin, end, output.Length1);
      FillSlot(states, outs, w, state, out);
    }
    SoftmaxMerges(e, scale, row, v, output.Length1);
    MergeRow(rule, p, states, outs, groups, groupCount, base, count, output, r, row, v);
    forall dv | 0 <= dv < output.Length1
      ensures output[r, dv] == Reference(e, ScaleScores(row, scale), Component(v, output.Length1, dv))
    {
      SoftmaxMeetsReference(e, scale, row, Component(v, output.Length1, dv));
    }
  }
}
