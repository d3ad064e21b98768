/** The ordered scan decomposed into DV blocks: every work item scans one slice of state
    columns, in any schedule, and together they are the whole-width scan. */
module ScanKernel {
  import opened Arrays
  import opened Vectors
  import opened ScanReference
  import opened LinearBlocks
  import opened Integers

  /** All columns outside [lo, hi) are as they were. */
  twostate predicate OnlySlice(a: array2<real>, lo: nat, hi: nat)
    reads a
  {
    forall d, dv :: 0 <= d < a.Length0 && 0 <= dv < a.Length1 && !(lo <= dv < hi) ==> a[d, dv] == old(a[d, dv])
  }

  method ScaleSlice(state: array2<real>, factor: Vec, lo: nat, hi: nat)
    requires |factor| == state.Length0 && lo <= hi <= state.Length1
    modifies state
    ensures OnlySlice(state, lo, hi)
    ensures forall d, dv :: 0 <= d < state.Length0 && lo <= dv < hi ==> state[d, dv] == old(state[d, dv]) * factor[d]
  {
    for d := 0 to state.Length0
      invariant OnlySlice(state, lo, hi)
      invariant forall i, e :: 0 <= i < state.Length0 && lo <= e < hi ==>
        state[i, e] == if i < d then old(state[i, e]) * factor[i] else old(state[i, e])
    {
      for dv := lo to hi
        invariant OnlySlice(state, lo, hi)
        invariant forall i, e :: 0 <= i < state.Length0 && lo <= e < hi ==>
          state[i, e] == if i < d || (i == d && e < dv) then old(state[i, e]) * factor[i] else old(state[i, e])
      {
        state[d, dv] := state[d, dv] * factor[d];
      }
    }
  }

  /** state[d] += left[d] * row, on the slice. */
  method OuterSlice(state: array2<real>, left: Vec, row: array<real>, lo: nat, hi: nat)
    requires |left| == state.Length0 && lo <= hi <= state.Length1 == row.Length
    modifies state
    ensures OnlySlice(state, lo, hi)
    ensures forall d, dv :: 0 <= d < state.Length0 && lo <= dv < hi ==>
      state[d, dv] == old(state[d, dv]) + left[d] * row[dv]
  {
    for d := 0 to state.Length0
      invariant OnlySlice(state, lo, hi)
      invariant forall i, e :: 0 <= i < state.Length0 && lo <= e < hi ==>
        state[i, e] == if i < d then old(state[i, e]) + left[i] * row[e] else old(state[i, e])
    {
      for dv := lo to hi
        invariant OnlySlice(state, lo, hi)
        invariant forall i, e :: 0 <= i < state.Length0 && lo <= e < hi ==>
          state[i, e] == if i < d || (i == d && e < dv) then old(state[i, e]) + left[i] * row[e] else old(state[i, e])
      {
        state[d, dv] := state[d, dv] + left[d] * row[dv];
      }
    }
  }

  /** row := x * state, on the slice, one state row at a time. */
  method ReadSlice(state: array2<real>, x: Vec, row: array<real>, lo: nat, hi: nat)
    requires |x| == state.Length0 && lo <= hi <= state.Length1 == row.Length
    modifies row
    ensures forall dv :: lo <= dv < hi ==> row[dv] == Dot(x, Col(state, dv))
  {
    for dv := lo to hi
      invariant forall e :: lo <= e < dv ==> row[e] == 0.0
    {
      row[dv] := 0.0;
    }
    for d := 0 to state.Length0
      invariant forall e :: lo <= e < hi ==> row[e] == DotN(x, Col(state, e), d)
    {
      for dv := lo to hi
        invariant forall e :: lo <= e < hi ==> row[e] == DotN(x, Col(state, e), if e < dv then d + 1 else d)
      {
        row[dv] := row[dv] + x[d] * state[d, dv];
      }
    }
  }

  method LoadSlice(right: Vec, row: array<real>, lo: nat, hi: nat)
    requires lo <= hi <= row.Length == |right|
    modifies row
    ensures forall dv :: lo <= dv < hi ==> row[dv] == right[dv]
  {
    for dv := lo to hi
      invariant forall e :: lo <= e < dv ==> row[e] == right[e]
    {
      row[dv] := right[dv];
    }
  }

  /** One transition step on a slice moves each of its columns by the step's column meaning. */
  method StepSlice(step: Step, state: array2<real>, tmp: array<real>, lo: nat, hi: nat)
    requires StepFits(step, state.Length0, state.Length1) && lo <= hi <= state.Length1 == tmp.Length
    modifies state, tmp
    ensures OnlySlice(state, lo, hi)
    ensures forall dv :: lo <= dv < hi ==>
      Col(state, dv) == ColumnStep(step, old(Col(state, dv)), state.Length0, state.Length1, dv)
  {
    hide Dot;
    match step
    case Scale(factor) =>
      ScaleSlice(state, factor, lo, hi);
      forall dv | lo <= dv < hi
        ensures Col(state, dv) == ColumnStep(step, old(Col(state, dv)), state.Length0, state.Length1, dv)
      {
        StepColumn(step, old(Col(state, dv)), Col(state, dv), 0.0, state.Length1, dv);
      }
    case Rank1(left, right) =>
      ReadSlice(state, right, tmp, lo, hi);
      ghost var row := tmp[..];
      OuterSlice(state, left, tmp, lo, hi);
      forall dv | lo <= dv < hi
        ensures Col(state, dv) == ColumnStep(step, old(Col(state, dv)), state.Length0, state.Length1, dv)
      {
        StepColumn(step, old(Col(state, dv)), Col(state, dv), row[dv], state.Length1, dv);
      }
    case Outer(left, right) =>
      LoadSlice(right, tmp, lo, hi);
      OuterSlice(state, left, tmp, lo, hi);
      forall dv | lo <= dv < hi
        ensures Col(state, dv) == ColumnStep(step, old(Col(state, dv)), state.Length0, state.Length1, dv)
      {
        StepColumn(step, old(Col(state, dv)), Col(state, dv), right[dv], state.Length1, dv);
      }
  }

  /** A column updated element by element as the step says; x is what left multiplies. */
  lemma StepColumn(step: Step, before: Vec, after: Vec, x: real, width: nat, dv: nat)
    requires |after| == |before| && StepFits(step, |before|, width) && dv < width
    requires step.Scale? ==> forall d :: 0 <= d < |before| ==> after[d] == before[d] * step.factor[d]
    requires !step.Scale? ==> forall d :: 0 <= d < |before| ==> after[d] == before[d] + step.left[d] * x
    requires step.Rank1? ==> x == Dot(step.right, before)
    requires step.Outer? ==> x == step.right[dv]
    ensures after == ColumnStep(step, before, |before|, width, dv)
  {
    hide Dot;
    var expected := ColumnStep(step, before, |before|, width, dv);
    forall d | 0 <= d < |before| ensures after[d] == expected[d] {
    }
  }

  /** One token's program on a slice. */
  method TokenSlice(steps: seq<Step>, state: array2<real>, tmp: array<real>, lo: nat, hi: nat)
    requires forall i :: 0 <= i < |steps| ==> StepFits(steps[i], state.Length0, state.Length1)
    requires lo <= hi <= state.Length1 == tmp.Length
    modifies state, tmp
    ensures OnlySlice(state, lo, hi)
    ensures forall dv :: lo <= dv < hi ==>
      Col(state, dv) == ColumnSteps(steps, |steps|, old(Col(state, dv)), state.Length0, state.Length1, dv)
  {
    hide ColumnStep;
    for i := 0 to |steps|
      invariant OnlySlice(state, lo, hi)
      invariant forall dv :: lo <= dv < hi ==>
        Col(state, dv) == ColumnSteps(steps, i, old(Col(state, dv)), state.Length0, state.Length1, dv)
    {
      StepSlice(steps[i], state, tmp, lo, hi);
    }
  }

  /** The readout of one token on a slice. */
  method ReadoutSlice(query: Vec, state: array2<real>, output: array2<real>, s: nat, tmp: array<real>, lo: nat, hi: nat)
    requires |query| == state.Length0 && s < output.Length0 && output != state
    requires lo <= hi <= state.Length1 == output.Length1 == tmp.Length
    modifies output, tmp
    ensures forall i, dv :: 0 <= i < output.Length0 && 0 <= dv < output.Length1 ==>
      output[i, dv] == if i == s && lo <= dv < hi then Dot(query, Col(state, dv)) else old(output[i, dv])
  {
    ReadSlice(state, query, tmp, lo, hi);
    for dv := lo to hi
      invariant forall e :: lo <= e < hi ==> tmp[e] == Dot(query, Col(state, e))
      invariant forall i, e :: 0 <= i < output.Length0 && 0 <= e < output.Length1 ==>
        output[i, e] == if i == s && lo <= e < dv then Dot(query, Col(state, e)) else old(output[i, e])
    {
      output[s, dv] := tmp[dv];
    }
  }

  /** One work item: the whole scan of one slice of columns, touching nothing else. */
  method ScanItem(
    tokens: seq<Token>, timing: Timing, state: array2<real>, output: array2<real>, tmp: array<real>, lo: nat, hi: nat)
    requires TokensFit(tokens, state.Length0, state.Length1) && |tokens| == output.Length0 && output != state
    requires lo <= hi <= state.Length1 == output.Length1 == tmp.Length
    modifies state, output, tmp
    ensures OnlySlice(state, lo, hi) && OnlySlice(output, lo, hi)
    ensures forall dv :: lo <= dv < hi ==>
      Col(state, dv) == ColumnAfter(tokens, |tokens|, old(Col(state, dv)), state.Length0, state.Length1, dv)
    ensures forall s, dv :: 0 <= s < |tokens| && lo <= dv < hi ==>
      output[s, dv] == Dot(tokens[s].query,
        ColumnAfter(tokens, if timing.Before? then s else s + 1, old(Col(state, dv)), state.Length0, state.Length1, dv))
  {
    hide Dot, ColumnSteps;
    ghost var height, width := state.Length0, state.Length1;
    for s := 0 to |tokens|
      invariant OnlySlice(state, lo, hi) && OnlySlice(output, lo, hi)
      invariant forall dv :: lo <= dv < hi ==>
        Col(state, dv) == ColumnAfter(tokens, s, old(Col(state, dv)), height, width, dv)
      invariant forall i, dv :: 0 <= i < s && lo <= dv < hi ==>
        output[i, dv] == Dot(tokens[i].query,
          ColumnAfter(tokens, if timing.Before? then i else i + 1, old(Col(state, dv)), height, width, dv))
    {
      var token := tokens[s];
      if timing.Before? { ReadoutSlice(token.query, state, output, s, tmp, lo, hi); }
      TokenSlice(token.steps, state, tmp, lo, hi);
      if timing.After? { ReadoutSlice(token.query, state, output, s, tmp, lo, hi); }
    }
  }

  // ---- Work items ------------------------------------------------------------

  datatype Item = Item(row: nat, lo: nat, hi: nat)

  /** The (row, DV block) a work index stands for. */
  function Decode(work: nat, width: nat, tile: nat): (item: Item)
    requires tile > 0 && CeilDiv(width, tile) > 0
  {
    var blocks := CeilDiv(width, tile);
    var begin := (work % blocks) * tile;
    Item(work / blocks, begin, if begin + tile < width then begin + tile else width)
  }

  /** The one work index whose item holds this row and column. */
  function OwnerOf(row: nat, dv: nat, width: nat, tile: nat): nat
    requires tile > 0
  {
    row * CeilDiv(width, tile) + dv / tile
  }

  /** Every (row, column) belongs to its owner's item ... */
  lemma OwnerHolds(row: nat, dv: nat, rows: nat, width: nat, tile: nat)
    requires tile > 0 && row < rows && dv < width
    ensures CeilDiv(width, tile) > 0 && OwnerOf(row, dv, width, tile) < rows * CeilDiv(width, tile)
    ensures var item := Decode(OwnerOf(row, dv, width, tile), width, tile);
      item.row == row && item.lo <= dv < item.hi
  {
    var blocks, block := CeilDiv(width, tile), dv / tile;
    CeilCovers(width, tile);
    DivModSplit(dv, tile);
    if blocks <= block { MulMono(blocks, block, tile); }
    DivModUnique(row * blocks + block, blocks, row, block);
    MulMono(row + 1, rows, blocks);
    assert (row + 1) * blocks == row * blocks + blocks;
  }

  /** ... and to no other. */
  lemma OwnerUnique(work: nat, row: nat, dv: nat, width: nat, tile: nat)
    requires tile > 0 && CeilDiv(width, tile) > 0
    requires var item := Decode(work, width, tile); item.row == row && item.lo <= dv < item.hi
    ensures work == OwnerOf(row, dv, width, tile)
  {
    var blocks := CeilDiv(width, tile);
    var block := work % blocks;
    DivModUnique(dv, tile, block, dv - block * tile);
    DivModSplit(work, blocks);
  }

  /** The rows of a tensor: equal shapes, distinct storage, outputs apart from states. */
  ghost predicate Tensors(
    tokens: seq<seq<Token>>, states: seq<array2<real>>, outputs: seq<array2<real>>, height: nat, width: nat) {
    && |tokens| == |states| == |outputs|
    && (forall r :: 0 <= r < |tokens| ==>
      && states[r].Length0 == height && states[r].Length1 == outputs[r].Length1 == width
      && outputs[r].Length0 == |tokens[r]| && TokensFit(tokens[r], height, width))
    && (forall r, t :: 0 <= r < |states| && 0 <= t < |states| && r != t ==>
      states[r] != states[t] && outputs[r] != outputs[t])
    && (forall r, t :: 0 <= r < |states| && 0 <= t < |states| ==> states[r] != outputs[t])
  }

  /** The columns of row r owned by finished work hold the scan's results, the others their initial values. */
  ghost predicate RowProgress(
    tokens: seq<Token>, timing: Timing, m0: seq<Vec>, state: array2<real>, output: array2<real>, r: nat, tile: nat,
    done: set<nat>)
    requires tile > 0 && TokensFit(tokens, state.Length0, state.Length1)
    requires output.Length0 == |tokens| && output.Length1 == state.Length1 == |m0|
    requires forall dv :: 0 <= dv < |m0| ==> |m0[dv]| == state.Length0
    reads state, output
  {
    && (forall dv :: 0 <= dv < state.Length1 && OwnerOf(r, dv, state.Length1, tile) in done ==>
      Col(state, dv) == ColumnAfter(tokens, |tokens|, m0[dv], state.Length0, state.Length1, dv))
    && (forall dv :: 0 <= dv < state.Length1 && OwnerOf(r, dv, state.Length1, tile) !in done ==>
      Col(state, dv) == m0[dv])
    && (forall s, dv :: 0 <= s < |tokens| && 0 <= dv < state.Length1 && OwnerOf(r, dv, state.Length1, tile) in done ==>
      output[s, dv] == Dot(tokens[s].query,
        ColumnAfter(tokens, if timing.Before? then s else s + 1, m0[dv], state.Length0, state.Length1, dv)))
  }

  /** One item moves exactly its own columns to finished. */
  method RunItem(
    tokens: seq<Token>, timing: Timing, ghost m0: seq<Vec>, state: array2<real>, output: array2<real>,
    work: nat, tile: nat, ghost done: set<nat>)
    requires tile > 0 && CeilDiv(state.Length1, tile) > 0 && TokensFit(tokens, state.Length0, state.Length1)
    requires output.Length0 == |tokens| && output.Length1 == state.Length1 == |m0| && output != state
    requires forall dv :: 0 <= dv < |m0| ==> |m0[dv]| == state.Length0
    requires RowProgress(tokens, timing, m0, state, output, Decode(work, state.Length1, tile).row, tile, done)
    requires work !in done
    modifies state, output
    ensures RowProgress(tokens, timing, m0, state, output, Decode(work, state.Length1, tile).row, tile, done + {work})
  {
    hide Dot, ColumnAfter, Decode, OwnerOf;
    var item := Decode(work, state.Length1, tile);
    ItemInRange(work, state.Length1, tile);
    var tmp := new real[state.Length1];
    forall dv | 0 <= dv < state.Length1
      ensures OwnerOf(item.row, dv, state.Length1, tile) == work <==> item.lo <= dv < item.hi
    {
      OwnerHolds(item.row, dv, item.row + 1, state.Length1, tile);
      if item.lo <= dv < item.hi { OwnerUnique(work, item.row, dv, state.Length1, tile); }
    }
    ghost var entry, written := Columns(state), View(output);
    ScanItem(tokens, timing, state, output, tmp, item.lo, item.hi);
    forall dv | 0 <= dv < state.Length1
      ensures item.lo <= dv < item.hi || Col(state, dv) == entry[dv]
    {
    }
    forall s, dv | 0 <= s < |tokens| && 0 <= dv < state.Length1
      ensures item.lo <= dv < item.hi || output[s, dv] == written[s][dv]
    {
    }
  }

  lemma ItemInRange(work: nat, width: nat, tile: nat)
    requires tile > 0 && CeilDiv(width, tile) > 0
    ensures var item := Decode(work, width, tile); item.lo <= item.hi <= width
  {
    var blocks := CeilDiv(width, tile);
    MulMono(work % blocks + 1, blocks, tile);
    assert (work % blocks + 1) * tile == (work % blocks) * tile + tile;
    CeilCovers(width, tile);
  }

  /** The work loop over all (row, DV block) items in any schedule: every row ends as the whole-width scan. */
  method Scan2D(
    tokens: seq<seq<Token>>, timing: Timing, states: seq<array2<real>>, outputs: seq<array2<real>>,
    ghost height: nat, width: nat, tile: nat, schedule: seq<nat>)
    requires tile > 0 && Tensors(tokens, states, outputs, height, width)
    requires forall w: nat :: w in schedule <==> w < |tokens| * CeilDiv(width, tile)
    requires forall i, j :: 0 <= i < j < |schedule| ==> schedule[i] != schedule[j]
    modifies states, outputs
    ensures forall r :: 0 <= r < |tokens| ==>
      View(states[r]) == StateAfter(tokens[r], |tokens[r]|, old(View(states[r])), height, width)
    ensures forall r, s :: 0 <= r < |tokens| && 0 <= s < |tokens[r]| ==>
      Row(outputs[r], s) == OutputAt(tokens[r], s, timing, old(View(states[r])), height, width)
  {
    hide Dot, ColumnAfter, Decode, OwnerOf, StateAfter, OutputAt, RowProgress;
    ghost var n := |tokens|;
    ghost var m0 := seq(n, r requires 0 <= r < n reads states => Columns(states[r]));
    ghost var done: set<nat> := {};
    forall r | 0 <= r < n ensures RowProgress(tokens[r], timing, m0[r], states[r], outputs[r], r, tile, done) {
      NothingDone(tokens[r], timing, m0[r], states[r], outputs[r], r, tile);
    }
    for i := 0 to |schedule|
      invariant done == set x | x in schedule[..i]
      invariant forall r :: 0 <= r < n ==> RowProgress(tokens[r], timing, m0[r], states[r], outputs[r], r, tile, done)
    {
      var work := schedule[i];
      assert work in schedule;
      var item := Decode(work, width, tile);
      RowInRange(work, n, width, tile);
      RunItem(tokens[item.row], timing, m0[item.row], states[item.row], outputs[item.row], work, tile, done);
      forall r | 0 <= r < n && r != item.row
        ensures RowProgress(tokens[r], timing, m0[r], states[r], outputs[r], r, tile, done + {work})
      {
        OtherRow(tokens[r], timing, m0[r], states[r], outputs[r], r, tile, done, work, n);
      }
      assert schedule[..i + 1] == schedule[..i] + [work];
      done := done + {work};
    }
    assert schedule[..|schedule|] == schedule;
    forall r | 0 <= r < n
      ensures View(states[r]) == StateAfter(tokens[r], |tokens[r]|, old(View(states[r])), height, width)
      ensures forall s :: 0 <= s < |tokens[r]| ==>
        Row(outputs[r], s) == OutputAt(tokens[r], s, timing, old(View(states[r])), height, width)
    {
      forall dv | 0 <= dv < width ensures Column(old(View(states[r])), height, width, dv) == m0[r][dv] {
      }
      RowFinished(tokens[r], timing, old(View(states[r])), m0[r], states[r], outputs[r], r, n, tile, done);
    }
  }

  lemma NothingDone(
    tokens: seq<Token>, timing: Timing, m0: seq<Vec>, state: array2<real>, output: array2<real>, r: nat, tile: nat)
    requires tile > 0 && TokensFit(tokens, state.Length0, state.Length1)
    requires output.Length0 == |tokens| && output.Length1 == state.Length1 && m0 == Columns(state)
    ensures RowProgress(tokens, timing, m0, state, output, r, tile, {})
  {
  }

  lemma RowInRange(work: nat, rows: nat, width: nat, tile: nat)
    requires tile > 0 && work < rows * CeilDiv(width, tile)
    ensures CeilDiv(width, tile) > 0 && Decode(work, width, tile).row < rows
  {
    var blocks := CeilDiv(width, tile);
    assert blocks > 0;
    DivModSplit(work, blocks);
    if rows <= work / blocks { MulMono(rows, work / blocks, blocks); }
  }

  /** An item of another row leaves this one where it was. */
  lemma OtherRow(
    tokens: seq<Token>, timing: Timing, m0: seq<Vec>, state: array2<real>, output: array2<real>, r: nat, tile: nat,
    done: set<nat>, work: nat, rows: nat)
    requires tile > 0 && TokensFit(tokens, state.Length0, state.Length1) && r < rows
    requires output.Length0 == |tokens| && output.Length1 == state.Length1 == |m0|
    requires forall dv :: 0 <= dv < |m0| ==> |m0[dv]| == state.Length0
    requires RowProgress(tokens, timing, m0, state, output, r, tile, done)
    requires CeilDiv(state.Length1, tile) > 0 && Decode(work, state.Length1, tile).row != r
    ensures RowProgress(tokens, timing, m0, state, output, r, tile, done + {work})
  {
    hide Dot, ColumnAfter, Decode, OwnerOf;
    forall dv | 0 <= dv < state.Length1 ensures OwnerOf(r, dv, state.Length1, tile) != work {
      OwnerHolds(r, dv, rows, state.Length1, tile);
    }
  }

  /** A row whose every column's owner has run holds the whole-width scan. */
  lemma RowFinished(
    tokens: seq<Token>, timing: Timing, before: Matrix, m0: seq<Vec>, state: array2<real>, output: array2<real>,
    r: nat, rows: nat, tile: nat, done: set<nat>)
    requires tile > 0 && TokensFit(tokens, state.Length0, state.Length1) && r < rows
    requires output.Length0 == |tokens| && output.Length1 == state.Length1 == |m0|
    requires IsMatrix(before, state.Length0, state.Length1)
    requires forall dv :: 0 <= dv < |m0| ==>
      |m0[dv]| == state.Length0 && m0[dv] == Column(before, state.Length0, state.Length1, dv)
    requires RowProgress(tokens, timing, m0, state, output, r, tile, done)
    requires forall w: nat :: w < rows * CeilDiv(state.Length1, tile) ==> w in done
    ensures View(state) == StateAfter(tokens, |tokens|, before, state.Length0, state.Length1)
    ensures forall s :: 0 <= s < |tokens| ==>
      Row(output, s) == OutputAt(tokens, s, timing, before, state.Length0, state.Length1)
  {
    hide Dot, ColumnAfter, Decode, OwnerOf, StateAfter, OutputAt;
    ghost var height, width := state.Length0, state.Length1;
    forall dv | 0 <= dv < width
      ensures OwnerOf(r, dv, width, tile) in done && Column(View(state), height, width, dv) == Col(state, dv)
    {
      OwnerHolds(r, dv, rows, width, tile);
      ViewColumn(state, dv);
    }
    ScanFromColumns(tokens, timing, before, View(state), View(output), |tokens|, height, width);
  }
}
