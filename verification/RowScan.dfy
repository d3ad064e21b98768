/** The plain scan kernel: whole state rows, the last outer update fused with the readout that follows it. */
module RowScan {
  import opened Arrays
  import opened Vectors
  import opened ScanReference
  import opened LinearBlocks
  import opened ScanKernel
  import opened FusedReadout

  /** Without rounding both ways of multiplying and adding are the same. */
  function Exact(): Arithmetic<real> {
    Arithmetic(0.0, (a: real, b: real, c: real) => a * b + c, (a: real, b: real, c: real) => a * b + c)
  }

  lemma {:induction false} AccumulateIsDot(query: Vec, column: Vec, n: nat)
    requires n <= |query| && n <= |column|
    ensures Accumulate(Exact(), query, column, n) == DotN(query, column, n)
  {
    if n > 0 { AccumulateIsDot(query, column, n - 1); }
  }

  lemma UpdatedIsStep(left: Vec, right: Vec, column: Vec, dv: nat)
    requires |left| == |column| && dv < |right|
    ensures Updated(Exact(), left, right[dv], column)
         == ColumnStep(Outer(left, right), column, |column|, |right|, dv)
  {
    var updated := Updated(Exact(), left, right[dv], column);
    assert forall d :: 0 <= d < |column| ==> updated[d] == left[d] * right[dv] + column[d];
    StepColumn(Outer(left, right), column, updated, right[dv], |right|, dv);
  }

  /** The fused pass is the outer step, and reads the state it leaves. */
  method FusedTail(
    left: Vec, right: Vec, query: Vec, state: array2<real>, output: array2<real>, s: nat, tmp: array<real>, lanes: nat)
    requires |left| == |query| == state.Length0 && |right| == state.Length1 == output.Length1 == tmp.Length
    requires s < output.Length0 && output != state && lanes > 0
    modifies state, output, tmp
    ensures forall dv :: 0 <= dv < state.Length1 ==>
      Col(state, dv) == ColumnStep(Outer(left, right), old(Col(state, dv)), state.Length0, state.Length1, dv)
    ensures forall i, dv :: 0 <= i < output.Length0 && 0 <= dv < output.Length1 ==>
      output[i, dv] == if i == s then Dot(query, Col(state, dv)) else old(output[i, dv])
  {
    hide Accumulate, DotN;
    ghost var before := Columns(state);
    FusedOuterReadout(Exact(), left, query, right, state, tmp, lanes);
    ghost var columns, outputs := Columns(state), tmp[..];
    forall dv: nat | dv < state.Length1
      ensures Col(state, dv) == ColumnStep(Outer(left, right), before[dv], state.Length0, state.Length1, dv)
      ensures tmp[dv] == Dot(query, Col(state, dv))
    {
      assert columns[dv] == Updated(Exact(), left, right[dv], before[dv]);
      assert outputs[dv] == Accumulate(Exact(), query, columns[dv], |query|);
      UpdatedIsStep(left, right, before[dv], dv);
      AccumulateIsDot(query, columns[dv], |query|);
    }
    CopyToRow(tmp, output, s);
  }

  method CopyToRow(tmp: array<real>, output: array2<real>, s: nat)
    requires s < output.Length0 && output.Length1 == tmp.Length
    modifies output
    ensures forall i, dv :: 0 <= i < output.Length0 && 0 <= dv < output.Length1 ==>
      output[i, dv] == if i == s then tmp[dv] else old(output[i, dv])
  {
    for dv := 0 to tmp.Length
      invariant forall i, e :: 0 <= i < output.Length0 && 0 <= e < output.Length1 ==>
        output[i, e] == if i == s && e < dv then tmp[e] else old(output[i, e])
    {
      output[s, dv] := tmp[dv];
    }
  }

  /** All steps but the last, then the last. */
  lemma LastStep(steps: seq<Step>, c: Vec, height: nat, width: nat, dv: nat)
    requires steps != [] && |c| == height && dv < width
    requires forall i :: 0 <= i < |steps| ==> StepFits(steps[i], height, width)
    ensures var init := steps[..|steps| - 1];
      ColumnSteps(steps, |steps|, c, height, width, dv)
      == ColumnStep(steps[|steps| - 1], ColumnSteps(init, |init|, c, height, width, dv), height, width, dv)
  {
    SamePrefix(steps, steps[..|steps| - 1], |steps| - 1, c, height, width, dv);
  }

  lemma {:induction false} SamePrefix(
    steps: seq<Step>, others: seq<Step>, n: nat, c: Vec, height: nat, width: nat, dv: nat)
    requires n <= |steps| && n <= |others| && |c| == height && dv < width
    requires forall i :: 0 <= i < n ==> steps[i] == others[i] && StepFits(steps[i], height, width)
    ensures ColumnSteps(steps, n, c, height, width, dv) == ColumnSteps(others, n, c, height, width, dv)
  {
    if n > 0 { SamePrefix(steps, others, n - 1, c, height, width, dv); }
  }

  /** One token: a readout before the steps, one fused with the last step, or one after them. */
  method TokenRow(
    token: Token, timing: Timing, state: array2<real>, output: array2<real>, s: nat, tmp: array<real>, lanes: nat)
    requires TokenFits(token, state.Length0, state.Length1) && s < output.Length0 && output != state && lanes > 0
    requires state.Length1 == output.Length1 == tmp.Length
    modifies state, output, tmp
    ensures forall dv :: 0 <= dv < state.Length1 ==>
      Col(state, dv)
      == ColumnSteps(token.steps, |token.steps|, old(Col(state, dv)), state.Length0, state.Length1, dv)
    ensures forall i, dv :: 0 <= i < output.Length0 && 0 <= dv < output.Length1 ==>
      output[i, dv] ==
        if i == s then Dot(token.query, if timing.Before? then old(Col(state, dv)) else Col(state, dv))
        else old(output[i, dv])
  {
    hide Dot, ColumnSteps, ColumnStep;
    var steps, width, n := token.steps, state.Length1, |token.steps|;
    ghost var before := Columns(state);
    if timing.Before? {
      ReadoutSlice(token.query, state, output, s, tmp, 0, width);
      TokenSlice(steps, state, tmp, 0, width);
    } else if n > 0 && steps[n - 1].Outer? {
      TokenSlice(steps[..n - 1], state, tmp, 0, width);
      FusedTail(steps[n - 1].left, steps[n - 1].right, token.query, state, output, s, tmp, lanes);
      forall dv: nat | dv < width
        ensures Col(state, dv) == ColumnSteps(steps, n, before[dv], state.Length0, width, dv)
      {
        LastStep(steps, before[dv], state.Length0, width, dv);
      }
    } else {
      TokenSlice(steps, state, tmp, 0, width);
      ReadoutSlice(token.query, state, output, s, tmp, 0, width);
    }
  }

  /** A whole state row through all tokens is the ordered scan. */
  method ScanRow(tokens: seq<Token>, timing: Timing, state: array2<real>, output: array2<real>, lanes: nat)
    requires TokensFit(tokens, state.Length0, state.Length1) && |tokens| == output.Length0 && output != state
    requires state.Length1 == output.Length1 && lanes > 0
    modifies state, output
    ensures View(state) == StateAfter(tokens, |tokens|, old(View(state)), state.Length0, state.Length1)
    ensures forall s :: 0 <= s < |tokens| ==>
      Row(output, s) == OutputAt(tokens, s, timing, old(View(state)), state.Length0, state.Length1)
  {
    hide Dot, ColumnSteps, StateAfter, OutputAt;
    ghost var height, width, m0, entry := state.Length0, state.Length1, View(state), Columns(state);
    var tmp := new real[state.Length1];
    for s := 0 to |tokens|
      invariant forall dv :: 0 <= dv < width ==> Col(state, dv) == ColumnAfter(tokens, s, entry[dv], height, width, dv)
      invariant forall i, dv :: 0 <= i < s && 0 <= dv < width ==>
        output[i, dv] == Dot(tokens[i].query,
          ColumnAfter(tokens, if timing.Before? then i else i + 1, entry[dv], height, width, dv))
    {
      TokenRow(tokens[s], timing, state, output, s, tmp, lanes);
    }
    forall dv | 0 <= dv < width
      ensures Column(m0, height, width, dv) == entry[dv] && Column(View(state), height, width, dv) == Col(state, dv)
    {
      ViewColumn(state, dv);
    }
    ScanFromColumns(tokens, timing, m0, View(state), View(output), |tokens|, height, width);
  }
}
