/** The scan's fused tail: the last outer update and the readout in one pass over the state, over any arithmetic.
    Elements are uninterpreted, so equality here is equality bit for bit. */
module FusedReadout {
  import opened Arrays
  import opened Integers

  /** The machine's operations: a fused multiply-add in vector code, a multiply and an add in scalar tails. */
  datatype Arithmetic<!T> = Arithmetic(zero: T, fma: (T, T, T) -> T, mulAdd: (T, T, T) -> T)

  /** The readout of one column, component by component. */
  function Accumulate<T>(ar: Arithmetic<T>, query: seq<T>, column: seq<T>, n: nat): T
    requires n <= |query| && n <= |column|
  {
    if n == 0 then ar.zero else ar.fma(query[n - 1], column[n - 1], Accumulate(ar, query, column, n - 1))
  }

  function Updated<T>(ar: Arithmetic<T>, left: seq<T>, x: T, column: seq<T>): (c: seq<T>)
    requires |left| == |column|
    ensures |c| == |column|
  {
    seq(|column|, d requires 0 <= d < |column| => ar.fma(left[d], x, column[d]))
  }

  lemma AccumulateSame<T>(ar: Arithmetic<T>, query: seq<T>, a: seq<T>, b: seq<T>, n: nat)
    requires n <= |query| && n <= |a| && n <= |b| && forall i :: 0 <= i < n ==> a[i] == b[i]
    ensures Accumulate(ar, query, a, n) == Accumulate(ar, query, b, n)
  {
  }

  /** One vector of columns through the fused pass: each state row is updated and read at once. */
  method FusedVector<T>(
    ar: Arithmetic<T>, left: seq<T>, query: seq<T>, row: seq<T>, state: array2<T>, output: array<T>, from: nat,
    width: nat)
    requires |left| == |query| == state.Length0 && |row| == state.Length1 == output.Length
    requires from + width <= state.Length1
    modifies state, output
    ensures forall dv :: 0 <= dv < state.Length1 ==>
      Col(state, dv) == if from <= dv < from + width then Updated(ar, left, row[dv], old(Col(state, dv)))
        else old(Col(state, dv))
    ensures forall dv :: 0 <= dv < state.Length1 ==>
      output[dv] == if from <= dv < from + width then Accumulate(ar, query, Col(state, dv), state.Length0)
        else old(output[dv])
  {
    for lane := 0 to width
      invariant forall d, dv :: 0 <= d < state.Length0 && 0 <= dv < state.Length1 ==>
        state[d, dv] == if from <= dv < from + lane then ar.fma(left[d], row[dv], old(state[d, dv]))
          else old(state[d, dv])
      invariant forall dv :: 0 <= dv < state.Length1 ==>
        output[dv] == if from <= dv < from + lane then Accumulate(ar, query, Col(state, dv), state.Length0)
          else old(output[dv])
    {
      FusedColumn(ar, left, query, row[from + lane], state, output, from + lane);
    }
  }

  /** One lane of the fused pass. */
  method FusedColumn<T>(
    ar: Arithmetic<T>, left: seq<T>, query: seq<T>, x: T, state: array2<T>, output: array<T>, dv: nat)
    requires |left| == |query| == state.Length0 && state.Length1 == output.Length && dv < state.Length1
    modifies state, output
    ensures forall d, e :: 0 <= d < state.Length0 && 0 <= e < state.Length1 ==>
      state[d, e] == if e == dv then ar.fma(left[d], x, old(state[d, e])) else old(state[d, e])
    ensures forall e :: 0 <= e < state.Length1 && e != dv ==> Col(state, e) == old(Col(state, e))
    ensures output[dv] == Accumulate(ar, query, Col(state, dv), state.Length0)
    ensures forall e :: 0 <= e < output.Length && e != dv ==> output[e] == old(output[e])
  {
    var acc := ar.zero;
    for d := 0 to state.Length0
      invariant forall i, e :: 0 <= i < state.Length0 && 0 <= e < state.Length1 ==>
        state[i, e] == if e == dv && i < d then ar.fma(left[i], x, old(state[i, e])) else old(state[i, e])
      invariant acc == Accumulate(ar, query, Col(state, dv), d)
      invariant forall e :: 0 <= e < output.Length ==> output[e] == old(output[e])
    {
      ghost var before := Col(state, dv);
      var updated := ar.fma(left[d], x, state[d, dv]);
      state[d, dv] := updated;
      acc := ar.fma(query[d], updated, acc);
      AccumulateSame(ar, query, before, Col(state, dv), d);
    }
    output[dv] := acc;
  }

  // ---- What the passes leave ---------------------------------------------------------

  /** The state, column by column, and the output row. */
  datatype Result<T> = Result(columns: seq<seq<T>>, outputs: seq<T>)

  ghost predicate Shaped<T>(left: seq<T>, query: seq<T>, row: seq<T>, columns: seq<seq<T>>, height: nat, width: nat) {
    && |left| == |query| == height && |row| == |columns| == width
    && forall dv :: 0 <= dv < width ==> |columns[dv]| == height
  }

  ghost function Readouts<T>(ar: Arithmetic<T>, query: seq<T>, columns: seq<seq<T>>): (outputs: seq<T>)
    requires forall dv :: 0 <= dv < |columns| ==> |columns[dv]| == |query|
    ensures |outputs| == |columns|
  {
    seq(|columns|, dv requires 0 <= dv < |columns| => Accumulate(ar, query, columns[dv], |query|))
  }

  ghost function FusedResult<T>(
    ar: Arithmetic<T>, left: seq<T>, query: seq<T>, row: seq<T>, columns: seq<seq<T>>): Result<T>
    requires Shaped(left, query, row, columns, |left|, |row|)
  {
    var updated := seq(|row|, dv requires 0 <= dv < |row| => Updated(ar, left, row[dv], columns[dv]));
    Result(updated, Readouts(ar, query, updated))
  }

  ghost function SeparateResult<T>(
    ar: Arithmetic<T>, lanes: nat, left: seq<T>, query: seq<T>, row: seq<T>, columns: seq<seq<T>>): Result<T>
    requires lanes > 0 && Shaped(left, query, row, columns, |left|, |row|)
  {
    var updated := seq(|row|,
      dv requires 0 <= dv < |row| => Separate(ar, lanes, |row|, dv, left, row[dv], columns[dv]));
    Result(updated, Readouts(ar, query, updated))
  }

  /** The fused pass over the whole width. */
  method FusedOuterReadout<T>(
    ar: Arithmetic<T>, left: seq<T>, query: seq<T>, row: seq<T>, state: array2<T>, output: array<T>, lanes: nat)
    requires |left| == |query| == state.Length0 && |row| == state.Length1 == output.Length && lanes > 0
    modifies state, output
    ensures Result(Columns(state), output[..]) == FusedResult(ar, left, query, row, old(Columns(state)))
  {
    ghost var expected := FusedResult(ar, left, query, row, Columns(state));
    var dv := 0;
    while dv < state.Length1
      invariant 0 <= dv <= state.Length1
      invariant forall e :: 0 <= e < state.Length1 ==>
        Col(state, e) == if e < dv then Updated(ar, left, row[e], old(Col(state, e))) else old(Col(state, e))
      invariant forall e :: 0 <= e < dv ==> output[e] == Accumulate(ar, query, Col(state, e), state.Length0)
    {
      var width := if state.Length1 - dv < lanes then state.Length1 - dv else lanes;
      FusedVector(ar, left, query, row, state, output, dv, width);
      dv := dv + width;
    }
    assert Columns(state) == expected.columns;
    assert output[..] == expected.outputs;
  }

  // ---- The separate passes -----------------------------------------------------------

  /** What an in-place scaled addition does to element i of n: vectors first, then a scalar tail. */
  function AxpyElement<T>(ar: Arithmetic<T>, lanes: nat, n: nat, i: nat, scale: T, source: T, target: T): T
    requires lanes > 0
  {
    if i < n - n % lanes then ar.fma(scale, source, target) else ar.mulAdd(scale, source, target)
  }

  method AxpyRow<T>(ar: Arithmetic<T>, state: array2<T>, d: nat, row: seq<T>, scale: T, lanes: nat)
    requires d < state.Length0 && |row| == state.Length1 && lanes > 0
    modifies state
    ensures forall i, dv :: 0 <= i < state.Length0 && 0 <= dv < state.Length1 ==>
      state[i, dv] == if i == d then AxpyElement(ar, lanes, |row|, dv, scale, row[dv], old(state[d, dv]))
        else old(state[i, dv])
  {
    var i := 0;
    while i + lanes <= |row|
      invariant 0 <= i <= |row| && i % lanes == 0
      invariant forall r, dv :: 0 <= r < state.Length0 && 0 <= dv < state.Length1 ==>
        state[r, dv] == if r == d && dv < i then ar.fma(scale, row[dv], old(state[d, dv])) else old(state[r, dv])
    {
      for lane := 0 to lanes
        invariant forall r, dv :: 0 <= r < state.Length0 && 0 <= dv < state.Length1 ==>
          state[r, dv] == if r == d && dv < i + lane then ar.fma(scale, row[dv], old(state[d, dv]))
            else old(state[r, dv])
      {
        state[d, i + lane] := ar.fma(scale, row[i + lane], state[d, i + lane]);
      }
      NextVector(i, lanes);
      i := i + lanes;
    }
    TailBegins(i, |row|, lanes);
    ghost var tail := i;
    while i < |row|
      invariant tail <= i <= |row|
      invariant forall r, dv :: 0 <= r < state.Length0 && 0 <= dv < state.Length1 ==>
        state[r, dv] == if r == d && dv < i then AxpyElement(ar, lanes, |row|, dv, scale, row[dv], old(state[d, dv]))
          else old(state[r, dv])
    {
      state[d, i] := ar.mulAdd(scale, row[i], state[d, i]);
      i := i + 1;
    }
  }

  lemma NextVector(i: nat, lanes: nat)
    requires lanes > 0 && i % lanes == 0
    ensures (i + lanes) % lanes == 0
  {
    DivModSplit(i, lanes);
    DivModUnique(i + lanes, lanes, i / lanes + 1, 0);
  }

  lemma TailBegins(i: nat, n: nat, lanes: nat)
    requires lanes > 0 && i % lanes == 0 && i <= n < i + lanes
    ensures i == n - n % lanes
  {
    DivModSplit(i, lanes);
    DivModUnique(n, lanes, i / lanes, n - i);
  }

  /** The separate update. */
  method OuterPass<T>(ar: Arithmetic<T>, left: seq<T>, row: seq<T>, state: array2<T>, lanes: nat)
    requires |left| == state.Length0 && |row| == state.Length1 && lanes > 0
    modifies state
    ensures forall d, dv :: 0 <= d < state.Length0 && 0 <= dv < state.Length1 ==>
      state[d, dv] == AxpyElement(ar, lanes, state.Length1, dv, left[d], row[dv], old(state[d, dv]))
  {
    for d := 0 to state.Length0
      invariant forall i, dv :: 0 <= i < state.Length0 && 0 <= dv < state.Length1 ==>
        state[i, dv] == if i < d then AxpyElement(ar, lanes, state.Length1, dv, left[i], row[dv], old(state[i, dv]))
          else old(state[i, dv])
    {
      AxpyRow(ar, state, d, row, left[d], lanes);
    }
  }

  /** The separate readout, a column accumulator per lane. */
  method Matvec<T>(ar: Arithmetic<T>, query: seq<T>, state: array2<T>, output: array<T>)
    requires |query| == state.Length0 && state.Length1 == output.Length
    modifies output
    ensures forall dv :: 0 <= dv < state.Length1 ==> output[dv] == Accumulate(ar, query, Col(state, dv), state.Length0)
  {
    for dv := 0 to state.Length1
      invariant forall e :: 0 <= e < dv ==> output[e] == Accumulate(ar, query, Col(state, e), state.Length0)
    {
      var acc := ar.zero;
      for d := 0 to state.Length0
        invariant acc == Accumulate(ar, query, Col(state, dv), d)
      {
        acc := ar.fma(query[d], state[d, dv], acc);
      }
      output[dv] := acc;
    }
  }

  /** The column the separate update leaves. */
  function Separate<T>(
    ar: Arithmetic<T>, lanes: nat, width: nat, dv: nat, left: seq<T>, x: T, column: seq<T>): (c: seq<T>)
    requires lanes > 0 && |left| == |column|
    ensures |c| == |column|
  {
    seq(|column|, d requires 0 <= d < |column| => AxpyElement(ar, lanes, width, dv, left[d], x, column[d]))
  }

  /** The unfused tail of a scan token: the update, then the readout. */
  method SeparatePasses<T>(
    ar: Arithmetic<T>, left: seq<T>, query: seq<T>, row: seq<T>, state: array2<T>, output: array<T>, lanes: nat)
    requires |left| == |query| == state.Length0 && |row| == state.Length1 == output.Length && lanes > 0
    modifies state, output
    ensures Result(Columns(state), output[..]) == SeparateResult(ar, lanes, left, query, row, old(Columns(state)))
  {
    ghost var expected := SeparateResult(ar, lanes, left, query, row, Columns(state));
    OuterPass(ar, left, row, state, lanes);
    forall dv | 0 <= dv < state.Length1 ensures Col(state, dv) == expected.columns[dv] {
    }
    assert Columns(state) == expected.columns;
    Matvec(ar, query, state, output);
    assert output[..] == expected.outputs;
  }

  /** Both ways leave the same state and output for all inputs of a size. */
  ghost predicate BitExact<T(!new)>(ar: Arithmetic<T>, lanes: nat, height: nat, width: nat)
    requires lanes > 0
  {
    forall left: seq<T>, query: seq<T>, row: seq<T>, columns: seq<seq<T>> ::
      Shaped(left, query, row, columns, height, width) ==>
        SeparateResult(ar, lanes, left, query, row, columns) == FusedResult(ar, left, query, row, columns)
  }

  /** Fusing keeps every bit exactly when the width is whole vectors, or the machine's two ways of multiplying
      and adding never differ: the separate update rounds its scalar tail twice, the fused pass once. */
  lemma FusionExact<T(!new)>(ar: Arithmetic<T>, lanes: nat, height: nat, width: nat)
    requires lanes > 0
    ensures BitExact(ar, lanes, height, width)
      <==> (height == 0 || width % lanes == 0 || forall a, b, c :: ar.fma(a, b, c) == ar.mulAdd(a, b, c))
  {
    if BitExact(ar, lanes, height, width) && height > 0 && width % lanes != 0 {
      forall a, b, c ensures ar.fma(a, b, c) == ar.mulAdd(a, b, c) {
        TailShows(ar, lanes, height, width, a, b, c);
      }
    } else if height == 0 || width % lanes == 0 || forall a, b, c :: ar.fma(a, b, c) == ar.mulAdd(a, b, c) {
      forall left: seq<T>, query: seq<T>, row: seq<T>, columns: seq<seq<T>> |
        Shaped(left, query, row, columns, height, width)
        ensures SeparateResult(ar, lanes, left, query, row, columns) == FusedResult(ar, left, query, row, columns)
      {
        SameWays(ar, lanes, left, query, row, columns);
      }
    }
  }

  lemma SameWays<T(!new)>(ar: Arithmetic<T>, lanes: nat, left: seq<T>, query: seq<T>, row: seq<T>, columns: seq<seq<T>>)
    requires lanes > 0 && Shaped(left, query, row, columns, |left|, |row|)
    requires left == [] || |row| % lanes == 0 || forall a, b, c :: ar.fma(a, b, c) == ar.mulAdd(a, b, c)
    ensures SeparateResult(ar, lanes, left, query, row, columns) == FusedResult(ar, left, query, row, columns)
  {
    var separate, fused := SeparateResult(ar, lanes, left, query, row, columns),
      FusedResult(ar, left, query, row, columns);
    forall dv | 0 <= dv < |row| ensures separate.columns[dv] == fused.columns[dv] {
    }
    assert separate.columns == fused.columns;
  }

  /** With a tail, any difference between the two operations shows in the state. */
  lemma TailShows<T(!new)>(ar: Arithmetic<T>, lanes: nat, height: nat, width: nat, a: T, b: T, c: T)
    requires lanes > 0 && height > 0 && width % lanes != 0 && BitExact(ar, lanes, height, width)
    ensures ar.fma(a, b, c) == ar.mulAdd(a, b, c)
  {
    var left, row, columns := seq(height, d => a), seq(width, dv => b), seq(width, dv => seq(height, d => c));
    assert Shaped(left, left, row, columns, height, width);
    var separate, fused := SeparateResult(ar, lanes, left, left, row, columns),
      FusedResult(ar, left, left, row, columns);
    assert separate == fused;
    assert separate.columns[width - 1][0] == ar.mulAdd(a, b, c);
    assert fused.columns[width - 1][0] == ar.fma(a, b, c);
  }

  // ---- A losing call -----------------------------------------------------------------

  /** The spacing of single-precision numbers between one and two, as its inverse, 2^23. */
  const STEPS: real := 8388608.0

  /** The nearest integer, the even one of two. */
  function NearestEven(y: real): int {
    var below := y.Floor;
    var rest := y - below as real;
    if rest < 0.5 || (rest == 0.5 && below % 2 == 0) then below else below + 1
  }

  /** Single-precision rounding between one and two, the only range the losing call rounds in. */
  function Rounded(x: real): real {
    if 1.0 <= x < 2.0 then NearestEven(x * STEPS) as real / STEPS else x
  }

  /** A fused multiply-add rounds once, a multiplication and an addition twice. */
  function OneBinade(): Arithmetic<real> {
    Arithmetic(
      0.0,
      (a: real, b: real, c: real) => Rounded(a * b + c),
      (a: real, b: real, c: real) => Rounded(Rounded(a * b) + c))
  }

  const FACTOR: real := 1.0 + 1.0 / 4096.0
  const STATE: real := 1.0 / 16777216.0
  const FUSED: real := 1.0 + 1.0 / 2048.0 + 1.0 / 8388608.0
  const SEPARATE: real := 1.0 + 1.0 / 2048.0

  lemma Nearest(x: real, n: int)
    requires 1.0 <= x < 2.0
    requires var rest := x * STEPS - n as real; -0.5 < rest < 0.5 || (rest == 0.5 && n % 2 == 0)
    ensures Rounded(x) == n as real / STEPS
  {
    var y := x * STEPS;
    if y >= n as real {
      assert y.Floor == n;
    } else {
      assert y.Floor == n - 1;
    }
  }

  /** The product is a tie that rounds down, and adding half a step to it is a tie again; adding them first is exact. */
  lemma RoundingsDiffer()
    ensures OneBinade().fma(FACTOR, FACTOR, STATE) == FUSED
    ensures OneBinade().mulAdd(FACTOR, FACTOR, STATE) == SEPARATE
    ensures OneBinade().fma(1.0, FUSED, 0.0) == FUSED && OneBinade().fma(1.0, SEPARATE, 0.0) == SEPARATE
  {
    assert FACTOR * FACTOR == 1.0 + 1.0 / 2048.0 + 1.0 / 16777216.0;
    Nearest(FACTOR * FACTOR + STATE, 8392705);
    Nearest(FACTOR * FACTOR, 8392704);
    Nearest(SEPARATE + STATE, 8392704);
    Nearest(FUSED, 8392705);
    Nearest(SEPARATE, 8392704);
  }

  /** Five columns on four lanes, with factors 1 + 2^-12 on a state of 2^-24: state and output both differ in the last
      column, by one step of single precision. */
  lemma FusionLosesBits()
    ensures !BitExact(OneBinade(), 4, 1, 5)
    ensures var row, columns := seq(5, dv => FACTOR), seq(5, dv => [STATE]);
      var separate := SeparateResult(OneBinade(), 4, [FACTOR], [1.0], row, columns);
      var fused := FusedResult(OneBinade(), [FACTOR], [1.0], row, columns);
      && separate.columns[4] == [SEPARATE] && fused.columns[4] == [FUSED]
      && separate.outputs[4] == SEPARATE && fused.outputs[4] == FUSED
  {
    hide Rounded;
    var ar, row, columns := OneBinade(), seq(5, dv => FACTOR), seq(5, dv => [STATE]);
    assert Shaped([FACTOR], [1.0], row, columns, 1, 5);
    RoundingsDiffer();
    var separate, fused := SeparateResult(ar, 4, [FACTOR], [1.0], row, columns),
      FusedResult(ar, [FACTOR], [1.0], row, columns);
    assert separate.columns[4] == [ar.mulAdd(FACTOR, FACTOR, STATE)];
    assert fused.columns[4] == [ar.fma(FACTOR, FACTOR, STATE)];
    OneReadout(ar, SEPARATE, 1.0);
    OneReadout(ar, FUSED, 1.0);
  }

  lemma OneReadout<T>(ar: Arithmetic<T>, x: T, one: T)
    ensures Accumulate(ar, [one], [x], 1) == ar.fma(one, x, ar.zero)
  {
  }
}
