/** The ordered scan: the row-by-row meaning of a Linear operator. */
module ScanReference {
  import opened Vectors

  /** D rows of width DV. */
  type Matrix = seq<seq<real>>

  ghost predicate IsMatrix(m: Matrix, height: nat, width: nat) {
    |m| == height && forall d :: 0 <= d < height ==> |m[d]| == width
  }

  /** One transition step with its expressions already evaluated for a token. */
  datatype Step =
    | Scale(factor: Vec)
    | Rank1(left: Vec, right: Vec)
    | Outer(left: Vec, right: Vec)

  datatype Timing = Before | After

  datatype Token = Token(steps: seq<Step>, query: Vec)

  ghost predicate StepFits(step: Step, height: nat, width: nat) {
    match step
    case Scale(factor) => |factor| == height
    case Rank1(left, right) => |left| == height && |right| == height
    case Outer(left, right) => |left| == height && |right| == width
  }

  ghost predicate TokenFits(token: Token, height: nat, width: nat) {
    |token.query| == height
    && forall i :: 0 <= i < |token.steps| ==> StepFits(token.steps[i], height, width)
  }

  ghost predicate TokensFit(tokens: seq<Token>, height: nat, width: nat) {
    forall t :: 0 <= t < |tokens| ==> TokenFits(tokens[t], height, width)
  }

  ghost function Column(m: Matrix, height: nat, width: nat, dv: nat): (c: Vec)
    requires IsMatrix(m, height, width) && dv < width
    ensures |c| == height
  {
    seq(height, d requires 0 <= d < height => m[d][dv])
  }

  /** The row vector x * m. */
  ghost function VecMat(x: Vec, m: Matrix, height: nat, width: nat): (r: Vec)
    requires IsMatrix(m, height, width) && |x| == height
    ensures |r| == width
  {
    seq(width, dv requires 0 <= dv < width => Dot(x, Column(m, height, width, dv)))
  }

  ghost function ApplyStep(step: Step, m: Matrix, height: nat, width: nat): (r: Matrix)
    requires IsMatrix(m, height, width) && StepFits(step, height, width)
    ensures IsMatrix(r, height, width)
  {
    match step
    case Scale(factor) =>
      seq(height, d requires 0 <= d < height =>
        seq(width, dv requires 0 <= dv < width => m[d][dv] * factor[d]))
    case Rank1(left, right) =>
      var projected := VecMat(right, m, height, width);
      seq(height, d requires 0 <= d < height =>
        seq(width, dv requires 0 <= dv < width => m[d][dv] + left[d] * projected[dv]))
    case Outer(left, right) =>
      seq(height, d requires 0 <= d < height =>
        seq(width, dv requires 0 <= dv < width => m[d][dv] + left[d] * right[dv]))
  }

  /** The first n steps, in program order. */
  ghost function ApplySteps(steps: seq<Step>, n: nat, m: Matrix, height: nat, width: nat): (r: Matrix)
    requires IsMatrix(m, height, width) && n <= |steps|
    requires forall i :: 0 <= i < n ==> StepFits(steps[i], height, width)
    ensures IsMatrix(r, height, width)
  {
    if n == 0 then m
    else ApplyStep(steps[n - 1], ApplySteps(steps, n - 1, m, height, width), height, width)
  }

  /** The state after the first t tokens. */
  ghost function StateAfter(tokens: seq<Token>, t: nat, m: Matrix, height: nat, width: nat): (r: Matrix)
    requires IsMatrix(m, height, width) && t <= |tokens| && TokensFit(tokens, height, width)
    ensures IsMatrix(r, height, width)
  {
    if t == 0 then m
    else
      var token := tokens[t - 1];
      ApplySteps(token.steps, |token.steps|, StateAfter(tokens, t - 1, m, height, width), height, width)
  }

  /** What token t reads: the state before or after its own transition. */
  ghost function OutputAt(tokens: seq<Token>, t: nat, timing: Timing, m: Matrix, height: nat, width: nat): (r: Vec)
    requires IsMatrix(m, height, width) && t < |tokens| && TokensFit(tokens, height, width)
    ensures |r| == width
  {
    var seen := if timing.Before? then t else t + 1;
    VecMat(tokens[t].query, StateAfter(tokens, seen, m, height, width), height, width)
  }

  // ---- One column at a time -------------------------------------------------

  ghost function ColumnStep(step: Step, c: Vec, height: nat, width: nat, dv: nat): (r: Vec)
    requires StepFits(step, height, width) && |c| == height && dv < width
    ensures |r| == height
  {
    match step
    case Scale(factor) => seq(height, d requires 0 <= d < height => c[d] * factor[d])
    case Rank1(left, right) =>
      var projected := Dot(right, c);
      seq(height, d requires 0 <= d < height => c[d] + left[d] * projected)
    case Outer(left, right) => seq(height, d requires 0 <= d < height => c[d] + left[d] * right[dv])
  }

  ghost function ColumnSteps(steps: seq<Step>, n: nat, c: Vec, height: nat, width: nat, dv: nat): (r: Vec)
    requires |c| == height && n <= |steps| && dv < width
    requires forall i :: 0 <= i < n ==> StepFits(steps[i], height, width)
    ensures |r| == height
  {
    if n == 0 then c
    else ColumnStep(steps[n - 1], ColumnSteps(steps, n - 1, c, height, width, dv), height, width, dv)
  }

  ghost function ColumnAfter(tokens: seq<Token>, t: nat, c: Vec, height: nat, width: nat, dv: nat): (r: Vec)
    requires |c| == height && t <= |tokens| && TokensFit(tokens, height, width) && dv < width
    ensures |r| == height
  {
    if t == 0 then c
    else
      var token := tokens[t - 1];
      ColumnSteps(token.steps, |token.steps|, ColumnAfter(tokens, t - 1, c, height, width, dv), height, width, dv)
  }

  lemma StepByColumn(step: Step, m: Matrix, height: nat, width: nat, dv: nat)
    requires IsMatrix(m, height, width) && StepFits(step, height, width) && dv < width
    ensures Column(ApplyStep(step, m, height, width), height, width, dv)
         == ColumnStep(step, Column(m, height, width, dv), height, width, dv)
  {
    var left := Column(ApplyStep(step, m, height, width), height, width, dv);
    var right := ColumnStep(step, Column(m, height, width, dv), height, width, dv);
    forall d | 0 <= d < height ensures left[d] == right[d] {
      match step
      case Scale(_) =>
      case Rank1(_, _) =>
      case Outer(_, _) =>
    }
  }

  lemma {:induction false} StepsByColumn(steps: seq<Step>, n: nat, m: Matrix, height: nat, width: nat, dv: nat)
    requires IsMatrix(m, height, width) && n <= |steps| && dv < width
    requires forall i :: 0 <= i < n ==> StepFits(steps[i], height, width)
    ensures Column(ApplySteps(steps, n, m, height, width), height, width, dv)
         == ColumnSteps(steps, n, Column(m, height, width, dv), height, width, dv)
  {
    if n > 0 {
      StepsByColumn(steps, n - 1, m, height, width, dv);
      StepByColumn(steps[n - 1], ApplySteps(steps, n - 1, m, height, width), height, width, dv);
    }
  }

  /** State columns evolve independently under every program of steps. */
  lemma {:induction false} ColumnsIndependent(tokens: seq<Token>, t: nat, m: Matrix, height: nat, width: nat, dv: nat)
    requires IsMatrix(m, height, width) && t <= |tokens| && TokensFit(tokens, height, width) && dv < width
    ensures Column(StateAfter(tokens, t, m, height, width), height, width, dv)
         == ColumnAfter(tokens, t, Column(m, height, width, dv), height, width, dv)
  {
    if t > 0 {
      ColumnsIndependent(tokens, t - 1, m, height, width, dv);
      StepsByColumn(tokens[t - 1].steps, |tokens[t - 1].steps|,
                    StateAfter(tokens, t - 1, m, height, width), height, width, dv);
    }
  }

  /** Cutting a sequence anywhere and resuming from the saved state changes nothing. */
  lemma {:induction false} CutAndResume(
    tokens: seq<Token>, lo: nat, hi: nat, t: nat, m: Matrix, height: nat, width: nat)
    requires IsMatrix(m, height, width) && TokensFit(tokens, height, width) && lo + t <= hi <= |tokens|
    ensures StateAfter(tokens, lo + t, m, height, width)
         == StateAfter(tokens[lo..hi], t, StateAfter(tokens, lo, m, height, width), height, width)
  {
    if t > 0 {
      CutAndResume(tokens, lo, hi, t - 1, m, height, width);
      assert tokens[lo..hi][t - 1] == tokens[lo + t - 1];
    }
  }

  lemma StateAtStart(tokens: seq<Token>, m: Matrix, height: nat, width: nat)
    requires IsMatrix(m, height, width) && TokensFit(tokens, height, width)
    ensures StateAfter(tokens, 0, m, height, width) == m
  {
  }

  lemma OutputsResume(tokens: seq<Token>, lo: nat, hi: nat, t: nat, timing: Timing, m: Matrix, height: nat, width: nat)
    requires IsMatrix(m, height, width) && TokensFit(tokens, height, width) && lo + t < hi <= |tokens|
    ensures OutputAt(tokens, lo + t, timing, m, height, width)
         == OutputAt(tokens[lo..hi], t, timing, StateAfter(tokens, lo, m, height, width), height, width)
  {
    hide ApplySteps, VecMat, StateAfter, IsMatrix;
    CutAndResume(tokens, lo, hi, if timing.Before? then t else t + 1, m, height, width);
    assert tokens[lo..hi][t] == tokens[lo + t];
  }

  lemma {:induction false} SameColumns(m: Matrix, n: Matrix, height: nat, width: nat)
    requires IsMatrix(m, height, width) && IsMatrix(n, height, width)
    requires forall dv :: 0 <= dv < width ==> Column(m, height, width, dv) == Column(n, height, width, dv)
    ensures m == n
  {
    forall d | 0 <= d < height ensures m[d] == n[d] {
      forall dv | 0 <= dv < width ensures m[d][dv] == n[d][dv] {
        assert Column(m, height, width, dv)[d] == Column(n, height, width, dv)[d];
      }
    }
  }
}
