/** The query-by-key worker grid: which divisor of the workers becomes the number of key parts, who
    computes what, and the whole 2D and split-key launches over all output rows. */
module Grid {
  import opened Integers
  import opened Vectors
  import opened Softmax
  import opened ScoreTiles
  import opened RowNorms
  import opened Merging
  import opened Scores
  import opened SplitK

  function Min(x: nat, y: nat): nat { if x < y then x else y }

  /** The most key parts the keys can feed, but never fewer than two. */
  function KeyTileCap(keys: nat, tileK: nat): nat
    requires tileK > 0
  {
    var tiles := CeilDiv(keys, tileK);
    if tiles < 2 then 2 else tiles
  }

  predicate Candidate(d: nat, workers: nat, cap: nat) {
    2 <= d <= workers && workers % d == 0 && d <= cap
  }

  /** The least divisor of n that is at least from. */
  function LeastDivisor(n: nat, from: nat): (d: nat)
    requires 2 <= from <= n
    ensures from <= d <= n && n % d == 0
    ensures forall e: nat :: from <= e < d ==> !Divides(e, n)
    decreases n - from
  {
    if Divides(from, n) then from else LeastDivisor(n, from + 1)
  }

  predicate Divides(d: nat, n: nat) { d > 0 && n % d == 0 }

  /** The workers have a divisor the key tiles can feed. */
  ghost predicate HasDivisor(workers: nat, keys: nat, tileK: nat)
    requires tileK > 0
  {
    exists d: nat :: Candidate(d, workers, KeyTileCap(keys, tileK))
  }

  /** They have one exactly when their least divisor fits the key tiles; any even number of workers does. */
  lemma LeastDivisorDecides(workers: nat, keys: nat, tileK: nat)
    requires workers >= 4 && tileK > 0
    ensures HasDivisor(workers, keys, tileK) <==> LeastDivisor(workers, 2) <= KeyTileCap(keys, tileK)
    ensures workers % 2 == 0 ==> LeastDivisor(workers, 2) == 2 <= KeyTileCap(keys, tileK)
  {
    var cap := KeyTileCap(keys, tileK);
    var least := LeastDivisor(workers, 2);
    if least <= cap {
      assert Candidate(least, workers, cap);
    } else {
      forall d: nat ensures !Candidate(d, workers, cap) {
        if d >= 2 { assert d < least ==> !Divides(d, workers); }
      }
    }
    if workers % 2 == 0 { assert Divides(2, workers); }
  }

  /** How many workers a divisor keeps busy. */
  function Active(d: nat, workers: nat, rows: nat): nat
    requires d > 0
  {
    Min(workers / d, rows) * d
  }

  /** A query part of the grid takes every queryParts-th row. */
  predicate TakesRow(row: nat, queryPart: nat, queryParts: nat)
    requires queryParts > 0
  {
    row % queryParts == queryPart
  }

  /** So many workers of the grid, and no more, have a row at all: the first ones. */
  lemma ActiveWorkers(d: nat, workers: nat, rows: nat, w: nat)
    requires d > 0 && workers > 0 && workers % d == 0 && w < workers
    ensures workers / d > 0
    ensures w < Active(d, workers, rows) <==> exists row: nat :: row < rows && TakesRow(row, w / d, workers / d)
  {
    var parts, part := workers / d, w / d;
    DivModSplit(workers, d);
    DivModSplit(w, d);
    assert (part + 1) * d == part * d + d;
    var busy := Min(parts, rows);
    if part < busy {
      MulMono(part + 1, busy, d);
      SmallRemainder(part, parts);
      assert TakesRow(part, part, parts);
    } else {
      MulMono(busy, part, d);
      forall row: nat | row < rows ensures !TakesRow(row, part, parts) {
        RemainderBelow(row, parts);
      }
    }
  }

  lemma SmallRemainder(x: nat, d: nat)
    requires x < d
    ensures x % d == x
  {
  }

  lemma RemainderBelow(x: nat, d: nat)
    requires d > 0
    ensures x % d < d && x % d <= x
  {
    DivModSplit(x, d);
  }

  /** Picks the divisor that keeps the most workers active, ties to the smallest; zero when there is none. */
  method ChooseKeyParts(workers: nat, rows: nat, keys: nat, tileK: nat) returns (keyParts: nat)
    requires tileK > 0
    ensures keyParts == 0 <==> !HasDivisor(workers, keys, tileK)
    ensures keyParts != 0 ==> Candidate(keyParts, workers, KeyTileCap(keys, tileK))
    ensures keyParts != 0 ==> forall d: nat :: Candidate(d, workers, KeyTileCap(keys, tileK)) ==>
      Active(d, workers, rows) <= Active(keyParts, workers, rows)
      && (d < keyParts ==> Active(d, workers, rows) < Active(keyParts, workers, rows))
  {
    var cap := KeyTileCap(keys, tileK);
    keyParts := 0;
    var bestActive: int := -1;
    var divisor := 2;
    while divisor <= workers
      invariant 2 <= divisor
      invariant keyParts == 0 <==> bestActive == -1
      invariant keyParts == 0 ==> forall d: nat :: d < divisor ==> !Candidate(d, workers, cap)
      invariant keyParts != 0 ==>
        Candidate(keyParts, workers, cap) && keyParts < divisor && bestActive == Active(keyParts, workers, rows)
      invariant keyParts != 0 ==> forall d: nat :: d < divisor && Candidate(d, workers, cap) ==>
        Active(d, workers, rows) <= bestActive && (d < keyParts ==> Active(d, workers, rows) < bestActive)
    {
      if workers % divisor == 0 {
        if divisor > cap { break; }
        var active := Active(divisor, workers, rows);
        if active > bestActive {
          bestActive := active;
          keyParts := divisor;
        }
      }
      divisor := divisor + 1;
    }
  }

  // ---- Who computes what -----------------------------------------------------

  /** Worker w of the grid takes the rows congruent to its query part and its key part's share of the keys. */
  predicate Computes(w: nat, row: nat, key: nat, keys: nat, keyParts: nat, queryParts: nat)
    requires keyParts > 0 && queryParts > 0
  {
    TakesRow(row, w / keyParts, queryParts) && InShare(keys, w % keyParts, keyParts, key)
  }

  /** Every (row, key) pair has exactly one worker. */
  lemma GridPartition(row: nat, key: nat, keys: nat, workers: nat, keyParts: nat) returns (owner: nat)
    requires keyParts > 0 && workers > 0 && workers % keyParts == 0 && key < keys
    ensures workers / keyParts > 0
    ensures owner < workers && Computes(owner, row, key, keys, keyParts, workers / keyParts)
    ensures forall w: nat :: w < workers && Computes(w, row, key, keys, keyParts, workers / keyParts) ==> w == owner
  {
    DivModSplit(workers, keyParts);
    var queryParts := workers / keyParts;
    SharesPartition(keys, keyParts, key);
    var part: nat :| part < keyParts && InShare(keys, part, keyParts, key);
    var queryPart := row % queryParts;
    owner := queryPart * keyParts + part;
    DivModUnique(owner, keyParts, queryPart, part);
    MulMono(queryPart + 1, queryParts, keyParts);
    assert (queryPart + 1) * keyParts == queryPart * keyParts + keyParts;
    forall w: nat | w < workers && Computes(w, row, key, keys, keyParts, queryParts) ensures w == owner {
      DivModSplit(w, keyParts);
    }
  }

  /** The members that merge a row lie inside the launch. */
  lemma MembersInside(row: nat, workers: nat, keyParts: nat)
    requires keyParts > 0 && workers > 0 && workers % keyParts == 0
    ensures workers / keyParts > 0 && (row % (workers / keyParts)) * keyParts + keyParts <= workers
  {
    DivModSplit(workers, keyParts);
    var queryParts := workers / keyParts;
    MulMono(row % queryParts + 1, queryParts, keyParts);
    assert (row % queryParts + 1) * keyParts == (row % queryParts) * keyParts + keyParts;
  }

  // ---- Whole launches --------------------------------------------------------

  /** The norm as the split kernels see it: the recognised softmax, or any protocol with a merge. */
  datatype SplitNorm<!S> =
    | SoftmaxSplit(e: real -> real, scale: real)
    | GenericSplit(rule: MergeRule<S>, p: Protocol<S>)
  {
    /** The law the merges of a row rely on. */
    ghost predicate Lawful(row: seq<Ext>, v: seq<Vec>, width: nat)
      requires |row| == |v| && AllWidth(v, width)
    {
      match this
      case SoftmaxSplit(e, scale) => IsExp(e)
      case GenericSplit(rule, p) => MergesDisjoint(rule, p, row, v, width)
    }

    ghost function Output(row: seq<Ext>, x: Vec): real
      requires |row| == |x|
    {
      match this
      case SoftmaxSplit(e, scale) => Reference(e, ScaleScores(row, scale), x)
      case GenericSplit(rule, p) => OnlineOutput(p, row, x)
    }
  }

  /** One output row, divided among members base .. base + count. */
  method MemberRow<S>(
    norm: SplitNorm<S>, sources: seq<Source>, ghost row: seq<Ext>, v: seq<Vec>, groups: seq<nat>, groupCount: nat,
    base: nat, count: nat, output: array2<real>, r: nat)
    requires base + count <= |groups| == |sources| && count > 0 && r < output.Length0
    requires forall w :: base <= w < base + count ==> RowSource(sources[w], row)
    requires forall i :: base <= i < base + count ==> groups[i] < groupCount
    requires |row| == |v| && AllWidth(v, output.Length1) && norm.Lawful(row, v, output.Length1)
    modifies output
    ensures forall dv :: 0 <= dv < output.Length1 ==>
      output[r, dv] == norm.Output(row, Component(v, output.Length1, dv))
    ensures forall i, dv :: 0 <= i < output.Length0 && i != r && 0 <= dv < output.Length1 ==>
      output[i, dv] == old(output[i, dv])
  {
    hide IsExp, MergesDisjoint, Reference, OnlineOutput, RowSource, AllWidth;
    match norm
    case SoftmaxSplit(e, scale) =>
      SplitSoftmaxRow(e, scale, sources, row, v, groups, groupCount, base, count, output, r);
    case GenericSplit(rule, p) => SplitRow(rule, p, sources, row, v, groups, groupCount, base, count, output, r);
  }

  /** What every row of a launch needs: a source per worker for the row's scores, values of the output width, and a
      merge law. */
  ghost predicate Launchable<S>(
    norm: SplitNorm<S>, sources: seq<seq<Source>>, rows: seq<seq<Ext>>, values: seq<seq<Vec>>, workers: nat,
    width: nat) {
    |sources| == |rows| == |values| && forall r :: 0 <= r < |rows| ==>
      && |rows[r]| == |values[r]| && AllWidth(values[r], width) && norm.Lawful(rows[r], values[r], width)
      && |sources[r]| == workers && forall w :: 0 <= w < workers ==> RowSource(sources[r][w], rows[r])
  }

  /** No element was written. */
  twostate predicate Untouched(output: array2<real>)
    reads output
  {
    forall r, dv :: 0 <= r < output.Length0 && 0 <= dv < output.Length1 ==> output[r, dv] == old(output[r, dv])
  }

  /** The split-key launch: refused below two workers and in too small a workspace, otherwise all workers share every
      row's keys. */
  method SplitKLaunch<S>(
    norm: SplitNorm<S>, sources: seq<seq<Source>>, ghost rows: seq<seq<Ext>>, values: seq<seq<Vec>>,
    groups: seq<nat>, groupCount: nat, needed: nat, available: nat, output: array2<real>)
    returns (status: int)
    requires |rows| == output.Length0 && Launchable(norm, sources, rows, values, |groups|, output.Length1)
    requires forall i :: 0 <= i < |groups| ==> groups[i] < groupCount
    modifies output
    ensures status == -1 <==> |groups| <= 1
    ensures status == -2 <==> |groups| > 1 && available < needed
    ensures status in {0, -1, -2} && (status != 0 ==> Untouched(output))
    ensures status == 0 ==> forall r, dv :: 0 <= r < |rows| && 0 <= dv < output.Length1 ==>
      output[r, dv] == norm.Output(rows[r], Component(values[r], output.Length1, dv))
  {
    hide SplitNorm.Lawful, SplitNorm.Output, AllWidth, RowSource;
    if |groups| <= 1 { return -1; }
    if available < needed { return -2; }
    for r := 0 to |sources|
      invariant forall i, dv :: 0 <= i < r && 0 <= dv < output.Length1 ==>
        output[i, dv] == norm.Output(rows[i], Component(values[i], output.Length1, dv))
    {
      MemberRow(norm, sources[r], rows[r], values[r], groups, groupCount, 0, |groups|, output, r);
    }
    status := 0;
  }

  /** The 2D launch: refused below four workers, without a divisor that fits and in too small a workspace, in this
      order; otherwise every row is whole. */
  method Split2DLaunch<S>(
    norm: SplitNorm<S>, sources: seq<seq<Source>>, ghost rows: seq<seq<Ext>>, values: seq<seq<Vec>>,
    keys: nat, tileK: nat, groups: seq<nat>, groupCount: nat, needed: nat, available: nat, output: array2<real>)
    returns (status: int)
    requires tileK > 0 && |rows| == output.Length0 && Launchable(norm, sources, rows, values, |groups|, output.Length1)
    requires forall i :: 0 <= i < |groups| ==> groups[i] < groupCount
    requires forall r :: 0 <= r < |rows| ==> |rows[r]| == keys
    modifies output
    ensures status == -1 <==> |groups| < 4
    ensures status == -3 <==> |groups| >= 4 && !HasDivisor(|groups|, keys, tileK)
    ensures status == -2 <==> |groups| >= 4 && HasDivisor(|groups|, keys, tileK) && available < needed
    ensures status in {0, -1, -2, -3} && (status != 0 ==> Untouched(output))
    ensures status == 0 ==> forall r, dv :: 0 <= r < |rows| && 0 <= dv < output.Length1 ==>
      output[r, dv] == norm.Output(rows[r], Component(values[r], output.Length1, dv))
  {
    hide SplitNorm.Lawful, SplitNorm.Output, AllWidth, RowSource;
    if |groups| < 4 { return -1; }
    var keyParts := ChooseKeyParts(|groups|, |sources|, keys, tileK);
    if keyParts == 0 { return -3; }
    if available < needed { return -2; }
    var queryParts := |groups| / keyParts;
    for r := 0 to |sources|
      invariant forall i, dv :: 0 <= i < r && 0 <= dv < output.Length1 ==>
        output[i, dv] == norm.Output(rows[i], Component(values[i], output.Length1, dv))
    {
      MembersInside(r, |groups|, keyParts);
      var queryPart := r % queryParts;
      MemberRow(norm, sources[r], rows[r], values[r], groups, groupCount, queryPart * keyParts, keyParts, output, r);
    }
    status := 0;
  }
}
