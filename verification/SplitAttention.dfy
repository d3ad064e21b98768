/** Split-key and 2D calls over the caller's tensors: the same reference rows as the blocked call. */
module SplitAttention {
  import opened Vectors
  import opened Softmax
  import opened ScoreTiles
  import opened Scores
  import opened RowNorms
  import opened NormInstances
  import opened Merging
  import opened SplitK
  import opened Attention
  import opened Grid
  import Stream

  /** A worker's view of one output row, through its own slot's copy of K. */
  function WorkerSource(op: Operator, n: Sizes, t: Tensors, shape: Shape, storage: Storage, slot: nat, r: nat): Source
    requires n.Positive() && r < n.Rows() == |t.q| && |t.k| == n.b * n.hkv
  {
    RowInside(n, r);
    n.KvHeadInside(r / n.sq);
    BlockSource(op, n, t, shape, HeadOf(storage, t.k, n.d, slot, n.KvHead(r / n.sq)), r / n.sq, r % n.sq, 1)
  }

  lemma WorkerSees(op: Operator, n: Sizes, t: Tensors, shape: Shape, storage: Storage, slot: nat, r: nat)
    requires Ready(op, n, t, shape) && Stored(storage, n, t.k, shape.tileK) && r < n.Rows()
    requires storage.Copies? ==> slot < storage.layout.slots
    ensures RowSource(WorkerSource(op, n, t, shape, storage, slot, r), RowScores(op, n, t, shape, r))
  {
    hide Stored, Source.Valid, Source.Row, HeadOf;
    RowInside(n, r);
    n.KvHeadInside(r / n.sq);
    var kv := n.KvHead(r / n.sq);
    StoredHead(storage, n, t.k, shape.tileK, slot, kv);
    BlockRow(op, n, t, shape, HeadOf(storage, t.k, n.d, slot, kv), r / n.sq, r % n.sq, 1, 0);
  }

  /** Whether a split kernel finds a way to divide the work. */
  ghost predicate Divisible(lowering: Stream.Lowering, workers: nat, keys: nat, tileK: nat)
    requires tileK > 0
  {
    match lowering
    case Blocked => workers > 0
    case SplitKeys => workers > 1
    case Grid2D => workers >= 4 && HasDivisor(workers, keys, tileK)
  }

  /** All rows' merges are lawful. */
  ghost predicate RowsLawful<S>(norm: SplitNorm<S>, op: Operator, n: Sizes, t: Tensors, shape: Shape)
    requires Ready(op, n, t, shape)
  {
    forall r: nat :: r < n.Rows() ==> norm.Lawful(RowScores(op, n, t, shape, r), RowValues(op, n, t, shape, r), n.dv)
  }

  /** The additive norms merge on every row, as softmax does. */
  lemma AdditiveRowsLawful(
    term: real -> real, weight: real -> real, final: real -> real, op: Operator, n: Sizes, t: Tensors, shape: Shape)
    requires Ready(op, n, t, shape)
    ensures RowsLawful(GenericSplit(AdditiveMerge(), Additive(term, weight, final)), op, n, t, shape)
  {
    hide Additive, MergesDisjoint, RowScores;
    forall r: nat | r < n.Rows()
      ensures GenericSplit(AdditiveMerge(), Additive(term, weight, final))
        .Lawful(RowScores(op, n, t, shape, r), RowValues(op, n, t, shape, r), n.dv)
    {
      AdditiveMerges(term, weight, final, RowScores(op, n, t, shape, r), RowValues(op, n, t, shape, r), n.dv);
    }
  }

  /** When the launch is accepted, every output row is the reference over the caller's own tensors, however the
      keys are divided, whatever the NUMA groups and whichever slots the workers read. */
  method RunSplit<S>(
    lowering: Stream.Lowering, norm: SplitNorm<S>, op: Operator, n: Sizes, t: Tensors, shape: Shape,
    storage: Storage, slots: seq<nat>, groups: seq<nat>, groupCount: nat, needed: nat, available: nat,
    output: array2<real>)
    returns (status: int)
    requires Ready(op, n, t, shape) && Stored(storage, n, t.k, shape.tileK) && RowsLawful(norm, op, n, t, shape)
    requires |slots| == |groups| && (forall w :: 0 <= w < |groups| ==> groups[w] < groupCount)
    requires SlotsExist(storage, slots)
    requires !lowering.Blocked? && output.Length0 == n.Rows() && output.Length1 == n.dv
    modifies output
    ensures status == 0 <==> Divisible(lowering, |groups|, n.skv, shape.tileK) && needed <= available
    ensures status != 0 ==> Untouched(output)
    ensures status == 0 ==> forall r, dv :: 0 <= r < n.Rows() && 0 <= dv < n.dv ==>
      output[r, dv] == norm.Output(RowScores(op, n, t, shape, r), Component(RowValues(op, n, t, shape, r), n.dv, dv))
  {
    hide Stored, HeadOf, SplitNorm.Lawful, SplitNorm.Output, RowSource, RowScores, Candidate, AllWidth;
    var rowCount := n.Rows();
    ghost var rows := seq(rowCount, r requires 0 <= r < rowCount => RowScores(op, n, t, shape, r));
    var sources, values := Views(op, n, t, shape, storage, slots);
    if lowering.SplitKeys? {
      status := SplitKLaunch(norm, sources, rows, values, groups, groupCount, needed, available, output);
    } else {
      status := Split2DLaunch(
        norm, sources, rows, values, n.skv, shape.tileK, groups, groupCount, needed, available, output);
    }
  }

  /** Every row's sources, one per worker, and its values. */
  method Views(op: Operator, n: Sizes, t: Tensors, shape: Shape, storage: Storage, slots: seq<nat>)
    returns (sources: seq<seq<Source>>, values: seq<seq<Vec>>)
    requires Ready(op, n, t, shape) && Stored(storage, n, t.k, shape.tileK)
    requires SlotsExist(storage, slots)
    ensures |sources| == |values| == n.Rows()
    ensures forall r :: 0 <= r < n.Rows() ==> values[r] == RowValues(op, n, t, shape, r) && |sources[r]| == |slots|
    ensures forall r, w :: 0 <= r < n.Rows() && 0 <= w < |slots| ==>
      RowSource(sources[r][w], RowScores(op, n, t, shape, r))
  {
    hide Stored, RowSource, RowScores;
    sources, values := [], [];
    for r := 0 to n.Rows()
      invariant |sources| == |values| == r
      invariant forall i :: 0 <= i < r ==> values[i] == RowValues(op, n, t, shape, i) && |sources[i]| == |slots|
      invariant forall i, w :: 0 <= i < r && 0 <= w < |slots| ==>
        RowSource(sources[i][w], RowScores(op, n, t, shape, i))
    {
      RowInside(n, r);
      n.KvHeadInside(r / n.sq);
      var row := seq(|slots|, w requires 0 <= w < |slots| => WorkerSource(op, n, t, shape, storage, slots[w], r));
      forall w | 0 <= w < |slots| ensures RowSource(row[w], RowScores(op, n, t, shape, r)) {
        WorkerSees(op, n, t, shape, storage, slots[w], r);
      }
      sources, values := sources + [row], values + [t.v[n.KvHead(r / n.sq)]];
    }
  }

  // ---- On the stream cache ---------------------------------------------------------

  /** The checks a split kernel makes before it touches anything. */
  method Accepts(plan: Stream.Plan, call: Stream.Call, rows: nat) returns (ok: bool)
    requires plan.Valid() && !plan.lowering.Blocked?
    ensures ok <==> Accepted(plan, call)
  {
    var workers := |plan.groups|;
    if plan.lowering.SplitKeys? {
      if workers <= 1 { return false; }
    } else {
      if workers < 4 { return false; }
      var keyParts := ChooseKeyParts(workers, rows, call.skv, plan.tileK);
      if keyParts == 0 { return false; }
    }
    ok := Stream.FloatsNeeded(plan, call.b * call.hkv * call.d, call.skv) <= plan.totalFloats;
  }

  /** When the kernel of a plan takes a call instead of refusing it. */
  ghost predicate Accepted(plan: Stream.Plan, call: Stream.Call)
    requires plan.Valid()
  {
    Divisible(plan.lowering, |plan.groups|, call.skv, plan.tileK) && Stream.WorkspaceFits(plan, call)
  }

  /** A cached streaming call on a split lowering, end to end. An accepted call computes the reference over the
      caller's current K and V, however many packed rows the cache kept; a refused one writes nothing, and spoils
      the stream state exactly when it displaces another plan's. */
  method StreamedSplit<S>(
    runtime: Stream.Runtime, artifact: nat, plan: Stream.Plan, call: Stream.Call, scratch: seq<real>,
    norm: SplitNorm<S>, op: Operator, n: Sizes, t: Tensors, shape: Shape, groupCount: nat, output: array2<real>)
    returns (accepted: bool)
    requires runtime.Valid() && plan.Valid() && !plan.lowering.Blocked? && SameCall(n, t, call)
    requires call.kvCache && plan.packs ==> runtime.AppendOnly(call)
    requires Ready(op, n, t, shape) && RowsLawful(norm, op, n, t, shape) && shape.tileK == plan.tileK
    requires forall w :: 0 <= w < |plan.groups| ==> plan.groups[w] < groupCount
    requires output.Length0 == n.Rows() && output.Length1 == n.dv
    modifies runtime, runtime.executor.Footprint(), output
    ensures accepted <==> Accepted(plan, call)
    ensures accepted ==> runtime.Valid() && runtime.arenaSeq == old(runtime.arenaSeq) + 1
    ensures accepted ==> forall r, dv :: 0 <= r < n.Rows() && 0 <= dv < n.dv ==>
      output[r, dv] == norm.Output(RowScores(op, n, t, shape, r), Component(RowValues(op, n, t, shape, r), n.dv, dv))
    ensures !accepted ==>
      unchanged(output) && unchanged(runtime) && (runtime.Valid() <==> !old(runtime.Displaces(plan)))
  {
    hide Ready, Stored, RowsLawful, SplitNorm.Output, RowScores, Divisible, Stream.Coherent, SlotsExist,
      Stream.Runtime.Valid, Stream.FloatsNeeded;
    accepted := Accepts(plan, call, n.Rows());
    if !accepted {
      runtime.RunRefused(artifact, plan);
      return;
    }
    var seen := runtime.RunCached(artifact, plan, call, scratch);
    SeenIsStored(plan, call, seen, n, t);
    var slots := SlotsFor(plan, call, seen);
    var storage := StorageFor(plan, call, seen);
    var status := RunSplit(
      plan.lowering, norm, op, n, t, shape, storage, slots, plan.groups, groupCount,
      Stream.FloatsNeeded(plan, call.b * call.hkv * call.d, call.skv), plan.totalFloats, output);
  }
}
