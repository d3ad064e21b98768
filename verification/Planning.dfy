/** The planner's sizes: alignment by bit masks, key-length buckets, and memory plans that the kernels' own
    size checks accept. */
module Planning {
  import opened Integers
  import opened Packing
  import Stream

  // ---- Alignment by masks ----------------------------------------------------------

  function And(x: nat, y: nat): nat {
    if x == 0 || y == 0 then 0 else 2 * And(x / 2, y / 2) + if x % 2 == 1 && y % 2 == 1 then 1 else 0
  }

  /** Masking with -alignment clears exactly the bits of alignment - 1. */
  function Align(value: nat, alignment: nat): int
    requires alignment > 0
  {
    var padded := value + alignment - 1;
    padded - And(padded, alignment - 1)
  }

  predicate IsPower(a: nat) {
    a == 1 || (a > 1 && a % 2 == 0 && IsPower(a / 2))
  }

  lemma {:induction false} AndSelf(x: nat)
    ensures And(x, x) == x
  {
    if x > 0 { AndSelf(x / 2); }
  }

  /** The test the planner puts its page size through finds exactly the powers of two. */
  lemma {:induction false} PowerTest(a: nat)
    requires a > 0
    ensures IsPower(a) <==> And(a, a - 1) == 0
  {
    if a == 1 {
    } else if a % 2 == 1 {
      AndSelf(a / 2);
      assert (a - 1) / 2 == a / 2;
    } else {
      PowerTest(a / 2);
      assert (a - 1) / 2 == a / 2 - 1;
    }
  }

  lemma {:induction false} AndMask(n: nat, a: nat)
    requires IsPower(a)
    ensures And(n, a - 1) == n % a
    decreases a
  {
    hide And;
    if a == 1 {
      AndZero(n);
    } else {
      var b := a / 2;
      AndMask(n / 2, b);
      AndHalves(n, b);
      HalvedRemainder(n, b);
      assert a == 2 * b;
    }
  }

  lemma AndZero(n: nat)
    ensures And(n, 0) == 0
  {
  }

  lemma AndHalves(n: nat, b: nat)
    requires b > 0
    ensures And(n, 2 * b - 1) == 2 * And(n / 2, b - 1) + n % 2
  {
    var y: nat := 2 * b - 1;
    assert y / 2 == b - 1 && y % 2 == 1;
  }

  lemma HalvedRemainder(n: nat, b: nat)
    requires b > 0
    ensures n % (2 * b) == 2 * (n / 2 % b) + n % 2
  {
    DivModSplit(n / 2, b);
    var q, r := n / 2 / b, n / 2 % b;
    assert n == q * (2 * b) + (2 * r + n % 2);
    DivModUnique(n, 2 * b, q, 2 * r + n % 2);
  }

  lemma AlignPower(value: nat, alignment: nat)
    requires IsPower(alignment)
    ensures Align(value, alignment) == RoundUp(value, alignment)
  {
    AndMask(value + alignment - 1, alignment);
    DivModSplit(value + alignment - 1, alignment);
  }

  /** The mask rounds every value up exactly when the alignment is a power of two. */
  lemma AlignRoundsUp(alignment: nat)
    requires alignment > 0
    ensures (forall value: nat :: Align(value, alignment) == RoundUp(value, alignment)) <==> IsPower(alignment)
  {
    if IsPower(alignment) {
      forall value: nat ensures Align(value, alignment) == RoundUp(value, alignment) {
        AlignPower(value, alignment);
      }
    } else {
      PowerTest(alignment);
      DivModUnique(alignment, alignment, 1, 0);
      assert Align(1, alignment) == alignment - And(alignment, alignment - 1);
      assert RoundUp(1, alignment) == alignment;
    }
  }

  // ---- Key-length buckets ----------------------------------------------------------

  const BUCKET_UNIT: nat := 64

  function Pow2(n: nat): nat { if n == 0 then 1 else 2 * Pow2(n - 1) }

  function BitLength(n: nat): nat { if n == 0 then 0 else 1 + BitLength(n / 2) }

  /** The length a growing K is tuned and planned for. */
  function KvBucket(length: nat): nat {
    if length <= BUCKET_UNIT then BUCKET_UNIT else BUCKET_UNIT * Pow2(BitLength((length - 1) / BUCKET_UNIT))
  }

  lemma {:induction false} BitLengthBounds(n: nat)
    requires n > 0
    ensures BitLength(n) > 0 && Pow2(BitLength(n) - 1) <= n < Pow2(BitLength(n))
  {
    if n > 1 { BitLengthBounds(n / 2); }
  }

  lemma {:induction false} Pow2Mono(m: nat, n: nat)
    requires m <= n
    ensures Pow2(m) <= Pow2(n)
    decreases n
  {
    if m < n { Pow2Mono(m, n - 1); }
  }

  /** The bucket is the least 64 * 2^n that holds the length. */
  lemma KvBucketLeast(length: nat) returns (n: nat)
    ensures KvBucket(length) == BUCKET_UNIT * Pow2(n) && length <= KvBucket(length)
    ensures forall m: nat :: length <= BUCKET_UNIT * Pow2(m) ==> n <= m
  {
    n := 0;
    if length > BUCKET_UNIT {
      var units := (length - 1) / BUCKET_UNIT;
      n := BitLength(units);
      BitLengthBounds(units);
      forall m: nat | length <= BUCKET_UNIT * Pow2(m) ensures n <= m {
        if m < n { Pow2Mono(m, n - 1); }
      }
    }
  }

  /** Growing inside a bucket never changes it, so each bucket is tuned once. */
  lemma KvBucketStable(length: nat, longer: nat)
    requires length <= longer
    ensures KvBucket(longer) == KvBucket(length) <==> longer <= KvBucket(length)
  {
    var n := KvBucketLeast(length);
    var m := KvBucketLeast(longer);
    Pow2Mono(n, m);
    if longer <= KvBucket(length) { Pow2Mono(m, n); }
  }

  // ---- Scratch -------------------------------------------------------------------------

  /** The lowerings, with the compile-time sizes their scratch depends on. */
  datatype Scratch =
    | LinearScan
    | LinearGrid
    | LinearChunked(block: nat)
    | LinearDelta(block: nat)
    | ParallelBlocked(tileQ: nat, tileK: nat)

  datatype Symbol = SymbolD | SymbolDv | SymbolOne

  /** The planner's terms for a linear lowering, as (coefficient, symbol). */
  function ScratchTerms(s: Scratch): seq<(nat, Symbol)> {
    match s
    case LinearScan => [(5, SymbolD), (2, SymbolDv)]
    case LinearGrid => [(2, SymbolD), (2, SymbolDv)]
    case LinearChunked(block) => [(2 * block, SymbolD), (2 * block, SymbolDv), (block * block + 3 * block, SymbolOne)]
    case LinearDelta(block) => [(2 * block, SymbolD), (3 * block, SymbolDv), (block * block + 5 * block, SymbolOne)]
    case ParallelBlocked(tileQ, tileK) => [(tileQ, SymbolDv), (tileQ * tileK * 2, SymbolOne)]
  }

  function ValueOf(symbol: Symbol, d: nat, dv: nat): nat {
    match symbol case SymbolD => d case SymbolDv => dv case SymbolOne => 1
  }

  function TermSum(terms: seq<(nat, Symbol)>, d: nat, dv: nat): nat {
    if terms == [] then 0
    else TermSum(terms[..|terms| - 1], d, dv) + terms[|terms| - 1].0 * ValueOf(terms[|terms| - 1].1, d, dv)
  }

  /** A linear kernel's lowering, with its block size. */
  predicate LinearLowering(s: Scratch) {
    match s
    case LinearScan => true
    case LinearGrid => true
    case LinearChunked(block) => block > 0
    case LinearDelta(block) => block > 0
    case ParallelBlocked(_, _) => false
  }

  lemma ScratchPositive(s: Scratch, d: nat, dv: nat)
    requires LinearLowering(s) && d > 0
    ensures TermSum(ScratchTerms(s), d, dv) > 0
  {
    hide TermSum;
    FirstTerms(ScratchTerms(s), d, dv);
    var terms := ScratchTerms(s);
    assert terms[0].0 > 0;
    MulMono(1, terms[0].0, d);
  }

  // ---- Memory plans ----------------------------------------------------------------

  datatype Region = Region(name: string, offset: nat, size: nat, alignment: nat, numaLocal: bool, owners: seq<nat>)

  ghost predicate Unique<T>(s: seq<T>) {
    forall i, j :: 0 <= i < j < |s| ==> s[i] != s[j]
  }

  ghost predicate RegionValid(r: Region) {
    && r.name != "" && r.size > 0 && IsPower(r.alignment) && r.offset % r.alignment == 0
    && r.owners != [] && Unique(r.owners) && (r.numaLocal ==> r.size % |r.owners| == 0)
  }

  datatype MemoryPlan = MemoryPlan(regions: seq<Region>, total: nat)

  /** Regions in offset order, disjoint, the last one ending the plan. */
  ghost predicate MemoryValid(plan: MemoryPlan) {
    && plan.regions != [] && plan.total > 0
    && (forall i :: 0 <= i < |plan.regions| ==> RegionValid(plan.regions[i]))
    && (forall i, j :: 0 <= i < j < |plan.regions| ==> plan.regions[i].name != plan.regions[j].name)
    && (forall i, j :: 0 <= i < j < |plan.regions| ==>
      plan.regions[i].offset + plan.regions[i].size <= plan.regions[j].offset)
    && var last := plan.regions[|plan.regions| - 1]; last.offset + last.size == plan.total
  }

  /** What every worker gets: a blocked kernel's scratch, a split kernel's partial rows, or a linear kernel's
      scratch. */
  datatype Area =
    | BlockedScratch(tileQ: nat, dv: nat)
    | PartialRows(rows: nat, dv: nat, states: nat)
    | LinearScratch(lowering: Scratch, d: nat, dv: nat)

  /** What a plan's size depends on. */
  datatype Need = Need(panels: nat, tileK: nat, workers: nat, area: Area, page: nat, packs: bool) {
    ghost predicate Valid() {
      && tileK > 0 && IsPower(page) && page >= 4 && workers > 0 && (packs ==> panels > 0)
      && (area.BlockedScratch? ==> area.tileQ > 0) && (area.PartialRows? ==> area.rows > 0 && area.dv > 0)
      && (area.LinearScratch? ==> !packs && area.d > 0 && area.dv > 0 && LinearLowering(area.lowering))
    }

    /** The floats the planner gives a worker. */
    function WorkerFloats(): nat {
      match area
      case BlockedScratch(tileQ, dv) => tileQ * tileK * 2 + tileQ * dv
      case PartialRows(rows, dv, states) => rows * (dv + states)
      case LinearScratch(lowering, d, dv) => TermSum(ScratchTerms(lowering), d, dv)
    }

    /** The floats a kernel counts for a worker. */
    function KernelFloats(): nat {
      match area
      case BlockedScratch(tileQ, dv) => tileQ * tileK * 2 + tileQ * dv
      case PartialRows(rows, dv, states) => rows * (dv + states)
      case LinearScratch(lowering, d, dv) => TermSum(ScratchTerms(lowering), d, dv)
    }

    /** What it lays out there. */
    function LaidOut(): seq<nat> {
      match area
      case BlockedScratch(tileQ, dv) => Buffers(ParallelBlocked(tileQ, tileK), 0, dv)
      case PartialRows(rows, dv, states) => seq(rows, row => dv + states)
      case LinearScratch(lowering, d, dv) => Buffers(lowering, d, dv)
    }

    /** The bytes the planner provides. */
    function PlannedBytes(keys: nat, copies: nat): int
      requires tileK > 0 && page > 0
    {
      (if packs then RoundUp(panels * PaddedKeys(keys) * 4, page) * copies else 0)
      + workers * RoundUp(WorkerFloats() * 4, page)
    }

    /** The key length as the planner pads it. */
    function PaddedKeys(keys: nat): nat
      requires tileK > 0
    {
      AlignCovers(keys, tileK);
      Align(keys, tileK)
    }

    /** The bytes the kernel asks for before it touches anything: its packed copies, and a stride per worker. */
    function KernelBytes(keys: nat, copies: nat): nat
      requires tileK > 0 && page > 0
    {
      CopiesBytes(keys, copies) + workers * WorkerStride()
    }

    function CopiesBytes(keys: nat, copies: nat): nat
      requires tileK > 0 && page > 0
    {
      if packs then RoundUp(panels * RoundUp(keys, tileK) * 4, page) * copies else 0
    }

    function WorkerStride(): nat
      requires page > 0
    {
      RoundUp(KernelFloats() * 4, page)
    }

    lemma WorkerFloatsPositive()
      requires Valid()
      ensures WorkerFloats() == KernelFloats() > 0 && (area.BlockedScratch? ==> KernelFloats() >= tileK)
    {
      match area
      case BlockedScratch(tileQ, dv) => MulMono(1, tileQ, tileK);
      case PartialRows(rows, dv, states) => MulMono(1, rows, dv + states);
      case LinearScratch(lowering, d, dv) => ScratchPositive(lowering, d, dv);
    }

    lemma PaddedPositive(keys: nat)
      requires tileK > 0
      ensures PaddedKeys(keys) >= keys
    {
      AlignCovers(keys, tileK);
    }

    /** A worker's page-rounded area takes a whole tile of scores: the blocked kernels' scratch by itself,
        partial rows because a page does. */
    lemma AreaHoldsTile()
      requires Valid() && (!area.BlockedScratch? ==> tileK <= page / 4)
      ensures tileK <= RoundUp(KernelFloats(), page / 4)
    {
      WorkerFloatsPositive();
      CeilCovers(KernelFloats(), page / 4);
      var pages := CeilDiv(KernelFloats(), page / 4);
      if pages > 0 { MulMono(1, pages, page / 4); }
    }
  }

  lemma {:induction false} AndAtMost(x: nat, y: nat)
    ensures And(x, y) <= y && And(x, y) <= x
  {
    if x > 0 && y > 0 { AndAtMost(x / 2, y / 2); }
  }

  /** Whatever the alignment, masking never falls below the value. */
  lemma AlignCovers(value: nat, alignment: nat)
    requires alignment > 0
    ensures Align(value, alignment) >= value
  {
    AndAtMost(value + alignment - 1, alignment - 1);
  }

  /** The packed copies' region: one page-rounded copy per owner group. */
  method PackedRegion(need: Need, keys: nat, owners: seq<nat>) returns (r: Region)
    requires need.Valid() && need.packs && keys > 0 && owners != [] && Unique(owners)
    ensures RegionValid(r) && r.name == "packed_k" && r.offset == 0 && r.owners == owners
    ensures r.size == RoundUp(need.panels * need.PaddedKeys(keys) * 4, need.page) * |owners|
    ensures r.size % need.page == 0
  {
    hide And, Need.PaddedKeys, Unique;
    var packedSkv := need.PaddedKeys(keys);
    need.PaddedPositive(keys);
    var bytes := need.panels * packedSkv * 4;
    MulMono(1, need.panels, packedSkv);
    var copyBytes := Align(bytes, need.page);
    AlignPower(bytes, need.page);
    PageCopies(bytes, need.page, |owners|);
    r := Region("packed_k", 0, copyBytes * |owners|, need.page, true, owners);
  }

  lemma PageCopies(bytes: nat, page: nat, copies: nat)
    requires page > 0 && bytes > 0 && copies > 0
    ensures var size := RoundUp(bytes, page) * copies; size > 0 && size % page == 0 && size % copies == 0
  {
    CeilCovers(bytes, page);
    MulMono(1, copies, RoundUp(bytes, page));
    PageMultiple(bytes, page, copies);
    DivModUnique(RoundUp(bytes, page) * copies, copies, RoundUp(bytes, page), 0);
  }

  /** The workers' region behind what is already laid out: one page-rounded area per worker. */
  method WorkerRegion(need: Need, offset: nat, everyGroup: seq<nat>, name: string) returns (r: Region)
    requires need.Valid() && offset % need.page == 0 && everyGroup != [] && Unique(everyGroup) && name != ""
    ensures RegionValid(r) && r.name == name && r.offset == offset && r.owners == everyGroup
    ensures r.size == need.workers * RoundUp(need.WorkerFloats() * 4, need.page)
  {
    hide And, Need.WorkerFloats, Unique;
    var bytes := need.WorkerFloats() * 4;
    need.WorkerFloatsPositive();
    var stride := Align(bytes, need.page);
    AlignPower(bytes, need.page);
    CeilCovers(bytes, need.page);
    MulMono(1, need.workers, stride);
    r := Region(name, offset, need.workers * stride, need.page, false, everyGroup);
  }

  /** A valid plan of the planner's bytes: the packed copies first, one for each owner, and the workers' region right
      behind them, a stride for each worker. */
  ghost predicate Planned(plan: MemoryPlan, need: Need, keys: nat, owners: seq<nat>)
    requires need.Valid()
  {
    && MemoryValid(plan) && |plan.regions| == (if need.packs then 2 else 1)
    && plan.total == need.PlannedBytes(keys, |owners|)
    && (need.packs ==> var packed := plan.regions[0];
      packed.name == "packed_k" && packed.offset == 0 && packed.owners == owners)
    && var workers := plan.regions[|plan.regions| - 1];
      && workers.offset == (if need.packs then plan.regions[0].size else 0)
      && workers.offset + workers.size == plan.total
      && workers.size == need.workers * RoundUp(need.WorkerFloats() * 4, need.page)
  }

  /** One candidate: packed copies for the given owner groups, then the workers' region. */
  method BuildMemory(need: Need, keys: nat, owners: seq<nat>, everyGroup: seq<nat>, name: string)
    returns (plan: MemoryPlan)
    requires need.Valid() && keys > 0 && (need.packs <==> owners != []) && Unique(owners)
    requires everyGroup != [] && Unique(everyGroup) && name != "" && name != "packed_k"
    ensures Planned(plan, need, keys, owners)
  {
    hide RegionValid, Need.PaddedKeys, Need.WorkerFloats, Unique, RoundUp, Align;
    var regions := [];
    var offset := 0;
    if owners != [] {
      var packed := PackedRegion(need, keys, owners);
      regions := [packed];
      offset := packed.size;
    }
    var workers := WorkerRegion(need, offset, everyGroup, name);
    RegionFills(workers);
    plan := MemoryPlan(regions + [workers], offset + workers.size);
  }

  lemma RegionFills(r: Region)
    requires RegionValid(r)
    ensures r.size > 0
  {
  }

  function Iota(n: nat): (s: seq<nat>)
    ensures |s| == n && Unique(s)
  {
    seq(n, i => i)
  }

  /** All candidates of a launch: packed K for one group, for each group in turn, and for all of them at once
      when the launch crosses nodes; a single one when nothing is packed. */
  method MemoryPlans(need: Need, keys: nat, groupCount: nat, name: string) returns (plans: seq<MemoryPlan>)
    requires need.Valid() && keys > 0 && groupCount > 0 && name != "" && name != "packed_k"
    ensures |plans| == if need.packs && groupCount > 1 then groupCount + 1 else 1
    ensures !need.packs ==> Planned(plans[0], need, keys, [])
    ensures need.packs ==> forall i :: 0 <= i < |plans| ==>
      Planned(plans[i], need, keys, if i < groupCount then [i] else Iota(groupCount))
  {
    hide MemoryValid, Need.PlannedBytes, Planned;
    if !need.packs {
      var plan := BuildMemory(need, keys, [], Iota(groupCount), name);
      return [plan];
    }
    plans := [];
    for group := 0 to groupCount
      invariant |plans| == group && forall i :: 0 <= i < group ==> Planned(plans[i], need, keys, [i])
    {
      var plan := BuildMemory(need, keys, [group], Iota(groupCount), name);
      plans := plans + [plan];
    }
    if groupCount > 1 {
      var plan := BuildMemory(need, keys, Iota(groupCount), Iota(groupCount), name);
      plans := plans + [plan];
    }
  }

  lemma PageMultiple(bytes: nat, page: nat, copies: nat)
    requires page > 0
    ensures RoundUp(bytes, page) * copies % page == 0
  {
    var pages := CeilDiv(bytes, page);
    assert pages * page * copies == pages * copies * page;
    DivModUnique(pages * copies * page, page, pages * copies, 0);
  }

  lemma RoundUpMono(a: nat, b: nat, d: nat)
    requires a <= b && d > 0
    ensures RoundUp(a, d) <= RoundUp(b, d)
  {
    DivMono(a + d - 1, b + d - 1, d);
    MulMono(CeilDiv(a, d), CeilDiv(b, d), d);
  }

  /** A plan sized for some key length passes the kernel's size check at every shorter one. */
  lemma ShorterFits(need: Need, keys: nat, longer: nat, copies: nat)
    requires need.Valid() && keys <= longer
    ensures need.KernelBytes(keys, copies) <= need.KernelBytes(longer, copies)
  {
    RoundUpMono(keys, longer, need.tileK);
    MulMono(RoundUp(keys, need.tileK), RoundUp(longer, need.tileK), need.panels);
    RoundUpMono(need.panels * RoundUp(keys, need.tileK) * 4, need.panels * RoundUp(longer, need.tileK) * 4, need.page);
    MulMono(RoundUp(need.panels * RoundUp(keys, need.tileK) * 4, need.page),
            RoundUp(need.panels * RoundUp(longer, need.tileK) * 4, need.page), copies);
  }

  lemma RoundUpFloats(floats: nat, page: nat)
    requires page > 0
    ensures RoundUp(floats * 4, page * 4) == RoundUp(floats, page) * 4
  {
    var a := CeilDiv(floats, page);
    CeilCovers(floats, page);
    assert a * (page * 4) == a * page * 4;
    DivModUnique(floats * 4 + page * 4 - 1, page * 4, a, floats * 4 + page * 4 - 1 - a * (page * 4));
  }

  /** What the planner provides is what the kernel asks for when the key tile is a power of two. */
  lemma PlannedIsAsked(need: Need, keys: nat, copies: nat)
    requires need.Valid() && IsPower(need.tileK)
    ensures need.PlannedBytes(keys, copies) == need.KernelBytes(keys, copies)
  {
    AlignPower(keys, need.tileK);
  }

  /** Every plan of a key tile passes the kernel's size check, whatever the sizes and the key length. */
  ghost predicate PlansSuffice(tileK: nat) {
    forall need: Need, keys: nat, copies: nat :: need.Valid() && need.tileK == tileK ==>
      need.KernelBytes(keys, copies) <= need.PlannedBytes(keys, copies)
  }

  /** That is so exactly when the key tile is a power of two. */
  lemma TilesThatSuffice(tileK: nat)
    requires tileK > 0
    ensures PlansSuffice(tileK) <==> IsPower(tileK)
  {
    if IsPower(tileK) {
      forall need: Need, keys: nat, copies: nat | need.Valid() && need.tileK == tileK
        ensures need.KernelBytes(keys, copies) <= need.PlannedBytes(keys, copies)
      {
        PlannedIsAsked(need, keys, copies);
      }
    } else {
      OneKeyFallsShort(tileK);
    }
  }

  /** A page of panels and a single key: the planner pads the key to the tile's lowest set bit only. */
  lemma OneKeyFallsShort(tileK: nat)
    requires tileK > 0 && !IsPower(tileK)
    ensures var need := Need(4, tileK, 1, BlockedScratch(1, 1), 4, true);
      need.Valid() && need.PlannedBytes(1, 1) < need.KernelBytes(1, 1)
  {
    var need := Need(4, tileK, 1, BlockedScratch(1, 1), 4, true);
    PowerTest(tileK);
    DivModUnique(tileK, tileK, 1, 0);
    assert RoundUp(1, tileK) == tileK && need.PaddedKeys(1) == tileK - And(tileK, tileK - 1) < tileK;
    Quadruple(need.PaddedKeys(1));
    Quadruple(tileK);
  }

  lemma Quadruple(x: nat)
    ensures RoundUp(4 * x * 4, 4) == 4 * x * 4
  {
  }

  /** Workers of every group make any choice of owner groups ready. */
  lemma OwnersStaffed(groups: seq<nat>, groupCount: nat, owners: seq<nat>)
    requires Unique(owners) && (forall i :: 0 <= i < |owners| ==> owners[i] < groupCount)
    requires forall g: nat :: g < groupCount ==> g in groups
    ensures OwnersReady(groups, owners)
  {
    forall i | 0 <= i < |owners| ensures CountOf(groups, owners[i], |groups|) > 0 {
      assert owners[i] in groups;
      var w: nat :| w < |groups| && groups[w] == owners[i];
      CountGrows(groups, owners[i], w + 1, |groups|);
    }
  }

  /** A plan tuned at the bucket's edge serves every call of the bucket through the stream cache: it is a valid
      plan there, and the workspace it allocates passes the check of each shorter key length. */
  lemma BucketPlanFits(need: Need, memory: MemoryPlan, plan: Stream.Plan, groupCount: nat, call: Stream.Call)
    requires need.Valid() && need.panels == call.b * call.hkv * call.d && IsPower(need.tileK)
    requires !need.area.BlockedScratch? ==> need.tileK <= need.page / 4
    requires memory.total == need.PlannedBytes(KvBucket(call.skv), |plan.owners|)
    requires plan.packs == need.packs && plan.tileK == need.tileK && plan.page == need.page / 4
    requires |plan.groups| == need.workers && plan.scratch == RoundUp(need.KernelFloats(), plan.page)
    requires plan.totalFloats == memory.total / 4
    requires forall g: nat :: g < groupCount ==> g in plan.groups
    requires need.packs ==> plan.owners != [] && Unique(plan.owners)
    requires forall i :: 0 <= i < |plan.owners| ==> plan.owners[i] < groupCount
    ensures plan.Valid() && Stream.WorkspaceFits(plan, call)
  {
    hide Need.KernelBytes, Need.PlannedBytes, Need.KernelFloats, OwnersReady;
    PageOfFloats(need.page);
    need.AreaHoldsTile();
    if plan.packs { OwnersStaffed(plan.groups, groupCount, plan.owners); }
    PlannedIsAsked(need, KvBucket(call.skv), |plan.owners|);
    var n := KvBucketLeast(call.skv);
    ShorterFits(need, call.skv, KvBucket(call.skv), |plan.owners|);
    FloatsAreBytes(need, plan, call.skv);
  }

  lemma PageOfFloats(page: nat)
    requires IsPower(page) && page >= 4
    ensures page / 4 > 0 && page / 4 * 4 == page
  {
    assert page % 2 == 0 && page / 2 % 2 == 0;
  }

  lemma FloatsAreBytes(need: Need, plan: Stream.Plan, keys: nat)
    requires need.Valid() && plan.packs == need.packs && plan.tileK == need.tileK && plan.page * 4 == need.page
    requires |plan.groups| == need.workers && plan.scratch == RoundUp(need.KernelFloats(), plan.page)
    ensures Stream.FloatsNeeded(plan, need.panels, keys) * 4 == need.KernelBytes(keys, |plan.owners|)
  {
    RoundUpFloats(need.KernelFloats(), plan.page);
    var floats := need.panels * RoundUp(keys, need.tileK);
    RoundUpFloats(floats, plan.page);
    var copy := RoundUp(floats, plan.page);
    assert |plan.groups| * plan.scratch * 4 == need.workers * RoundUp(need.KernelFloats() * 4, need.page);
    if plan.packs {
      assert Stream.LayoutFor(plan, need.panels, keys).copyFloats == copy;
      assert |plan.owners| * copy * 4 == copy * 4 * |plan.owners|;
    }
  }

  // ---- Inside a worker's stride ------------------------------------------------------

  /** The buffers a kernel lays out one behind the other in its worker's scratch. */
  function Buffers(s: Scratch, d: nat, dv: nat): seq<nat> {
    match s
    case LinearScan => [d, d, dv, dv, d, d, d]
    case LinearGrid => [d, d, dv, dv]
    case LinearChunked(block) =>
      [block * d, block * d, block * dv, block * dv, block * block, block, block, block]
    case LinearDelta(block) =>
      [block * d, block * d, block * dv, block * dv, block * dv, block * block, block, block, block, block, block]
    case ParallelBlocked(tileQ, tileK) => [tileQ * tileK, tileQ * tileK, tileQ * dv]
  }

  /** Where buffer i begins. */
  function Offset(sizes: seq<nat>, i: nat): nat
    requires i <= |sizes|
  {
    if i == 0 then 0 else Offset(sizes, i - 1) + sizes[i - 1]
  }

  lemma {:induction false} OffsetsOrdered(sizes: seq<nat>, i: nat, j: nat)
    requires i <= j <= |sizes|
    ensures Offset(sizes, i) <= Offset(sizes, j)
    decreases j
  {
    if i < j { OffsetsOrdered(sizes, i, j - 1); }
  }

  /** The buffers end exactly where the planned scratch does. */
  lemma BuffersFill(s: Scratch, d: nat, dv: nat)
    ensures Offset(Buffers(s, d, dv), |Buffers(s, d, dv)|) == TermSum(ScratchTerms(s), d, dv)
  {
    match s
    case LinearScan => ScanFills(d, dv);
    case LinearGrid => GridFills(d, dv);
    case LinearChunked(block) => ChunkedFills(block, d, dv);
    case LinearDelta(block) => DeltaFills(block, d, dv);
    case ParallelBlocked(tileQ, tileK) => BlockedFills(tileQ, tileK, d, dv);
  }

  ghost predicate Filled(s: Scratch, d: nat, dv: nat) {
    Offset(Buffers(s, d, dv), |Buffers(s, d, dv)|) == TermSum(ScratchTerms(s), d, dv)
  }

  lemma ScanFills(d: nat, dv: nat)
    ensures Filled(LinearScan, d, dv)
  {
    hide TermSum;
    FirstTerms(ScratchTerms(LinearScan), d, dv);
    var sizes := Buffers(LinearScan, d, dv);
    assert Offset(sizes, 0) == 0 && Offset(sizes, 1) == d && Offset(sizes, 2) == d + d
      && Offset(sizes, 3) == d + d + dv;
    FourMore(sizes, 3);
  }

  lemma GridFills(d: nat, dv: nat)
    ensures Filled(LinearGrid, d, dv)
  {
    hide TermSum;
    FirstTerms(ScratchTerms(LinearGrid), d, dv);
    FourMore([d, d, dv, dv], 0);
  }

  lemma ChunkedFills(block: nat, d: nat, dv: nat)
    ensures Filled(LinearChunked(block), d, dv)
  {
    hide TermSum, Offset;
    FirstTerms(ScratchTerms(LinearChunked(block)), d, dv);
    Pairs(block, d);
    Pairs(block, dv);
    EightBuffers(block * d, block * dv, block * block, block);
  }

  lemma DeltaFills(block: nat, d: nat, dv: nat)
    ensures Filled(LinearDelta(block), d, dv)
  {
    hide TermSum, Offset;
    FirstTerms(ScratchTerms(LinearDelta(block)), d, dv);
    Pairs(block, d);
    Pairs(block, dv);
    ElevenBuffers(block * d, block * dv, block * block, block);
  }

  lemma BlockedFills(tileQ: nat, tileK: nat, d: nat, dv: nat)
    ensures Filled(ParallelBlocked(tileQ, tileK), d, dv)
  {
    hide TermSum, Offset;
    FirstTerms(ScratchTerms(ParallelBlocked(tileQ, tileK)), d, dv);
    ThreeBuffers(tileQ * tileK, tileQ * dv);
  }

  lemma ThreeBuffers(x: nat, y: nat)
    ensures Offset([x, x, y], 3) == x + x + y
  {
    var sizes := [x, x, y];
    assert Offset(sizes, 0) == 0 && Offset(sizes, 1) == x && Offset(sizes, 2) == x + x;
  }

  lemma Pairs(block: nat, d: nat)
    ensures 2 * block * d == block * d + block * d && 3 * block * d == block * d + block * d + block * d
  {
  }

  lemma EightBuffers(x: nat, y: nat, z: nat, w: nat)
    ensures Offset([x, x, y, y, z, w, w, w], 8) == x + x + y + y + z + w + w + w
  {
    var sizes := [x, x, y, y, z, w, w, w];
    assert Offset(sizes, 0) == 0 && Offset(sizes, 1) == x && Offset(sizes, 2) == x + x && Offset(sizes, 3) == x + x + y;
    FourMore(sizes, 3);
    FourMore(sizes, 4);
  }

  lemma ElevenBuffers(x: nat, y: nat, z: nat, w: nat)
    ensures Offset([x, x, y, y, y, z, w, w, w, w, w], 11) == x + x + y + y + y + z + w + w + w + w + w
  {
    var sizes := [x, x, y, y, y, z, w, w, w, w, w];
    assert Offset(sizes, 0) == 0 && Offset(sizes, 1) == x && Offset(sizes, 2) == x + x && Offset(sizes, 3) == x + x + y;
    FourMore(sizes, 3);
    FourMore(sizes, 7);
  }

  lemma FourMore(sizes: seq<nat>, i: nat)
    requires i + 4 <= |sizes|
    ensures Offset(sizes, i + 4) == Offset(sizes, i) + sizes[i] + sizes[i + 1] + sizes[i + 2] + sizes[i + 3]
  {
    assert Offset(sizes, i + 1) == Offset(sizes, i) + sizes[i];
    assert Offset(sizes, i + 2) == Offset(sizes, i + 1) + sizes[i + 1];
    assert Offset(sizes, i + 3) == Offset(sizes, i + 2) + sizes[i + 2];
  }

  lemma FirstTerms(terms: seq<(nat, Symbol)>, d: nat, dv: nat)
    requires 2 <= |terms| <= 3
    ensures TermSum(terms, d, dv)
         == terms[0].0 * ValueOf(terms[0].1, d, dv) + terms[1].0 * ValueOf(terms[1].1, d, dv)
          + if |terms| == 3 then terms[2].0 * ValueOf(terms[2].1, d, dv) else 0
  {
    assert terms[..1] == [terms[0]] && terms[..1][..0] == [];
    assert TermSum(terms[..1], d, dv) == terms[0].0 * ValueOf(terms[0].1, d, dv);
    assert terms[..2][..1] == terms[..1];
    assert TermSum(terms[..2], d, dv) == TermSum(terms[..1], d, dv) + terms[1].0 * ValueOf(terms[1].1, d, dv);
    if |terms| == 2 { assert terms[..2] == terms; }
  }

  /** Buffer b of worker w: first and past-the-last float, counted from the workers' region. */
  function BufferStart(stride: nat, sizes: seq<nat>, w: nat, b: nat): nat
    requires b <= |sizes|
  {
    w * stride + Offset(sizes, b)
  }

  lemma BufferInside(sizes: seq<nat>, stride: nat, workers: nat, w: nat, b: nat)
    requires Offset(sizes, |sizes|) <= stride && w < workers && b < |sizes|
    ensures BufferStart(stride, sizes, w, b) + sizes[b] <= workers * stride
  {
    OffsetsOrdered(sizes, b + 1, |sizes|);
    MulMono(w + 1, workers, stride);
    assert (w + 1) * stride == w * stride + stride;
  }

  /** No two buffers of any two workers overlap, and all of them lie inside the workers' region. */
  lemma BuffersApart(sizes: seq<nat>, stride: nat, workers: nat, v: nat, a: nat, w: nat, b: nat)
    requires Offset(sizes, |sizes|) <= stride && v < workers && w < workers
    requires a < |sizes| && b < |sizes| && (v < w || (v == w && a < b))
    ensures BufferStart(stride, sizes, v, a) + sizes[a] <= BufferStart(stride, sizes, w, b)
    ensures BufferStart(stride, sizes, w, b) + sizes[b] <= workers * stride
  {
    BufferInside(sizes, stride, workers, w, b);
    OffsetsOrdered(sizes, a + 1, |sizes|);
    if v == w {
      OffsetsOrdered(sizes, a + 1, b);
    } else {
      MulMono(v + 1, w, stride);
      assert (v + 1) * stride == v * stride + stride;
    }
  }

  /** Whatever the area, the laid-out buffers end where the floats that the kernel counts do. */
  lemma AreaFills(need: Need)
    ensures Offset(need.LaidOut(), |need.LaidOut()|) == need.KernelFloats()
  {
    hide Offset, Buffers, TermSum;
    match need.area
    case BlockedScratch(tileQ, dv) =>
      BuffersFill(ParallelBlocked(tileQ, need.tileK), 0, dv);
      FirstTerms(ScratchTerms(ParallelBlocked(tileQ, need.tileK)), 0, dv);
    case PartialRows(rows, dv, states) => RowsFill(rows, dv + states, rows);
    case LinearScratch(lowering, d, dv) => BuffersFill(lowering, d, dv);
  }

  lemma {:induction false} RowsFill(rows: nat, floats: nat, n: nat)
    requires n <= rows
    ensures Offset(seq(rows, row => floats), n) == n * floats
  {
    if n > 0 {
      RowsFill(rows, floats, n - 1);
      assert (n - 1) * floats + floats == n * floats;
    }
  }

  /** The bytes where worker w's buffer b begins, in a call that packs keys keys into the given number of copies. */
  function BufferByte(need: Need, keys: nat, copies: nat, w: nat, b: nat): nat
    requires need.Valid() && b <= |need.LaidOut()|
  {
    need.CopiesBytes(keys, copies) + w * need.WorkerStride() + 4 * Offset(need.LaidOut(), b)
  }

  lemma StrideOfPages(need: Need)
    requires need.Valid()
    ensures need.page / 4 > 0 && need.WorkerStride() == 4 * RoundUp(need.KernelFloats(), need.page / 4)
    ensures need.KernelFloats() <= RoundUp(need.KernelFloats(), need.page / 4)
  {
    hide Need.KernelFloats;
    PageOfFloats(need.page);
    RoundUpFloats(need.KernelFloats(), need.page / 4);
    CeilCovers(need.KernelFloats(), need.page / 4);
  }

  lemma BytesOfFloats(w: nat, stride: nat, offset: nat)
    ensures w * (4 * stride) + 4 * offset == 4 * (w * stride + offset)
  {
  }

  /** In a workspace planned for some key length, at every call up to it: all buffers of all workers lie behind the
      packed copies and inside the workspace, and no two of them share a byte. */
  lemma PlannedBuffersApart(
    need: Need, plan: MemoryPlan, planned: nat, owners: seq<nat>, keys: nat, v: nat, a: nat, w: nat, b: nat)
    requires need.Valid() && IsPower(need.tileK) && Planned(plan, need, planned, owners) && keys <= planned
    requires v < need.workers && w < need.workers && (v < w || (v == w && a < b))
    requires a < |need.LaidOut()| && b < |need.LaidOut()|
    ensures need.CopiesBytes(keys, |owners|) <= BufferByte(need, keys, |owners|, v, a)
    ensures BufferByte(need, keys, |owners|, v, a) + 4 * need.LaidOut()[a] <= BufferByte(need, keys, |owners|, w, b)
    ensures BufferByte(need, keys, |owners|, w, b) + 4 * need.LaidOut()[b] <= plan.total
  {
    hide Need.LaidOut, Need.KernelFloats, Offset, MemoryValid, Need.PlannedBytes;
    var sizes, stride := need.LaidOut(), RoundUp(need.KernelFloats(), need.page / 4);
    AreaFills(need);
    StrideOfPages(need);
    BuffersApart(sizes, stride, need.workers, v, a, w, b);
    BytesOfFloats(v, stride, Offset(sizes, a));
    BytesOfFloats(w, stride, Offset(sizes, b));
    BytesOfFloats(need.workers, stride, 0);
    PlannedIsAsked(need, planned, |owners|);
    ShorterFits(need, keys, planned, |owners|);
  }

  /** A call of the planned length begins its workers' buffers where the plan's region begins. */
  lemma RegionStarts(need: Need, plan: MemoryPlan, keys: nat, owners: seq<nat>)
    requires need.Valid() && IsPower(need.tileK) && Planned(plan, need, keys, owners)
    ensures var region := plan.regions[|plan.regions| - 1];
      && need.CopiesBytes(keys, |owners|) == region.offset
      && need.workers * need.WorkerStride() == region.size
  {
    hide MemoryValid, Need.KernelFloats, Need.WorkerFloats, RoundUp;
    need.WorkerFloatsPositive();
    PlannedIsAsked(need, keys, |owners|);
  }

  /** The byte of element c of a worker's partial row: its output values first, then its states. */
  function PartialByte(need: Need, keys: nat, copies: nat, w: nat, row: nat, c: nat): nat
    requires need.Valid() && need.area.PartialRows?
  {
    need.CopiesBytes(keys, copies) + w * need.WorkerStride() + row * ((need.area.dv + need.area.states) * 4) + c * 4
  }

  /** The rows of partial results are the laid-out buffers, so two elements of one row of one worker are four bytes
      apart, and elements of different rows or workers are further still. */
  lemma PartialInRow(need: Need, keys: nat, copies: nat, w: nat, row: nat, c: nat)
    requires need.Valid() && need.area.PartialRows? && row < need.area.rows && c < need.area.dv + need.area.states
    ensures row < |need.LaidOut()| && need.LaidOut()[row] == need.area.dv + need.area.states
    ensures PartialByte(need, keys, copies, w, row, c) == BufferByte(need, keys, copies, w, row) + 4 * c
  {
    hide Need.WorkerStride, Need.CopiesBytes;
    var floats := need.area.dv + need.area.states;
    RowsFill(need.area.rows, floats, row);
    assert row * (floats * 4) == 4 * (row * floats);
  }

  /** Two elements of the workers' partial rows share a byte only if they are the same element of the same row of the
      same worker; all of them lie behind the packed copies and inside the workspace. */
  lemma PlannedPartialsApart(
    need: Need, plan: MemoryPlan, planned: nat, owners: seq<nat>, keys: nat,
    v: nat, row: nat, c: nat, w: nat, other: nat, e: nat)
    requires need.Valid() && need.area.PartialRows? && IsPower(need.tileK) && Planned(plan, need, planned, owners)
    requires keys <= planned && v < need.workers && w < need.workers && row < need.area.rows && other < need.area.rows
    requires c < need.area.dv + need.area.states && e < need.area.dv + need.area.states
    ensures var first, second := PartialByte(need, keys, |owners|, v, row, c),
        PartialByte(need, keys, |owners|, w, other, e);
      && need.CopiesBytes(keys, |owners|) <= first && first + 4 <= plan.total
      && (v != w || row != other || c != e ==> first + 4 <= second || second + 4 <= first)
  {
    hide Need.LaidOut, BufferByte, PartialByte, Planned;
    PartialInRow(need, keys, |owners|, v, row, c);
    PartialInRow(need, keys, |owners|, w, other, e);
    BufferPlanned(need, plan, planned, owners, keys, v, row);
    if v < w || (v == w && row < other) {
      PlannedBuffersApart(need, plan, planned, owners, keys, v, row, w, other);
    } else if w < v || (v == w && other < row) {
      PlannedBuffersApart(need, plan, planned, owners, keys, w, other, v, row);
    }
  }

  lemma BufferPlanned(need: Need, plan: MemoryPlan, planned: nat, owners: seq<nat>, keys: nat, w: nat, b: nat)
    requires need.Valid() && IsPower(need.tileK) && Planned(plan, need, planned, owners) && keys <= planned
    requires w < need.workers && b < |need.LaidOut()|
    ensures need.CopiesBytes(keys, |owners|) <= BufferByte(need, keys, |owners|, w, b)
    ensures BufferByte(need, keys, |owners|, w, b) + 4 * need.LaidOut()[b] <= plan.total
  {
    hide Need.LaidOut, Need.KernelFloats, Offset, MemoryValid, Need.PlannedBytes;
    var sizes, stride := need.LaidOut(), RoundUp(need.KernelFloats(), need.page / 4);
    AreaFills(need);
    StrideOfPages(need);
    BufferInside(sizes, stride, need.workers, w, b);
    BytesOfFloats(w, stride, Offset(sizes, b));
    BytesOfFloats(need.workers, stride, 0);
    PlannedIsAsked(need, planned, |owners|);
    ShorterFits(need, keys, planned, |owners|);
  }
}
