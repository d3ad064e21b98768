/** The packed-K stream cache: an executor that owns one workspace, and a runtime that decides how many
    packed rows a growing K buffer may keep. */
module Stream {
  import opened Options
  import opened Integers
  import opened Vectors
  import opened Packing

  /** The parallel lowerings. */
  datatype Lowering = Blocked | SplitKeys | Grid2D

  /** An execution plan. Its identity is a digest of everything in it: what is modelled here, and a name for the rest
      (query tile, schedule, kernel, CPUs). Equal sizes do not make equal plans. */
  datatype Plan = Plan(
    name: nat, lowering: Lowering,
    packs: bool, tileK: nat, page: nat, groups: seq<nat>, owners: seq<nat>, scratch: nat, totalFloats: nat)
  {
    /** Sizes are counted in floats; every worker's scratch holds at least a tile of scores. */
    ghost predicate Valid() {
      && tileK > 0 && page > 0 && groups != [] && tileK <= scratch
      && (packs ==> owners != [] && OwnersReady(groups, owners))
    }
  }

  /** What a kernel call needs: the packed copies, then every worker's scratch. */
  function FloatsNeeded(plan: Plan, panels: nat, keys: nat): nat
    requires plan.tileK > 0 && plan.page > 0
  {
    (if plan.packs then LayoutFor(plan, panels, keys).slots * LayoutFor(plan, panels, keys).copyFloats else 0)
    + |plan.groups| * plan.scratch
  }

  /** The layout the kernel computes for a plan and a key length: rows padded to the key tile, copies to the page. */
  function LayoutFor(plan: Plan, panels: nat, keys: nat): (layout: Layout)
    requires plan.tileK > 0 && plan.page > 0
    ensures layout.Valid() && keys <= layout.stride
  {
    var stride := RoundUp(keys, plan.tileK);
    CeilCovers(keys, plan.tileK);
    CeilCovers(panels * stride, plan.page);
    Layout(|plan.owners|, panels, stride, RoundUp(panels * stride, plan.page))
  }

  /** The first keys rows of every head. */
  ghost function FirstRows(k: Keys, keys: nat): (r: Keys)
    ensures |r| == |k|
  {
    seq(|k|, h requires 0 <= h < |k| => if keys <= |k[h]| then k[h][..keys] else k[h])
  }

  /** One more row under every head. */
  ghost function Extended(k: Keys, row: seq<Vec>): (r: Keys)
    ensures |r| == |k|
  {
    seq(|k|, h requires 0 <= h < |k| => if h < |row| then k[h] + [row[h]] else k[h])
  }

  /** Row i of head h overwritten. */
  ghost function Edited(k: Keys, h: nat, i: nat, row: Vec): (r: Keys)
    ensures |r| == |k|
  {
    if h < |k| && i < |k[h]| then k[h := k[h][i := row]] else k
  }

  /** A caller's K storage, addressed by object identity. Callers append rows and may overwrite them in place. */
  class KBuffer {
    const heads: nat
    const d: nat
    var length: nat
    var rows: Keys

    ghost predicate Valid()
      reads this
    {
      KeyShape(rows, heads, length, d)
    }

    constructor (heads: nat, d: nat)
      ensures Valid() && length == 0 && this.heads == heads && this.d == d
    {
      this.heads, this.d, length := heads, d, 0;
      rows := seq(heads, h => []);
    }

    /** What a call of the given length sees. */
    ghost function View(keys: nat): (k: Keys)
      requires Valid() && keys <= length
      reads this
      ensures KeyShape(k, heads, keys, d)
    {
      FirstRows(rows, keys)
    }

    method CopyRows(keys: nat) returns (k: Keys)
      requires Valid() && keys <= length
      ensures k == View(keys)
    {
      k := [];
      for h := 0 to heads
        invariant k == View(keys)[..h]
      {
        k := k + [rows[h][..keys]];
      }
    }

    method Append(row: seq<Vec>)
      requires Valid() && |row| == heads && forall h :: 0 <= h < heads ==> |row[h]| == d
      modifies this
      ensures Valid() && length == old(length) + 1 && rows == Extended(old(rows), row)
    {
      rows := seq(heads, h requires 0 <= h < heads && h < |rows| && h < |row| reads this => rows[h] + [row[h]]);
      length := length + 1;
    }

    method Edit(h: nat, i: nat, row: Vec)
      requires Valid() && h < heads && i < length && |row| == d
      modifies this
      ensures Valid() && length == old(length) && rows == Edited(old(rows), h, i, row)
    {
      rows := rows[h := rows[h][i := row]];
    }
  }

  /** A call on the first skv rows of a buffer holding b * hkv heads. */
  datatype Call = Call(k: KBuffer, b: nat, hkv: nat, d: nat, skv: nat, kvCache: bool)

  ghost predicate CallFits(call: Call)
    reads call.k
  {
    call.k.Valid() && call.k.heads == call.b * call.hkv && call.k.d == call.d && call.skv <= call.k.length
  }

  /** The packing job of a call under a plan, with prefix rows retained. */
  ghost function JobFor(plan: Plan, k: Keys, heads: nat, d: nat, skv: nat, prefix: nat): (job: Job)
    requires plan.tileK > 0 && plan.page > 0 && KeyShape(k, heads, skv, d) && prefix <= skv
    ensures job.Valid()
  {
    Job(LayoutFor(plan, heads * d, skv), k, heads, skv, d, prefix)
  }

  /** The kernel's own size check, without which it returns before touching anything. */
  predicate WorkspaceFits(plan: Plan, call: Call)
    requires plan.tileK > 0 && plan.page > 0
  {
    FloatsNeeded(plan, call.b * call.hkv * call.d, call.skv) <= plan.totalFloats
  }

  /** The scratch behind the packed copies takes the loads that start in a copy and run past its end. */
  lemma TileBeyondCopies(plan: Plan, call: Call)
    requires plan.Valid() && plan.packs && WorkspaceFits(plan, call)
    ensures var layout := LayoutFor(plan, call.b * call.hkv * call.d, call.skv);
      layout.slots * layout.copyFloats + plan.tileK <= plan.totalFloats
  {
    MulMono(1, |plan.groups|, plan.scratch);
  }

  /** What a workspace holds when it is new. */
  ghost predicate AllZero(mem: seq<real>) {
    forall i :: 0 <= i < |mem| ==> mem[i] == 0.0
  }

  class Executor {
    var arena: array?<real>
    var arenaKey: Option<Plan>
    /** Cached argument templates: the workspace pointer baked in for (artifact, plan). */
    var packed: map<(nat, Plan), array<real>>

    /** Every cached template points at the live arena of its own plan. */
    ghost predicate Valid()
      reads this
    {
      && (arenaKey.Some? <==> arena != null)
      && (arena != null ==> arena.Length == arenaKey.value.totalFloats)
      && (forall token :: token in packed ==> arenaKey == Some(token.1) && packed[token] == arena)
    }

    ghost function Footprint(): set<object>
      reads this
    {
      {this} + if arena == null then {} else {arena}
    }

    constructor ()
      ensures Valid() && fresh(this) && arena == null && arenaKey == None
    {
      arena, arenaKey, packed := null, None, map[];
    }

    method Close()
      modifies this
      ensures Valid() && arena == null && arenaKey == None && packed == map[]
    {
      arena := null;
      arenaKey := None;
      packed := map[];
    }

    /** A fresh zeroed workspace when the plan changes, the live one otherwise. */
    method WorkspaceFor(plan: Plan) returns (workspace: array<real>)
      requires Valid()
      modifies this
      ensures Valid() && arenaKey == Some(plan) && arena == workspace
      ensures if old(arenaKey) == Some(plan) then arena == old(arena) && packed == old(packed)
        else fresh(workspace) && packed == map[] && AllZero(workspace[..])
    {
      if arenaKey != Some(plan) {
        Close();
        arena := new real[plan.totalFloats](i => 0.0);
        arenaKey := Some(plan);
      }
      workspace := arena;
    }

    method Template(artifact: nat, plan: Plan) returns (workspace: array<real>)
      requires Valid()
      modifies this
      ensures Valid() && arenaKey == Some(plan) && arena == workspace
      ensures if old(arenaKey) == Some(plan) then arena == old(arena) else fresh(workspace) && AllZero(workspace[..])
    {
      var token := (artifact, plan);
      if token in packed { return packed[token]; }
      workspace := WorkspaceFor(plan);
      packed := packed[token := workspace];
    }

    /** One native call: pack from the prefix, then compute. Whatever the computation leaves in its scratch is beyond
        the packed copies. Returns the memory the workers read: it is packed exactly when the workspace that the call
        found held the prefix. */
    method Run(artifact: nat, plan: Plan, call: Call, prefix: nat, scratch: seq<real>) returns (seen: seq<real>)
      requires Valid() && plan.Valid() && CallFits(call) && WorkspaceFits(plan, call) && prefix <= call.skv
      modifies Footprint()
      ensures Valid() && arenaKey == Some(plan) && fresh(Footprint() - old(Footprint()))
      ensures plan.packs ==> |seen| >= CopiesEnd(plan, call) + plan.tileK && arena.Length >= CopiesEnd(plan, call)
      ensures plan.packs ==> (JobOf(plan, call, 0).Packed(seen) <==> old(Finds(plan, call, prefix)))
      ensures plan.packs ==> (JobOf(plan, call, 0).Packed(arena[..]) <==> old(Finds(plan, call, prefix)))
    {
      var workspace := Template(artifact, plan);
      seen := [];
      if plan.packs {
        var k := call.k.CopyRows(call.skv);
        TileBeyondCopies(plan, call);
        var layout := LayoutFor(plan, call.b * call.hkv * call.d, call.skv);
        var job := Job(layout, k, call.b * call.hkv, call.skv, call.d, prefix);
        if AllZero(workspace[..]) { ZeroedHold(job, workspace[..], call.k.rows); }
        assert job.RowsHold(workspace[..], 0, prefix) <==> old(Finds(plan, call, prefix));
        PackAll(job, workspace, plan.groups, plan.owners);
        seen := workspace[..];
        Scribble(workspace, layout.slots * layout.copyFloats, scratch);
        SameCopies(job, JobOf(plan, call, 0), seen, workspace[..]);
      } else {
        Scribble(workspace, 0, scratch);
      }
    }

    /** The live workspace is the plan's, and its packed copies hold the call's first prefix rows in its layout. */
    ghost predicate HoldsRows(plan: Plan, call: Call, prefix: nat)
      requires plan.Valid() && CallFits(call) && prefix <= call.skv
      reads this, arena, call.k
    {
      && arenaKey == Some(plan) && arena != null
      && arena.Length >= JobOf(plan, call, prefix).layout.slots * JobOf(plan, call, prefix).layout.copyFloats
      && JobOf(plan, call, prefix).RowsHold(arena[..], 0, prefix)
    }

    /** What a call under the plan finds holds its first prefix rows: the plan's own workspace as it was left, or a
        zeroed one, which holds only rows of zeros. */
    ghost predicate Finds(plan: Plan, call: Call, prefix: nat)
      requires plan.Valid() && CallFits(call) && prefix <= call.skv
      reads this, arena, call.k
    {
      if arenaKey == Some(plan) then HoldsRows(plan, call, prefix) else ZeroRows(call.k.rows, prefix)
    }

    /** Any workspace holds no rows. */
    lemma FindsNothing(plan: Plan, call: Call)
      requires Valid() && plan.Valid() && plan.packs && CallFits(call) && WorkspaceFits(plan, call)
      ensures Finds(plan, call, 0)
    {
      TileBeyondCopies(plan, call);
    }
  }

  /** The packing job of a call on its buffer's current contents. */
  ghost function JobOf(plan: Plan, call: Call, prefix: nat): (job: Job)
    requires plan.tileK > 0 && plan.page > 0 && CallFits(call) && prefix <= call.skv
    reads call.k
    ensures job.Valid()
  {
    JobFor(plan, call.k.View(call.skv), call.b * call.hkv, call.d, call.skv, prefix)
  }

  /** The first rows of every head are zero. */
  ghost predicate ZeroRows(k: Keys, rows: nat) {
    forall h, i, p :: 0 <= h < |k| && 0 <= i < |k[h]| && i < rows && 0 <= p < |k[h][i]| ==> k[h][i][p] == 0.0
  }

  /** Zeroed memory holds a job's retained rows exactly when they are zero themselves. */
  lemma ZeroedHold(job: Job, mem: seq<real>, rows: Keys)
    requires job.Valid() && job.layout.slots > 0 && |mem| >= job.layout.slots * job.layout.copyFloats && AllZero(mem)
    requires |rows| == job.heads && job.k == FirstRows(rows, job.rows)
    requires forall h :: 0 <= h < job.heads ==> |rows[h]| >= job.rows
    ensures job.RowsHold(mem, 0, job.prefix) <==> ZeroRows(rows, job.prefix)
  {
    hide AllZero, ZeroRows, Cell, KeyShape;
    if ZeroRows(rows, job.prefix) {
      forall s: nat, p: nat, i: nat | job.layout.Holds(s, p, i) && i < job.prefix
        ensures job.At(mem, s, p, i) == job.Target(p, i)
      {
        ZeroCell(job, mem, s, p, i);
        RetainedCell(job, rows, p, i);
        PanelHead(p, job.heads, job.d);
        ZeroRow(rows, job.prefix, p / job.d, i, p % job.d);
      }
    }
    if job.RowsHold(mem, 0, job.prefix) {
      RetainedZero(job, mem, rows);
    }
  }

  lemma ZeroCell(job: Job, mem: seq<real>, s: nat, p: nat, i: nat)
    requires job.Valid() && |mem| >= job.layout.slots * job.layout.copyFloats && AllZero(mem)
    requires job.layout.Holds(s, p, i)
    ensures job.At(mem, s, p, i) == 0.0
  {
    job.layout.AddressBound(s, p, i);
  }

  /** What a panel must hold of a retained row. */
  lemma RetainedCell(job: Job, rows: Keys, p: nat, i: nat)
    requires job.Valid() && |rows| == job.heads && job.k == FirstRows(rows, job.rows)
    requires forall h :: 0 <= h < job.heads ==> |rows[h]| >= job.rows
    requires p < job.layout.panels && i < job.rows
    ensures job.d > 0 && p / job.d < job.heads && p % job.d < job.d && |rows[p / job.d][i]| == job.d
    ensures job.Target(p, i) == rows[p / job.d][i][p % job.d]
  {
    PanelHead(p, job.heads, job.d);
    assert job.k[p / job.d][i] == rows[p / job.d][i];
  }

  lemma ZeroRow(rows: Keys, prefix: nat, h: nat, i: nat, c: nat)
    requires ZeroRows(rows, prefix) && h < |rows| && i < |rows[h]| && i < prefix && c < |rows[h][i]|
    ensures rows[h][i][c] == 0.0
  {
  }

  lemma RetainedZero(job: Job, mem: seq<real>, rows: Keys)
    requires job.Valid() && job.layout.slots > 0 && |mem| >= job.layout.slots * job.layout.copyFloats && AllZero(mem)
    requires |rows| == job.heads && job.k == FirstRows(rows, job.rows)
    requires forall h :: 0 <= h < job.heads ==> |rows[h]| >= job.rows
    requires job.RowsHold(mem, 0, job.prefix)
    ensures ZeroRows(rows, job.prefix)
  {
    hide AllZero, Cell;
    forall h, i, p | 0 <= h < |rows| && 0 <= i < |rows[h]| && i < job.prefix && 0 <= p < |rows[h][i]|
      ensures rows[h][i][p] == 0.0
    {
      assert job.k[h][i] == rows[h][i];
      PanelOf(job, h, p);
      var panel := h * job.d + p;
      RetainedCell(job, rows, panel, i);
      assert job.layout.Holds(0, panel, i);
      ZeroCell(job, mem, 0, panel, i);
      assert job.At(mem, 0, panel, i) == job.Target(panel, i);
    }
  }

  /** Component p of head h is panel h * d + p. */
  lemma PanelOf(job: Job, h: nat, p: nat)
    requires job.Valid() && h < job.heads && p < job.d
    ensures h * job.d + p < job.layout.panels
    ensures (h * job.d + p) / job.d == h && (h * job.d + p) % job.d == p
  {
    MulMono(h + 1, job.heads, job.d);
    assert (h + 1) * job.d == h * job.d + job.d;
    DivModUnique(h * job.d + p, job.d, h, p);
  }

  /** Where a call's packed copies end. */
  function CopiesEnd(plan: Plan, call: Call): nat
    requires plan.tileK > 0 && plan.page > 0
  {
    var layout := LayoutFor(plan, call.b * call.hkv * call.d, call.skv);
    layout.slots * layout.copyFloats
  }

  /** Packed or not does not depend on the job's prefix, nor on what lies behind the copies. */
  lemma SameCopies(job: Job, whole: Job, mem: seq<real>, later: seq<real>)
    requires job.Valid() && whole == job.(prefix := 0) && |mem| == |later| >= job.layout.slots * job.layout.copyFloats
    requires forall i :: 0 <= i < job.layout.slots * job.layout.copyFloats ==> later[i] == mem[i]
    ensures job.Packed(mem) <==> whole.Packed(mem)
    ensures whole.Packed(mem) <==> whole.Packed(later)
  {
    forall s: nat, p: nat, i: nat | job.layout.Holds(s, p, i)
      ensures job.At(mem, s, p, i) == whole.At(mem, s, p, i) == whole.At(later, s, p, i)
      ensures job.Target(p, i) == whole.Target(p, i)
    {
      job.layout.AddressBound(s, p, i);
    }
  }

  method Scribble(mem: array<real>, from: nat, scratch: seq<real>)
    modifies mem
    ensures forall i :: 0 <= i < from && i < mem.Length ==> mem[i] == old(mem[i])
  {
    for i := 0 to |scratch|
      invariant forall j :: 0 <= j < from && j < mem.Length ==> mem[j] == old(mem[j])
    {
      if from + i < mem.Length { mem[from + i] := scratch[i]; }
    }
  }

  // ---- The runtime -------------------------------------------------------------

  datatype Key = Key(plan: Plan, k: KBuffer, b: nat, hkv: nat, d: nat)

  /** The latest stream run: trusted only while its stamp is the runtime's run count. */
  datatype PackedState = PackedState(key: Key, skv: nat, stamp: nat)

  datatype Reason = BufferChanged | ArenaChanged | NonGrowing | StrideChanged

  /** How many rows may stay packed, under which key, and why earlier rows were dropped. */
  datatype Decision = Decision(prefix: nat, key: Option<Key>, reason: Option<Reason>)

  class Runtime {
    const executor: Executor
    var arenaSeq: nat
    var kvPacked: Option<PackedState>
    /** The K rows the latest stream run packed. */
    ghost var packedRows: Keys

    ghost predicate Valid()
      reads this, executor, executor.arena
    {
      && executor.Valid()
      && (kvPacked.Some? ==>
        var state := kvPacked.value;
        && state.stamp <= arenaSeq && state.key.plan.Valid() && state.key.plan.packs
        && KeyShape(packedRows, state.key.b * state.key.hkv, state.skv, state.key.d)
        && (state.stamp == arenaSeq ==> ArenaHolds(state)))
    }

    /** The live workspace belongs to the state's plan and holds its packed rows and padding. */
    ghost predicate ArenaHolds(state: PackedState)
      requires state.key.plan.Valid() && KeyShape(packedRows, state.key.b * state.key.hkv, state.skv, state.key.d)
      reads this, executor, executor.arena
    {
      var job := JobFor(state.key.plan, packedRows, state.key.b * state.key.hkv, state.key.d, state.skv, 0);
      && executor.arenaKey == Some(state.key.plan) && executor.arena != null
      && executor.arena.Length >= job.layout.slots * job.layout.copyFloats
      && job.Packed(executor.arena[..])
    }

    constructor ()
      ensures Valid() && fresh(this) && fresh(executor) && executor.arena == null && kvPacked == None
    {
      executor := new Executor();
      arenaSeq, kvPacked := 0, None;
    }

    /** Rows of K already packed for this buffer; any mismatch returns zero. */
    function PackedPrefix(call: Call, plan: Plan): (decision: Decision)
      requires plan.tileK > 0
      reads this
      ensures decision.prefix <= call.skv
    {
      if !plan.packs then Decision(0, None, None)
      else
        var key := Key(plan, call.k, call.b, call.hkv, call.d);
        if kvPacked.None? then Decision(0, Some(key), None)
        else
          var state := kvPacked.value;
          if state.key != key then Decision(0, Some(key), Some(BufferChanged))
          else if state.stamp != arenaSeq then Decision(0, Some(key), Some(ArenaChanged))
          else if state.skv >= call.skv then Decision(0, Some(key), Some(NonGrowing))
          else if RoundUp(state.skv, plan.tileK) != RoundUp(call.skv, plan.tileK) then
            Decision(0, Some(key), Some(StrideChanged))
          else Decision(state.skv, Some(key), None)
    }

    /** After a stream run, a longer call on the same buffer keeps its rows exactly while the padded
        row stride of the packed layout still has room for it. */
    lemma KeepsWhileStrideHolds(earlier: Call, call: Call, plan: Plan)
      requires plan.tileK > 0 && plan.packs && call == earlier.(skv := call.skv) && earlier.skv < call.skv
      requires kvPacked == Some(PackedState(Key(plan, earlier.k, earlier.b, earlier.hkv, earlier.d), earlier.skv,
        arenaSeq))
      ensures PackedPrefix(call, plan).prefix == if call.skv <= RoundUp(earlier.skv, plan.tileK) then earlier.skv
        else 0
    {
      CeilStable(earlier.skv, call.skv, plan.tileK);
    }

    /** Which answer an earlier stream run gets: another buffer, shape or plan, a run in between, no growth, a padded
        stride that no longer has room; and its rows are kept exactly when there is no reason against it. */
    lemma ReasonTells(call: Call, plan: Plan)
      requires plan.tileK > 0 && plan.packs && kvPacked.Some?
      ensures var state, decision := kvPacked.value, PackedPrefix(call, plan);
        var same := state.key == Key(plan, call.k, call.b, call.hkv, call.d);
        && (decision.reason == Some(BufferChanged) <==> !same)
        && (decision.reason == Some(ArenaChanged) <==> same && state.stamp != arenaSeq)
        && (decision.reason == Some(NonGrowing) <==> same && state.stamp == arenaSeq && call.skv <= state.skv)
        && (decision.reason == Some(StrideChanged) <==>
          same && state.stamp == arenaSeq && state.skv < call.skv && RoundUp(state.skv, plan.tileK) < call.skv)
        && (decision.reason == None <==>
          same && state.stamp == arenaSeq && state.skv < call.skv <= RoundUp(state.skv, plan.tileK))
        && decision.prefix == (if decision.reason == None then state.skv else 0)
    {
      var state := kvPacked.value;
      if state.skv < call.skv { CeilStable(state.skv, call.skv, plan.tileK); }
    }

    /** The stream contract binds growing calls only: a buffer that has grown since the latest stream run kept
        that run's rows. At equal or smaller lengths its rows may have been edited. */
    ghost predicate AppendOnly(call: Call)
      reads this, call.k
    {
      (CallFits(call) && kvPacked.Some? && kvPacked.value.key.k == call.k && kvPacked.value.skv < call.skv) ==>
      call.k.View(kvPacked.value.skv) == packedRows
    }

    /** The gates are enough: the rows they keep are the call's rows, packed where the kernel will look. */
    lemma PrefixIsPacked(call: Call, plan: Plan)
      requires Valid() && plan.Valid() && CallFits(call) && AppendOnly(call)
      requires PackedPrefix(call, plan).prefix > 0
      ensures PackedPrefix(call, plan).prefix < call.skv
      ensures executor.HoldsRows(plan, call, PackedPrefix(call, plan).prefix)
    {
      var state := kvPacked.value;
      var was := JobFor(plan, packedRows, call.b * call.hkv, call.d, state.skv, 0);
      var job := JobOf(plan, call, state.skv);
      assert was.layout == job.layout;
      forall s: nat, p: nat, i: nat | job.layout.Holds(s, p, i) && i < state.skv
        ensures job.At(executor.arena[..], s, p, i) == job.Target(p, i)
      {
        PanelHead(p, call.b * call.hkv, call.d);
        assert was.At(executor.arena[..], s, p, i) == was.Target(p, i);
        assert call.k.View(call.skv)[p / call.d][i] == call.k.View(state.skv)[p / call.d][i];
      }
    }

    /** The rows a call is told to keep. */
    function Prefix(call: Call, plan: Plan): (prefix: nat)
      requires plan.tileK > 0
      reads this
      ensures prefix <= call.skv
    {
      if call.kvCache then PackedPrefix(call, plan).prefix else 0
    }

    /** A call through the stream cache, whatever state the cache is in: its workers read packed copies of the current
        K exactly when the rows it is told to keep are in the workspace it finds. */
    method Call(artifact: nat, plan: Plan, call: Call, scratch: seq<real>) returns (seen: seq<real>)
      requires executor.Valid() && plan.Valid() && CallFits(call) && WorkspaceFits(plan, call)
      modifies this, executor.Footprint()
      ensures executor.Valid() && executor.arenaKey == Some(plan)
      ensures fresh(executor.Footprint() - old(executor.Footprint()))
      ensures Coherent(plan, call, seen) <==> (plan.packs ==> old(executor.Finds(plan, call, Prefix(call, plan))))
      ensures plan.packs ==> executor.arena.Length >= CopiesEnd(plan, call)
      ensures plan.packs ==> (JobOf(plan, call, 0).Packed(executor.arena[..]) <==> Coherent(plan, call, seen))
      ensures arenaSeq == old(arenaSeq) + 1
      ensures kvPacked == if call.kvCache && plan.packs
        then Some(PackedState(Key(plan, call.k, call.b, call.hkv, call.d), call.skv, arenaSeq)) else old(kvPacked)
      ensures packedRows == if call.kvCache && plan.packs then call.k.View(call.skv) else old(packedRows)
    {
      hide Executor.Finds, RoundUp;
      var decision := Decision(0, None, None);
      if call.kvCache { decision := PackedPrefix(call, plan); }
      seen := executor.Run(artifact, plan, call, decision.prefix, scratch);
      arenaSeq := arenaSeq + 1;
      if decision.key.Some? {
        kvPacked := Some(PackedState(decision.key.value, call.skv, arenaSeq));
        packedRows := call.k.View(call.skv);
      }
    }

    /** The rows a sound cache keeps are in the workspace the call finds. */
    lemma PrefixIsFound(call: Call, plan: Plan)
      requires Valid() && plan.Valid() && plan.packs && CallFits(call) && WorkspaceFits(plan, call)
      requires call.kvCache ==> AppendOnly(call)
      ensures executor.Finds(plan, call, Prefix(call, plan))
    {
      if Prefix(call, plan) > 0 {
        PrefixIsPacked(call, plan);
      } else {
        executor.FindsNothing(plan, call);
      }
    }

    /** A call through a sound cache. The packed copies its workers read are the transposed current K. */
    method RunCached(artifact: nat, plan: Plan, call: Call, scratch: seq<real>) returns (seen: seq<real>)
      requires Valid() && plan.Valid() && CallFits(call) && WorkspaceFits(plan, call)
      requires call.kvCache && plan.packs ==> AppendOnly(call)
      modifies this, executor.Footprint()
      ensures Valid() && fresh(executor.Footprint() - old(executor.Footprint()))
      ensures Coherent(plan, call, seen)
      ensures arenaSeq == old(arenaSeq) + 1
      ensures kvPacked == if call.kvCache && plan.packs
        then Some(PackedState(Key(plan, call.k, call.b, call.hkv, call.d), call.skv, arenaSeq)) else old(kvPacked)
      ensures packedRows == if call.kvCache && plan.packs then call.k.View(call.skv) else old(packedRows)
    {
      if plan.packs { PrefixIsFound(call, plan); }
      seen := Call(artifact, plan, call, scratch);
    }

    /** A call that the kernel refuses before it packs anything. By then the plan's workspace is the live one, and
        the run count has not moved. The stream state survives exactly when no current one belongs to another plan. */
    method RunRefused(artifact: nat, plan: Plan)
      requires Valid()
      modifies executor
      ensures executor.Valid() && executor.arenaKey == Some(plan)
      ensures fresh(executor.Footprint() - old(executor.Footprint()))
      ensures Valid() <==> !Displaces(plan)
    {
      var workspace := executor.Template(artifact, plan);
    }

    /** The latest run was a stream call under another plan. */
    predicate Displaces(plan: Plan)
      reads this
    {
      kvPacked.Some? && kvPacked.value.stamp == arenaSeq && kvPacked.value.key.plan != plan
    }

    /** After a displacing refusal the gates still keep the stream's rows for its next growing call, which packs
        behind them in a zeroed workspace. The workers' writes end in a right copy only if those rows are zero. */
    lemma DisplacedRowsLost(earlier: Call, call: Call, plan: Plan, mem: seq<real>, trace: seq<Write>)
      requires plan.Valid() && plan.packs && call == earlier.(skv := call.skv) && earlier.skv < call.skv
      requires CallFits(call)
      requires kvPacked == Some(PackedState(Key(plan, earlier.k, earlier.b, earlier.hkv, earlier.d), earlier.skv,
        arenaSeq))
      requires call.skv <= RoundUp(earlier.skv, plan.tileK) && AllZero(mem)
      requires |mem| >= JobOf(plan, call, earlier.skv).layout.slots * JobOf(plan, call, earlier.skv).layout.copyFloats
      requires forall t :: 0 <= t < |trace| ==> Legal(JobOf(plan, call, earlier.skv), trace[t])
      requires forall w: Write :: Legal(JobOf(plan, call, earlier.skv), w) ==> w in trace
      ensures PackedPrefix(call, plan).prefix == earlier.skv
      ensures var job := JobOf(plan, call, earlier.skv);
        job.Packed(Apply(job, mem, trace)) <==> ZeroRows(call.k.rows, earlier.skv)
    {
      KeepsWhileStrideHolds(earlier, call, plan);
      var job := JobOf(plan, call, earlier.skv);
      ZeroedHold(job, mem, call.k.rows);
      AnyOrderPacks(job, mem, trace);
    }

    /** A tuning run: it bumps the run count, so no earlier stream state survives it. */
    method RunPlan(artifact: nat, plan: Plan, call: Call, prefix: nat, scratch: seq<real>) returns (seen: seq<real>)
      requires Valid() && plan.Valid() && CallFits(call) && WorkspaceFits(plan, call) && prefix <= call.skv
      requires plan.packs && prefix > 0 ==> executor.HoldsRows(plan, call, prefix)
      modifies this, executor.Footprint()
      ensures Valid() && fresh(executor.Footprint() - old(executor.Footprint()))
      ensures Coherent(plan, call, seen)
      ensures plan.packs ==> executor.HoldsRows(plan, call, call.skv)
      ensures arenaSeq == old(arenaSeq) + 1 && kvPacked == old(kvPacked) && packedRows == old(packedRows)
    {
      if plan.packs && prefix == 0 { executor.FindsNothing(plan, call); }
      seen := executor.Run(artifact, plan, call, prefix, scratch);
      arenaSeq := arenaSeq + 1;
    }

    /** One measurement of a candidate plan: a discarded run, then the timed run, priced for streams
        with every row of the tuning call retained. */
    method Measure(artifact: nat, plan: Plan, tuneCall: Call, stream: bool, scratch: seq<real>)
      returns (seen: seq<real>)
      requires Valid() && plan.Valid() && CallFits(tuneCall) && WorkspaceFits(plan, tuneCall)
      modifies this, executor.Footprint()
      ensures Valid() && fresh(executor.Footprint() - old(executor.Footprint()))
      ensures Coherent(plan, tuneCall, seen)
      ensures arenaSeq > old(arenaSeq) && kvPacked == old(kvPacked) && packedRows == old(packedRows)
    {
      seen := RunPlan(artifact, plan, tuneCall, 0, scratch);
      var prefix := if stream && plan.packs then tuneCall.skv else 0;
      seen := RunPlan(artifact, plan, tuneCall, prefix, scratch);
    }
  }

  /** Every packed row and padding cell that was read is the call's current K transposed. */
  ghost predicate Coherent(plan: Plan, call: Call, seen: seq<real>)
    reads call.k
  {
    plan.Valid() && CallFits(call) && plan.packs ==>
      var job := JobOf(plan, call, 0);
      |seen| >= job.layout.slots * job.layout.copyFloats + plan.tileK && job.Packed(seen)
  }

  // ---- A refused call between two stream calls -----------------------------------

  /** A stream call, a refused call, one more row, and the stream's next call. It reads its K exactly when the refused
      call had the stream's plan, the padded stride has no room for the row, or every earlier row is zero. */
  method AroundRefusal(
    runtime: Runtime, artifact: nat, plan: Plan, refused: Plan, earlier: Call, row: seq<Vec>, scratch: seq<real>)
    returns (seen: seq<real>)
    requires runtime.Valid() && plan.Valid() && plan.packs && earlier.kvCache && CallFits(earlier)
    requires runtime.AppendOnly(earlier)
    requires |row| == earlier.k.heads && forall h :: 0 <= h < earlier.k.heads ==> |row[h]| == earlier.k.d
    requires WorkspaceFits(plan, earlier) && WorkspaceFits(plan, earlier.(skv := earlier.skv + 1))
    modifies runtime, runtime.executor.Footprint(), earlier.k
    ensures CallFits(earlier.(skv := earlier.skv + 1)) && earlier.k.rows == Extended(old(earlier.k.rows), row)
    ensures Coherent(plan, earlier.(skv := earlier.skv + 1), seen) <==>
      (refused == plan || RoundUp(earlier.skv, plan.tileK) == earlier.skv || ZeroRows(old(earlier.k.rows), earlier.skv))
  {
    hide Coherent, Executor.Finds, WorkspaceFits, Extended, ZeroRows, RoundUp, Runtime.PackedPrefix, FirstRows;
    ghost var before := earlier.k.rows;
    StreamThenRefused(runtime, artifact, plan, refused, earlier, scratch);
    earlier.k.Append(row);
    AfterRefusal(runtime, plan, refused, earlier, before, row);
    seen := runtime.Call(artifact, plan, earlier.(skv := earlier.skv + 1), scratch);
  }

  method StreamThenRefused(
    runtime: Runtime, artifact: nat, plan: Plan, refused: Plan, earlier: Call, scratch: seq<real>)
    requires runtime.Valid() && plan.Valid() && plan.packs && earlier.kvCache && CallFits(earlier)
    requires runtime.AppendOnly(earlier) && WorkspaceFits(plan, earlier)
    modifies runtime, runtime.executor.Footprint()
    ensures runtime.executor.Valid() && runtime.executor.arenaKey == Some(refused)
    ensures fresh(runtime.executor.Footprint() - old(runtime.executor.Footprint()))
    ensures runtime.packedRows == FirstRows(earlier.k.rows, earlier.skv)
    ensures runtime.kvPacked == Some(PackedState(
      Key(plan, earlier.k, earlier.b, earlier.hkv, earlier.d), earlier.skv, runtime.arenaSeq))
    ensures refused == plan ==> runtime.Valid()
  {
    hide Coherent, WorkspaceFits, FirstRows, KeyShape, Runtime.Valid, Runtime.AppendOnly, Runtime.PackedPrefix;
    var seen := runtime.RunCached(artifact, plan, earlier, scratch);
    runtime.RunRefused(artifact, refused);
  }

  lemma AfterRefusal(runtime: Runtime, plan: Plan, refused: Plan, earlier: Call, before: Keys, row: seq<Vec>)
    requires runtime.executor.Valid() && runtime.executor.arenaKey == Some(refused)
    requires plan.Valid() && plan.packs && earlier.kvCache && CallFits(earlier.(skv := earlier.skv + 1))
    requires WorkspaceFits(plan, earlier.(skv := earlier.skv + 1)) && earlier.k.rows == Extended(before, row)
    requires forall h :: 0 <= h < |before| ==> earlier.skv <= |before[h]|
    requires runtime.packedRows == FirstRows(before, earlier.skv)
    requires runtime.kvPacked == Some(PackedState(
      Key(plan, earlier.k, earlier.b, earlier.hkv, earlier.d), earlier.skv, runtime.arenaSeq))
    requires refused == plan ==> runtime.Valid()
    ensures var next := earlier.(skv := earlier.skv + 1);
      runtime.executor.Finds(plan, next, runtime.Prefix(next, plan)) <==>
      (refused == plan || RoundUp(earlier.skv, plan.tileK) == earlier.skv || ZeroRows(before, earlier.skv))
  {
    hide WorkspaceFits, Extended, ZeroRows, RoundUp, KeyShape, Executor.HoldsRows, Runtime.Valid, Runtime.PackedPrefix;
    var next := earlier.(skv := earlier.skv + 1);
    ViewGrows(before, row, earlier.skv);
    CeilCovers(earlier.skv, plan.tileK);
    runtime.KeepsWhileStrideHolds(earlier, next, plan);
    if refused == plan { runtime.PrefixIsFound(next, plan); }
    NoRowsZero(earlier.k.rows);
  }

  lemma NoRowsZero(rows: Keys)
    ensures ZeroRows(rows, 0)
  {
  }

  /** Earlier rows neither change nor become zero by an append. */
  lemma ViewGrows(rows: Keys, row: seq<Vec>, keys: nat)
    requires forall h :: 0 <= h < |rows| ==> keys <= |rows[h]|
    ensures FirstRows(Extended(rows, row), keys) == FirstRows(rows, keys)
    ensures ZeroRows(Extended(rows, row), keys) <==> ZeroRows(rows, keys)
  {
    ghost var more := Extended(rows, row);
    forall h | 0 <= h < |rows| ensures |rows[h]| <= |more[h]| && more[h][..keys] == rows[h][..keys] {
    }
    forall h, i | 0 <= h < |rows| && 0 <= i < keys ensures more[h][i] == rows[h][i] {
      assert more[h][..keys][i] == rows[h][..keys][i];
    }
    if ZeroRows(more, keys) {
      forall h, i, p | 0 <= h < |rows| && 0 <= i < |rows[h]| && i < keys && 0 <= p < |rows[h][i]|
        ensures rows[h][i][p] == 0.0
      {
        assert more[h][i] == rows[h][i];
      }
    }
  }

  /** One key of one component, 1.0, packed; a refused 2D call of otherwise equal sizes; a second key. The stream's
      next call does not read its K. */
  method LostRow() returns (k: KBuffer, plan: Plan, call: Call, seen: seq<real>)
    ensures plan.Valid() && CallFits(call) && call.k == k && fresh(k) && k.rows == [[[1.0], [1.0]]]
    ensures !Coherent(plan, call, seen)
  {
    hide Coherent;
    var runtime := new Runtime();
    plan := Plan(0, SplitKeys, true, 16, 1024, [0], [0], 1024, 2048);
    var refused := plan.(lowering := Grid2D);
    k := new KBuffer(1, 1);
    assert k.rows == [[]];
    k.Append([[1.0]]);
    assert CountOf([0], 0, 1) == 1;
    assert k.rows[0] == [[1.0]];
    var earlier := Call(k, 1, 1, 1, 1, true);
    ghost var rows := k.rows;
    assert rows == [[[1.0]]];
    call := earlier.(skv := 2);
    seen := AroundRefusal(runtime, 0, plan, refused, earlier, [[1.0]], []);
    assert rows[0][0][0] != 0.0;
    assert k.rows[0] == [[1.0], [1.0]];
  }

  // ---- Whole runs --------------------------------------------------------------

  /** What can happen to a runtime and its callers' buffers, in any order. */
  datatype Event =
    | CallCached(artifact: nat, plan: Plan, call: Call, scratch: seq<real>)
    | CallTuned(artifact: nat, plan: Plan, call: Call, stream: bool, scratch: seq<real>)
    | CallRefused(artifact: nat, plan: Plan)
    | AppendRow(k: KBuffer, row: seq<Vec>)
    | EditRow(k: KBuffer, h: nat, i: nat, values: Vec)

  /** A call whose kernel ran. */
  predicate IsServed(event: Event) { event.CallCached? || event.CallTuned? }

  function BufferOf(event: Event): KBuffer
    requires !event.CallRefused?
  {
    if event.AppendRow? || event.EditRow? then event.k else event.call.k
  }

  /** A buffer's contents. */
  datatype Contents = Contents(length: nat, rows: Keys)

  ghost function ContentsOf(k: KBuffer): Contents
    reads k
  {
    Contents(k.length, k.rows)
  }

  /** What an event makes of a buffer. */
  ghost function Moved(c: Contents, event: Event, k: KBuffer): Contents {
    if event.AppendRow? && event.k == k then Contents(c.length + 1, Extended(c.rows, event.row))
    else if event.EditRow? && event.k == k then Contents(c.length, Edited(c.rows, event.h, event.i, event.values))
    else c
  }

  /** A buffer's contents after the first n events. */
  ghost function After(start: Contents, events: seq<Event>, n: nat, k: KBuffer): Contents
    requires n <= |events|
  {
    if n == 0 then start else Moved(After(start, events, n - 1, k), events[n - 1], k)
  }

  /** A validated event: the shapes agree and, for a call that runs, the workspace passes the kernel's size check and
      the buffer holds enough rows by then. */
  ghost predicate EventReady(event: Event, now: Contents) {
    match event
    case CallRefused(_, _) => true
    case AppendRow(k, row) => |row| == k.heads && forall h :: 0 <= h < k.heads ==> |row[h]| == k.d
    case EditRow(k, h, i, values) => h < k.heads && i < now.length && |values| == k.d
    case _ =>
      var call := event.call;
      && event.plan.Valid() && WorkspaceFits(event.plan, call)
      && call.k.heads == call.b * call.hkv && call.k.d == call.d && call.skv <= now.length
  }

  predicate IsStream(event: Event) { event.CallCached? && event.call.kvCache && event.plan.packs }

  /** The latest stream call among the first n events, or -1. */
  function LatestStream(events: seq<Event>, n: nat): (j: int)
    requires n <= |events|
    ensures -1 <= j < n && (j >= 0 ==> IsStream(events[j]))
  {
    if n == 0 then -1 else if IsStream(events[n - 1]) then n - 1 else LatestStream(events, n - 1)
  }

  /** The stream contract at event n: if it is a stream call that grows the buffer of the latest stream call,
      then the rows that call packed have not changed in between. Nothing else restricts edits. */
  ghost predicate KeepsPackedRows(events: seq<Event>, starts: map<KBuffer, Contents>, n: nat)
    requires n < |events|
  {
    var j := LatestStream(events, n);
    (IsStream(events[n]) && j >= 0 && events[j].call.k == events[n].call.k && events[j].call.skv < events[n].call.skv
    && events[n].call.k in starts) ==>
      var k, packed := events[n].call.k, events[j].call.skv;
      FirstRows(After(starts[k], events, n, k).rows, packed) == FirstRows(After(starts[k], events, j, k).rows, packed)
  }

  /** The latest call that ran among the first n events, or -1. */
  function LatestServed(events: seq<Event>, n: nat): (j: int)
    requires n <= |events|
    ensures -1 <= j < n
  {
    if n == 0 then -1 else if IsServed(events[n - 1]) then n - 1 else LatestServed(events, n - 1)
  }

  /** A refused call does not displace a stream: the latest call that ran is no stream call, or has its plan. */
  ghost predicate DisplacesNothing(events: seq<Event>, n: nat)
    requires n < |events|
  {
    var j := LatestStream(events, n);
    (events[n].CallRefused? && j >= 0 && LatestServed(events, n) == j) ==> events[j].plan == events[n].plan
  }

  ghost predicate ReadyAt(events: seq<Event>, starts: map<KBuffer, Contents>, n: nat)
    requires n < |events|
  {
    if events[n].CallRefused? then DisplacesNothing(events, n)
    else
      var k := BufferOf(events[n]);
      && k in starts && EventReady(events[n], After(starts[k], events, n, k)) && KeepsPackedRows(events, starts, n)
  }

  /** Every event is ready when its turn comes. */
  ghost predicate AllReady(events: seq<Event>, starts: map<KBuffer, Contents>) {
    forall n :: 0 <= n < |events| ==> ReadyAt(events, starts, n)
  }

  ghost function Starts(buffers: set<KBuffer>): map<KBuffer, Contents>
    reads buffers
  {
    map k | k in buffers :: ContentsOf(k)
  }

  /** A packing call read, in every packed row and padding cell, the K its buffer held at that moment. */
  ghost predicate Served(event: Event, now: Contents, seen: seq<real>) {
    IsServed(event) && event.plan.packs ==>
      var call, k := event.call, FirstRows(now.rows, event.call.skv);
      && event.plan.Valid() && KeyShape(k, call.b * call.hkv, call.skv, call.d)
      && var job := JobFor(event.plan, k, call.b * call.hkv, call.d, call.skv, 0);
         |seen| >= job.layout.slots * job.layout.copyFloats + event.plan.tileK && job.Packed(seen)
  }

  ghost predicate ServedAt(events: seq<Event>, starts: map<KBuffer, Contents>, n: nat, seen: seq<real>)
    requires n < |events|
  {
    IsServed(events[n]) ==>
      var k := BufferOf(events[n]);
      k in starts && Served(events[n], After(starts[k], events, n, k), seen)
  }

  /** Over every sequence of stream calls, tuning runs, refused calls, appends and edits in place, on any number of
      buffers, with shrinking, equal and growing lengths alike, every packing call that ran read the K of its own
      moment, transposed and zero-padded. */
  method Session(runtime: Runtime, events: seq<Event>, ghost buffers: set<KBuffer>) returns (log: seq<seq<real>>)
    requires runtime.Valid() && runtime.kvPacked.None?
    requires (forall k :: k in buffers ==> k.Valid()) && AllReady(events, Starts(buffers))
    modifies runtime, runtime.executor.Footprint(), buffers
    ensures runtime.Valid() && |log| == |events|
    ensures forall n :: 0 <= n < |events| ==> ServedAt(events, old(Starts(buffers)), n, log[n])
  {
    hide ReadyAt, ServedAt, Recorded, After, Followed;
    ghost var starts := Starts(buffers);
    log := [];
    NothingYet(runtime, events, starts, buffers);
    for n := 0 to |events|
      invariant runtime.Valid() && fresh(runtime.executor.Footprint() - old(runtime.executor.Footprint()))
      invariant Recorded(runtime, events, starts, n) && Followed(buffers, events, starts, n)
      invariant |log| == n && forall m :: 0 <= m < n ==> ServedAt(events, starts, m, log[m])
    {
      var seen := Handle(runtime, events, n, starts, buffers);
      log := log + [seen];
    }
  }

  lemma NothingYet(runtime: Runtime, events: seq<Event>, starts: map<KBuffer, Contents>, buffers: set<KBuffer>)
    requires runtime.kvPacked.None? && starts == Starts(buffers) && forall k :: k in buffers ==> k.Valid()
    ensures Recorded(runtime, events, starts, 0) && Followed(buffers, events, starts, 0)
  {
  }

  /** The runtime's stream state is the latest stream call's, with the rows its buffer held then, and looks current
      exactly while no other call has run. */
  ghost predicate Recorded(runtime: Runtime, events: seq<Event>, starts: map<KBuffer, Contents>, n: nat)
    requires n <= |events|
    reads runtime
  {
    var j := LatestStream(events, n);
    if j < 0 then runtime.kvPacked.None?
    else
      var call := events[j].call;
      && call.k in starts && runtime.kvPacked.Some?
      && runtime.kvPacked.value.key.k == call.k && runtime.kvPacked.value.skv == call.skv
      && runtime.kvPacked.value.key.plan == events[j].plan
      && (runtime.kvPacked.value.stamp == runtime.arenaSeq <==> LatestServed(events, n) == j)
      && runtime.packedRows == FirstRows(After(starts[call.k], events, j, call.k).rows, call.skv)
  }

  /** The buffers hold what the first n events made of them. */
  ghost predicate Followed(buffers: set<KBuffer>, events: seq<Event>, starts: map<KBuffer, Contents>, n: nat)
    requires n <= |events| && starts.Keys == buffers
    reads buffers
  {
    forall k :: k in buffers ==> k.Valid() && ContentsOf(k) == After(starts[k], events, n, k)
  }

  /** One event: afterwards the buffers and the stream state are those of one event more. */
  method Handle(
    runtime: Runtime, events: seq<Event>, n: nat, ghost starts: map<KBuffer, Contents>, ghost buffers: set<KBuffer>)
    returns (seen: seq<real>)
    requires n < |events| && ReadyAt(events, starts, n) && starts.Keys == buffers
    requires runtime.Valid() && Recorded(runtime, events, starts, n) && Followed(buffers, events, starts, n)
    modifies runtime, runtime.executor.Footprint(), buffers
    ensures runtime.Valid() && fresh(runtime.executor.Footprint() - old(runtime.executor.Footprint()))
    ensures Recorded(runtime, events, starts, n + 1) && Followed(buffers, events, starts, n + 1)
    ensures ServedAt(events, starts, n, seen)
  {
    if events[n].CallCached? {
      seen := HandleCached(runtime, events, n, starts, buffers);
    } else if events[n].CallTuned? {
      seen := HandleTuned(runtime, events, n, starts, buffers);
    } else if events[n].CallRefused? {
      HandleRefused(runtime, events, n, starts, buffers);
      seen := [];
    } else {
      HandleWrite(runtime, events, n, starts, buffers);
      seen := [];
    }
  }

  /** A refused call leaves buffers and stream state as they were. */
  method HandleRefused(
    runtime: Runtime, events: seq<Event>, n: nat, ghost starts: map<KBuffer, Contents>, ghost buffers: set<KBuffer>)
    requires n < |events| && events[n].CallRefused? && ReadyAt(events, starts, n) && starts.Keys == buffers
    requires runtime.Valid() && Recorded(runtime, events, starts, n) && Followed(buffers, events, starts, n)
    modifies runtime, runtime.executor.Footprint()
    ensures runtime.Valid() && fresh(runtime.executor.Footprint() - old(runtime.executor.Footprint()))
    ensures Recorded(runtime, events, starts, n + 1) && Followed(buffers, events, starts, n + 1)
    ensures ServedAt(events, starts, n, [])
  {
    hide KeyShape, WorkspaceFits, Job.Packed;
    runtime.RunRefused(events[n].artifact, events[n].plan);
  }

  /** An append or an edit changes its buffer alone. */
  method HandleWrite(
    runtime: Runtime, events: seq<Event>, n: nat, ghost starts: map<KBuffer, Contents>, ghost buffers: set<KBuffer>)
    requires n < |events| && (events[n].AppendRow? || events[n].EditRow?) && ReadyAt(events, starts, n)
    requires starts.Keys == buffers
    requires runtime.Valid() && Recorded(runtime, events, starts, n) && Followed(buffers, events, starts, n)
    modifies buffers
    ensures runtime.Valid() && runtime.executor.Footprint() == old(runtime.executor.Footprint())
    ensures Recorded(runtime, events, starts, n + 1) && Followed(buffers, events, starts, n + 1)
    ensures ServedAt(events, starts, n, [])
  {
    hide WorkspaceFits, Job.Packed;
    if events[n].AppendRow? {
      events[n].k.Append(events[n].row);
    } else {
      events[n].k.Edit(events[n].h, events[n].i, events[n].values);
    }
  }

  method HandleCached(
    runtime: Runtime, events: seq<Event>, n: nat, ghost starts: map<KBuffer, Contents>, ghost buffers: set<KBuffer>)
    returns (seen: seq<real>)
    requires n < |events| && events[n].CallCached? && ReadyAt(events, starts, n) && starts.Keys == buffers
    requires runtime.Valid() && Recorded(runtime, events, starts, n) && Followed(buffers, events, starts, n)
    modifies runtime, runtime.executor.Footprint()
    ensures runtime.Valid() && fresh(runtime.executor.Footprint() - old(runtime.executor.Footprint()))
    ensures Recorded(runtime, events, starts, n + 1) && Followed(buffers, events, starts, n + 1)
    ensures ServedAt(events, starts, n, seen)
  {
    hide KeyShape, WorkspaceFits, Job.Packed;
    var event := events[n];
    seen := runtime.RunCached(event.artifact, event.plan, event.call, event.scratch);
  }

  method HandleTuned(
    runtime: Runtime, events: seq<Event>, n: nat, ghost starts: map<KBuffer, Contents>, ghost buffers: set<KBuffer>)
    returns (seen: seq<real>)
    requires n < |events| && events[n].CallTuned? && ReadyAt(events, starts, n) && starts.Keys == buffers
    requires runtime.Valid() && Recorded(runtime, events, starts, n) && Followed(buffers, events, starts, n)
    modifies runtime, runtime.executor.Footprint()
    ensures runtime.Valid() && fresh(runtime.executor.Footprint() - old(runtime.executor.Footprint()))
    ensures Recorded(runtime, events, starts, n + 1) && Followed(buffers, events, starts, n + 1)
    ensures ServedAt(events, starts, n, seen)
  {
    hide KeyShape, WorkspaceFits, Job.Packed;
    var event := events[n];
    seen := runtime.Measure(event.artifact, event.plan, event.call, event.stream, event.scratch);
  }
}
