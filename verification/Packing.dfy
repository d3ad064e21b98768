/** The transposed, zero-padded copy of K. Each owner group keeps one copy; its workers divide the
    panels, one panel per (head, component), and write only rows at or above the retained prefix. */
module Packing {
  import opened Integers
  import opened Vectors

  /** heads x rows x components */
  type Keys = seq<seq<Vec>>

  ghost predicate KeyShape(k: Keys, heads: nat, rows: nat, d: nat) {
    |k| == heads && forall h :: 0 <= h < heads ==>
      |k[h]| == rows && forall i :: 0 <= i < rows ==> |k[h][i]| == d
  }

  /** Where copies and panels lie in the workspace, counted in floats. */
  datatype Layout = Layout(slots: nat, panels: nat, stride: nat, copyFloats: nat) {
    ghost predicate Valid() {
      panels * stride <= copyFloats
    }

    ghost predicate Holds(slot: nat, panel: nat, ki: nat) {
      slot < slots && panel < panels && ki < stride
    }

    function Address(slot: nat, panel: nat, ki: nat): nat {
      slot * copyFloats + panel * stride + ki
    }

    lemma InCopy(panel: nat, ki: nat)
      requires Valid() && panel < panels && ki < stride
      ensures panel * stride + ki < copyFloats
    {
      MulMono(panel + 1, panels, stride);
      assert (panel + 1) * stride == panel * stride + stride;
    }

    lemma AddressBound(slot: nat, panel: nat, ki: nat)
      requires Valid() && Holds(slot, panel, ki)
      ensures Address(slot, panel, ki) < slots * copyFloats
    {
      InCopy(panel, ki);
      MulMono(slot + 1, slots, copyFloats);
      assert (slot + 1) * copyFloats == slot * copyFloats + copyFloats;
    }

    /** No two cells share an address. */
    lemma AddressInjective(s: nat, p: nat, i: nat, t: nat, q: nat, j: nat)
      requires Valid() && Holds(s, p, i) && Holds(t, q, j) && Address(s, p, i) == Address(t, q, j)
      ensures s == t && p == q && i == j
    {
      InCopy(p, i);
      InCopy(q, j);
      PairUnique(s, p * stride + i, t, q * stride + j, copyFloats);
      PairUnique(p, i, q, j, stride);
    }
  }

  /** The value a packed cell must have: K transposed, zero in the padding. */
  ghost function Cell(k: Keys, heads: nat, rows: nat, d: nat, panel: nat, ki: nat): real
    requires KeyShape(k, heads, rows, d) && panel < heads * d
  {
    PanelHead(panel, heads, d);
    if ki < rows then k[panel / d][ki][panel % d] else 0.0
  }

  lemma PanelHead(panel: nat, heads: nat, d: nat)
    requires panel < heads * d
    ensures d > 0 && panel / d < heads && panel % d < d
  {
    assert d > 0;
    DivModSplit(panel, d);
    if heads <= panel / d { MulMono(heads, panel / d, d); }
  }

  /** One copy of K: which layout holds it, what it should contain, where packing starts. */
  datatype Job = Job(layout: Layout, k: Keys, heads: nat, rows: nat, d: nat, prefix: nat) {
    ghost predicate Valid() {
      && layout.Valid() && KeyShape(k, heads, rows, d) && layout.panels == heads * d
      && prefix <= rows <= layout.stride
    }

    ghost function Target(panel: nat, ki: nat): real
      requires Valid() && panel < layout.panels
    {
      Cell(k, heads, rows, d, panel, ki)
    }

    /** The cells of rows lo .. hi hold their targets. */
    ghost predicate RowsHold(mem: seq<real>, lo: nat, hi: nat)
      requires Valid() && |mem| >= layout.slots * layout.copyFloats && hi <= layout.stride
    {
      forall s: nat, p: nat, i: nat :: layout.Holds(s, p, i) && lo <= i < hi ==> At(mem, s, p, i) == Target(p, i)
    }

    ghost function At(mem: seq<real>, s: nat, p: nat, i: nat): real
      requires Valid() && |mem| >= layout.slots * layout.copyFloats && layout.Holds(s, p, i)
    {
      layout.AddressBound(s, p, i);
      mem[layout.Address(s, p, i)]
    }

    /** Every cell of every copy, rows and padding, holds its target. */
    ghost predicate Packed(mem: seq<real>)
      requires Valid() && |mem| >= layout.slots * layout.copyFloats
    {
      RowsHold(mem, 0, layout.stride)
    }
  }

  // ---- Any interleaving of the workers' writes --------------------------------

  datatype Write = Write(slot: nat, panel: nat, ki: nat)

  ghost predicate Legal(job: Job, w: Write) {
    job.layout.Holds(w.slot, w.panel, w.ki) && job.prefix <= w.ki
  }

  /** The memory after a sequence of writes, whoever made them. */
  ghost function Apply(job: Job, mem: seq<real>, trace: seq<Write>): (r: seq<real>)
    requires job.Valid() && |mem| >= job.layout.slots * job.layout.copyFloats
    requires forall i :: 0 <= i < |trace| ==> Legal(job, trace[i])
    ensures |r| == |mem|
  {
    if trace == [] then mem
    else
      var w := trace[|trace| - 1];
      assert Legal(job, w);
      job.layout.AddressBound(w.slot, w.panel, w.ki);
      Apply(job, mem, trace[..|trace| - 1])[job.layout.Address(w.slot, w.panel, w.ki) := job.Target(w.panel, w.ki)]
  }

  /** At every moment a cell holds its old value or its target, and its target once written. */
  lemma {:induction false} CellDuring(job: Job, mem: seq<real>, trace: seq<Write>, s: nat, p: nat, i: nat)
    requires job.Valid() && |mem| >= job.layout.slots * job.layout.copyFloats && job.layout.Holds(s, p, i)
    requires forall t :: 0 <= t < |trace| ==> Legal(job, trace[t])
    ensures job.At(Apply(job, mem, trace), s, p, i)
         == if Write(s, p, i) in trace then job.Target(p, i) else job.At(mem, s, p, i)
  {
    if trace != [] {
      var last := trace[|trace| - 1];
      CellDuring(job, mem, trace[..|trace| - 1], s, p, i);
      assert trace == trace[..|trace| - 1] + [last];
      job.layout.AddressBound(s, p, i);
      job.layout.AddressBound(last.slot, last.panel, last.ki);
      if job.layout.Address(s, p, i) == job.layout.Address(last.slot, last.panel, last.ki) {
        job.layout.AddressInjective(s, p, i, last.slot, last.panel, last.ki);
      }
    }
  }

  /** A suffix pack, in any order, ends in the full transposed, zero-padded pack exactly when the retained prefix
      was valid to begin with. */
  lemma AnyOrderPacks(job: Job, mem: seq<real>, trace: seq<Write>)
    requires job.Valid() && |mem| >= job.layout.slots * job.layout.copyFloats
    requires forall t :: 0 <= t < |trace| ==> Legal(job, trace[t])
    requires forall w: Write :: Legal(job, w) ==> w in trace
    ensures job.Packed(Apply(job, mem, trace)) <==> job.RowsHold(mem, 0, job.prefix)
  {
    ghost var after := Apply(job, mem, trace);
    forall s: nat, p: nat, i: nat | job.layout.Holds(s, p, i)
      ensures job.At(after, s, p, i) == if i < job.prefix then job.At(mem, s, p, i) else job.Target(p, i)
    {
      CellDuring(job, mem, trace, s, p, i);
      assert Legal(job, Write(s, p, i)) <==> job.prefix <= i;
    }
  }

  /** With the whole length retained, only padding that is already zero is rewritten: no barrier is
      needed, because every read between any two writes sees the packed copy. */
  lemma NoBarrierNeeded(job: Job, mem: seq<real>, trace: seq<Write>)
    requires job.Valid() && |mem| >= job.layout.slots * job.layout.copyFloats && job.prefix == job.rows
    requires forall t :: 0 <= t < |trace| ==> Legal(job, trace[t])
    requires job.Packed(mem)
    ensures job.Packed(Apply(job, mem, trace))
  {
    forall s: nat, p: nat, i: nat | job.layout.Holds(s, p, i)
      ensures job.At(Apply(job, mem, trace), s, p, i) == job.Target(p, i)
    {
      CellDuring(job, mem, trace, s, p, i);
    }
  }

  lemma ApplyNothing(job: Job, mem: seq<real>)
    requires job.Valid() && |mem| >= job.layout.slots * job.layout.copyFloats
    ensures Apply(job, mem, []) == mem
  {
  }

  lemma {:induction false} ApplyJoins(job: Job, mem: seq<real>, first: seq<Write>, second: seq<Write>)
    requires job.Valid() && |mem| >= job.layout.slots * job.layout.copyFloats
    requires forall t :: 0 <= t < |first| ==> Legal(job, first[t])
    requires forall t :: 0 <= t < |second| ==> Legal(job, second[t])
    ensures forall t :: 0 <= t < |first + second| ==> Legal(job, (first + second)[t])
    ensures Apply(job, mem, first + second) == Apply(job, Apply(job, mem, first), second)
  {
    if second == [] {
      assert first + second == first;
    } else {
      var init := second[..|second| - 1];
      ApplyJoins(job, mem, first, init);
      assert (first + second)[..|first + second| - 1] == first + init;
    }
  }

  // ---- Which worker writes what ------------------------------------------------

  /** The slot of a group's copy, -1 when the group keeps none. */
  method OwnerSlot(group: nat, owners: seq<nat>) returns (slot: int)
    ensures slot == SlotOf(group, owners)
  {
    for i := 0 to |owners|
      invariant forall j :: 0 <= j < i ==> owners[j] != group
      invariant SlotOf(group, owners) == SlotFrom(group, owners, i)
    {
      if owners[i] == group { return i; }
    }
    slot := -1;
  }

  function SlotFrom(group: nat, owners: seq<nat>, i: nat): int
    requires i <= |owners|
    decreases |owners| - i
  {
    if i == |owners| then -1 else if owners[i] == group then i else SlotFrom(group, owners, i + 1)
  }

  function SlotOf(group: nat, owners: seq<nat>): int {
    SlotFrom(group, owners, 0)
  }

  lemma {:induction false} SlotFound(group: nat, owners: seq<nat>, i: nat, at: nat)
    requires i <= at < |owners| && owners[at] == group
    requires forall j :: i <= j < at ==> owners[j] != group
    ensures SlotFrom(group, owners, i) == at
    decreases at - i
  {
    if i < at { SlotFound(group, owners, i + 1, at); }
  }

  lemma {:induction false} SlotSound(group: nat, owners: seq<nat>, i: nat)
    requires i <= |owners|
    ensures SlotFrom(group, owners, i) < |owners|
    ensures SlotFrom(group, owners, i) >= 0 ==> owners[SlotFrom(group, owners, i)] == group
    ensures SlotFrom(group, owners, i) >= -1
    decreases |owners| - i
  {
    if i < |owners| { SlotSound(group, owners, i + 1); }
  }

  /** The copy a worker of the group reads: its own, or the first one. */
  method LocalSlot(group: nat, owners: seq<nat>) returns (slot: nat)
    requires owners != []
    ensures slot < |owners| && (group in owners ==> owners[slot] == group)
  {
    var own := OwnerSlot(group, owners);
    SlotSound(group, owners, 0);
    if group in owners {
      var at: nat :| at < |owners| && owners[at] == group && forall j :: 0 <= j < at ==> owners[j] != group by {
        FirstIndex(group, owners);
      }
      SlotFound(group, owners, 0, at);
    }
    slot := if own >= 0 then own else 0;
  }

  /** The copy every worker reads. */
  method WorkerSlots(groups: seq<nat>, owners: seq<nat>) returns (slots: seq<nat>)
    requires owners != []
    ensures |slots| == |groups| && forall w :: 0 <= w < |groups| ==>
      slots[w] < |owners| && (groups[w] in owners ==> owners[slots[w]] == groups[w])
  {
    slots := [];
    for w := 0 to |groups|
      invariant |slots| == w && forall v :: 0 <= v < w ==>
        slots[v] < |owners| && (groups[v] in owners ==> owners[slots[v]] == groups[v])
    {
      var slot := LocalSlot(groups[w], owners);
      slots := slots + [slot];
    }
  }

  lemma FirstIndex(group: nat, owners: seq<nat>)
    requires group in owners
    ensures exists at: nat :: at < |owners| && owners[at] == group && forall j :: 0 <= j < at ==> owners[j] != group
  {
    var at := 0;
    while owners[at] != group
      invariant 0 <= at < |owners| && forall j :: 0 <= j < at ==> owners[j] != group
      decreases |owners| - at
    {
      at := at + 1;
    }
  }

  /** How many of the first n workers belong to the group. */
  function CountOf(groups: seq<nat>, group: nat, n: nat): nat
    requires n <= |groups|
  {
    if n == 0 then 0 else CountOf(groups, group, n - 1) + if groups[n - 1] == group then 1 else 0
  }

  /** A worker's rank among its group, and the group's size. */
  method GroupPosition(groups: seq<nat>, worker: nat) returns (rank: nat, members: nat)
    requires worker < |groups|
    ensures rank == CountOf(groups, groups[worker], worker) && members == CountOf(groups, groups[worker], |groups|)
    ensures rank < members
  {
    var group := groups[worker];
    rank, members := 0, 0;
    for i := 0 to |groups|
      invariant rank == CountOf(groups, group, if i < worker then i else worker)
      invariant members == CountOf(groups, group, i)
    {
      if groups[i] == group {
        if i < worker { rank := rank + 1; }
        members := members + 1;
      }
    }
    CountGrows(groups, group, worker + 1, |groups|);
  }

  lemma {:induction false} CountGrows(groups: seq<nat>, group: nat, n: nat, m: nat)
    requires n <= m <= |groups|
    ensures CountOf(groups, group, n) <= CountOf(groups, group, m)
  {
    if n < m { CountGrows(groups, group, n, m - 1); }
  }

  /** Every rank below the group's size is some worker's rank. */
  lemma {:induction false} WorkerOfRank(groups: seq<nat>, group: nat, rank: nat, n: nat) returns (worker: nat)
    requires n <= |groups| && rank < CountOf(groups, group, n)
    ensures worker < n && groups[worker] == group && CountOf(groups, group, worker) == rank
  {
    if rank < CountOf(groups, group, n - 1) {
      worker := WorkerOfRank(groups, group, rank, n - 1);
    } else {
      worker := n - 1;
    }
  }

  lemma RankIncreases(groups: seq<nat>, v: nat, w: nat)
    requires v < w < |groups| && groups[v] == groups[w]
    ensures CountOf(groups, groups[v], v) < CountOf(groups, groups[w], w)
  {
    CountGrows(groups, groups[v], v + 1, w);
  }

  lemma RankIdentifies(groups: seq<nat>, v: nat, w: nat)
    requires v < |groups| && w < |groups| && groups[v] == groups[w]
    requires CountOf(groups, groups[v], v) == CountOf(groups, groups[w], w)
    ensures v == w
  {
    if v != w { RankIncreases(groups, if v < w then v else w, if v < w then w else v); }
  }

  /** The panels of a worker: its rank's share among its group, when the group keeps a copy. */
  ghost predicate Owns(groups: seq<nat>, owners: seq<nat>, panels: nat, worker: nat, slot: nat, panel: nat)
    requires worker < |groups|
  {
    && SlotOf(groups[worker], owners) == slot
    && CountOf(groups, groups[worker], |groups|) > 0
    && InShare(panels, CountOf(groups, groups[worker], worker), CountOf(groups, groups[worker], |groups|), panel)
  }

  ghost predicate OwnersReady(groups: seq<nat>, owners: seq<nat>) {
    && (forall i, j :: 0 <= i < j < |owners| ==> owners[i] != owners[j])
    && (forall i :: 0 <= i < |owners| ==> CountOf(groups, owners[i], |groups|) > 0)
  }

  /** Each panel of each copy has exactly one writer, so workers never write the same panel. */
  lemma PanelHasOneWriter(groups: seq<nat>, owners: seq<nat>, panels: nat, slot: nat, panel: nat) returns (writer: nat)
    requires OwnersReady(groups, owners) && slot < |owners| && panel < panels
    ensures writer < |groups| && Owns(groups, owners, panels, writer, slot, panel)
    ensures forall w: nat :: w < |groups| && Owns(groups, owners, panels, w, slot, panel) ==> w == writer
  {
    var group := owners[slot];
    var members := CountOf(groups, group, |groups|);
    SharesPartition(panels, members, panel);
    var rank: nat :| rank < members && InShare(panels, rank, members, panel);
    writer := WorkerOfRank(groups, group, rank, |groups|);
    SlotFound(group, owners, 0, slot);
    forall w: nat | w < |groups| && Owns(groups, owners, panels, w, slot, panel) ensures w == writer {
      SlotSound(groups[w], owners, 0);
      CountGrows(groups, group, w + 1, |groups|);
      RankIdentifies(groups, w, writer);
    }
  }

  // ---- The packing loops -------------------------------------------------------

  /** One worker's loops; its writes are exactly the rows at or above the prefix of the panels it owns. */
  method PackWorker(job: Job, mem: array<real>, worker: nat, groups: seq<nat>, owners: seq<nat>)
    returns (ghost trace: seq<Write>)
    requires job.Valid() && mem.Length >= job.layout.slots * job.layout.copyFloats && job.layout.slots == |owners|
    requires worker < |groups|
    modifies mem
    ensures forall t :: 0 <= t < |trace| ==> Legal(job, trace[t])
    ensures mem[..] == Apply(job, old(mem[..]), trace)
    ensures forall w: Write :: Legal(job, w) && Owns(groups, owners, job.layout.panels, worker, w.slot, w.panel) ==>
      w in trace
    ensures forall w: Write :: w in trace ==> Owns(groups, owners, job.layout.panels, worker, w.slot, w.panel)
  {
    trace := [];
    var slot := OwnerSlot(groups[worker], owners);
    SlotSound(groups[worker], owners, 0);
    if slot < 0 { return; }
    var rank, members := GroupPosition(groups, worker);
    var panels := job.layout.panels;
    ShareOrdered(panels, rank, rank + 1, members);
    var begin, end := ShareBegin(panels, rank, members), ShareBegin(panels, rank + 1, members);
    for panel := begin to end
      invariant forall t :: 0 <= t < |trace| ==> Legal(job, trace[t])
      invariant mem[..] == Apply(job, old(mem[..]), trace)
      invariant forall w: Write :: w in trace ==> w.slot == slot && begin <= w.panel < panel
      invariant forall w: Write :: Legal(job, w) && w.slot == slot && begin <= w.panel < panel ==> w in trace
    {
      ghost var before := mem[..];
      ghost var writes := PackPanel(job, mem, slot, panel);
      ApplyJoins(job, old(mem[..]), trace, writes);
      trace := trace + writes;
    }
  }

  /** One panel: retained rows stay, newer rows are transposed in, the padding becomes zero. */
  method PackPanel(job: Job, mem: array<real>, slot: nat, panel: nat) returns (ghost trace: seq<Write>)
    requires job.Valid() && mem.Length >= job.layout.slots * job.layout.copyFloats
    requires slot < job.layout.slots && panel < job.layout.panels
    modifies mem
    ensures forall t :: 0 <= t < |trace| ==> Legal(job, trace[t])
    ensures mem[..] == Apply(job, old(mem[..]), trace)
    ensures forall w: Write :: w in trace <==> Legal(job, w) && w.slot == slot && w.panel == panel
  {
    hide Apply;
    ApplyNothing(job, mem[..]);
    trace := [];
    for ki := job.prefix to job.rows
      invariant forall t :: 0 <= t < |trace| ==> Legal(job, trace[t])
      invariant mem[..] == Apply(job, old(mem[..]), trace)
      invariant forall w: Write :: w in trace <==> w.slot == slot && w.panel == panel && job.prefix <= w.ki < ki
    {
      var value := SourceCell(job, panel, ki);
      trace := WriteCell(job, mem, old(mem[..]), trace, slot, panel, ki, value);
    }
    for ki := job.rows to job.layout.stride
      invariant forall t :: 0 <= t < |trace| ==> Legal(job, trace[t])
      invariant mem[..] == Apply(job, old(mem[..]), trace)
      invariant forall w: Write :: w in trace <==> w.slot == slot && w.panel == panel && job.prefix <= w.ki < ki
    {
      trace := WriteCell(job, mem, old(mem[..]), trace, slot, panel, ki, 0.0);
    }
  }

  /** The element of K that a panel's row copies: head panel / D, component panel % D. */
  method SourceCell(job: Job, panel: nat, ki: nat) returns (value: real)
    requires job.Valid() && panel < job.layout.panels && ki < job.rows
    ensures value == job.Target(panel, ki)
  {
    PanelHead(panel, job.heads, job.d);
    value := job.k[panel / job.d][ki][panel % job.d];
  }

  method WriteCell(
    job: Job, mem: array<real>, ghost origin: seq<real>, ghost trace: seq<Write>,
    slot: nat, panel: nat, ki: nat, value: real)
    returns (ghost next: seq<Write>)
    requires job.Valid() && |origin| == mem.Length >= job.layout.slots * job.layout.copyFloats
    requires forall t :: 0 <= t < |trace| ==> Legal(job, trace[t])
    requires mem[..] == Apply(job, origin, trace)
    requires Legal(job, Write(slot, panel, ki)) && value == job.Target(panel, ki)
    modifies mem
    ensures next == trace + [Write(slot, panel, ki)] && forall t :: 0 <= t < |next| ==> Legal(job, next[t])
    ensures mem[..] == Apply(job, origin, next)
  {
    job.layout.AddressBound(slot, panel, ki);
    var target := slot * job.layout.copyFloats + panel * job.layout.stride;
    mem[target + ki] := value;
    next := trace + [Write(slot, panel, ki)];
    assert next[..|next| - 1] == trace;
  }

  /** The memory behind some address is as it was. */
  ghost predicate SameBeyond(before: seq<real>, after: seq<real>, from: nat) {
    |before| == |after| && forall i :: from <= i < |before| ==> after[i] == before[i]
  }

  /** Packing writes the copies and nothing behind them. */
  lemma {:induction false} ApplyStaysInside(job: Job, mem: seq<real>, trace: seq<Write>)
    requires job.Valid() && |mem| >= job.layout.slots * job.layout.copyFloats
    requires forall t :: 0 <= t < |trace| ==> Legal(job, trace[t])
    ensures SameBeyond(mem, Apply(job, mem, trace), job.layout.slots * job.layout.copyFloats)
  {
    if trace != [] {
      var w := trace[|trace| - 1];
      ApplyStaysInside(job, mem, trace[..|trace| - 1]);
      job.layout.AddressBound(w.slot, w.panel, w.ki);
    }
  }

  /** The first workers' writes are all made. */
  ghost predicate Covered(job: Job, groups: seq<nat>, owners: seq<nat>, trace: seq<Write>, workers: nat)
    requires workers <= |groups|
  {
    forall w: Write, v: nat ::
      (Legal(job, w) && v < workers && Owns(groups, owners, job.layout.panels, v, w.slot, w.panel)) ==> w in trace
  }

  /** All workers, one after the other: the whole copy is packed exactly when the prefix was valid, and nothing
      past the copies is touched. */
  method PackAll(job: Job, mem: array<real>, groups: seq<nat>, owners: seq<nat>)
    requires job.Valid() && mem.Length >= job.layout.slots * job.layout.copyFloats && job.layout.slots == |owners|
    requires OwnersReady(groups, owners)
    modifies mem
    ensures job.Packed(mem[..]) <==> old(job.RowsHold(mem[..], 0, job.prefix))
    ensures SameBeyond(old(mem[..]), mem[..], job.layout.slots * job.layout.copyFloats)
  {
    hide Owns, OwnersReady, Job.Packed, Job.RowsHold, Apply;
    ghost var trace: seq<Write> := [];
    ApplyNothing(job, mem[..]);
    for worker := 0 to |groups|
      invariant forall t :: 0 <= t < |trace| ==> Legal(job, trace[t])
      invariant mem[..] == Apply(job, old(mem[..]), trace)
      invariant Covered(job, groups, owners, trace, worker)
    {
      ghost var writes := PackWorker(job, mem, worker, groups, owners);
      ApplyJoins(job, old(mem[..]), trace, writes);
      trace := trace + writes;
    }
    AllWrote(job, trace, groups, owners);
    AnyOrderPacks(job, old(mem[..]), trace);
    ApplyStaysInside(job, old(mem[..]), trace);
  }

  /** Together the workers make every write there is to make. */
  lemma AllWrote(job: Job, trace: seq<Write>, groups: seq<nat>, owners: seq<nat>)
    requires job.layout.slots == |owners| && OwnersReady(groups, owners)
    requires Covered(job, groups, owners, trace, |groups|)
    ensures forall w: Write :: Legal(job, w) ==> w in trace
  {
    hide Owns, OwnersReady;
    forall w: Write | Legal(job, w) ensures w in trace {
      var writer := PanelHasOneWriter(groups, owners, job.layout.panels, w.slot, w.panel);
    }
  }
}
