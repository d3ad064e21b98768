/** A whole parallel attention call: every query block of every head, on the caller's K or on the packed
    stream cache, equals the row-by-row reference. */
module Attention {
  import opened Integers
  import opened Vectors
  import opened Softmax
  import opened Expressions
  import opened Lowering
  import opened Arguments
  import opened ScoreTiles
  import opened Scores
  import opened RowNorms
  import opened Packing
  import BlockedSoftmax
  import BlockedGeneric
  import Stream

  /** The operator: its score and mask expressions. */
  datatype Operator = Operator(f: Functions, score: Expr, mask: Expr)

  /** One call's sizes. */
  datatype Sizes = Sizes(b: nat, hq: nat, hkv: nat, sq: nat, skv: nat, d: nat, dv: nat) {
    predicate Positive() { b > 0 && hq > 0 && hkv > 0 && sq > 0 && skv > 0 }

    function Rows(): nat { b * hq * sq }

    /** The K and V head that query head bh (batch and query head together) reads. */
    function KvHead(bh: nat): nat
      requires hq > 0
    {
      SharedHead(bh, hq, hkv)
    }

    function Dims(): Extents { axis => Dimension(axis) }

    function At(bh: nat, qi: nat): Extents
      requires hq > 0
    {
      axis => Place(bh, qi, axis)
    }

    /** Every index of a block is inside its dimension, and only the query index depends on the query. */
    lemma PlaceInside(bh: nat, qi: nat, axis: Axis)
      requires Positive() && bh < b * hq
      ensures axis != Query && axis != Axis.Key ==> At(bh, qi)(axis) < Dims()(axis)
      ensures axis != Query ==> At(bh, qi)(axis) == At(bh, 0)(axis)
    {
      SharedHeadInside(bh, b, hq, hkv);
    }

    lemma KvHeadInside(bh: nat)
      requires Positive() && bh < b * hq
      ensures KvHead(bh) < b * hkv
    {
      SharedHeadInside(bh, b, hq, hkv);
    }

    function Dimension(axis: Axis): nat {
      match axis
      case Batch => b case QueryHead => hq case KvHead => hkv case Query => sq case Key => skv
      case _ => 1
    }

    /** Where query head bh and query qi are, on every axis but the key's. */
    function Place(bh: nat, qi: nat, axis: Axis): nat
      requires hq > 0
    {
      match axis
      case Batch => bh / hq case QueryHead => bh % hq case KvHead => bh % hq * hkv / hq case Query => qi
      case _ => 0
    }
  }

  /** The tensors of a call; rows of q are numbered batch first, then head, then query. */
  datatype Tensors = Tensors(q: seq<Vec>, k: Keys, v: seq<seq<Vec>>, arguments: map<string, Argument>, queryOffset: int)

  ghost predicate Ready(op: Operator, n: Sizes, t: Tensors, shape: Shape) {
    && n.Positive() && shape.Valid()
    && IsFloat(op.score) && IsBool(op.mask) && RealMath(op.f)
    && {"x", "query_index", "key_index"} !! t.arguments.Keys
    && Variables(op.score) <= {"x", "query_index", "key_index"} + t.arguments.Keys
    && Variables(op.mask) <= {"query_index", "key_index"} + t.arguments.Keys
    && (forall name :: name in t.arguments ==> t.arguments[name].Fits(n.Dims()))
    && |t.q| == n.Rows() && (forall r :: 0 <= r < |t.q| ==> |t.q[r]| == n.d)
    && KeyShape(t.k, n.b * n.hkv, n.skv, n.d)
    && |t.v| == n.b * n.hkv && forall h :: 0 <= h < |t.v| ==> |t.v[h]| == n.skv && AllWidth(t.v[h], n.dv)
  }

  /** The source for mValid queries from query qi of head bh, read through a given K head. */
  function BlockSource(
    op: Operator, n: Sizes, t: Tensors, shape: Shape, head: Head, bh: nat, qi: nat, mValid: nat): Source
    requires n.hq > 0 && bh * n.sq + qi + mValid <= |t.q|
  {
    Source(op.f, op.score, op.mask, t.arguments, n.Dims(), n.At(bh, qi), t.queryOffset,
           t.q[bh * n.sq + qi..bh * n.sq + qi + mValid], n.d, head, 0, n.skv, shape)
  }

  /** The head is the caller's K head, however it is stored. */
  ghost predicate SameKeys(head: Head, n: Sizes, k: seq<Vec>, tileK: nat) {
    && head.Covers(n.skv, n.d, tileK) && |k| == n.skv && (forall j :: 0 <= j < n.skv ==> |k[j]| == n.d)
    && forall j: nat :: j < n.skv ==> head.Key(n.skv, n.d, tileK, j) == k[j]
  }

  lemma BlockReady(op: Operator, n: Sizes, t: Tensors, shape: Shape, head: Head, bh: nat, qi: nat, mValid: nat)
    requires Ready(op, n, t, shape) && bh < n.b * n.hq && qi + mValid <= n.sq && bh * n.sq + qi + mValid <= |t.q|
    requires head.Covers(n.skv, n.d, shape.tileK)
    ensures BlockSource(op, n, t, shape, head, bh, qi, mValid).Valid()
  {
    hide RealMath, IsFloat, IsBool, Variables, Argument.Fits, KeyShape, AllWidth, Head.Covers, Source.Valid, Sizes.At,
      Sizes.Dims, Shape.Valid, Sizes.KvHead;
    var src := BlockSource(op, n, t, shape, head, bh, qi, mValid);
    forall axis: Axis | axis != Query && axis != Axis.Key ensures src.at(axis) < src.dims(axis) {
      n.PlaceInside(bh, qi, axis);
    }
    QueryAndKey(n, bh, qi);
    var from := bh * n.sq + qi;
    RowsWidth(t.q, from, src.q, n.d);
    SourceValid(op, n, t, shape, src);
  }

  /** A source of the call's own expressions and arguments is valid when its indices are inside. */
  lemma SourceValid(op: Operator, n: Sizes, t: Tensors, shape: Shape, src: Source)
    requires Ready(op, n, t, shape)
    requires src.f == op.f && src.score == op.score && src.mask == op.mask && src.arguments == t.arguments
    requires src.dims == n.Dims() && src.shape == shape && src.first == 0 && src.count == n.skv && src.d == n.d
    requires forall axis: Axis :: axis != Query && axis != Axis.Key ==> src.at(axis) < src.dims(axis)
    requires src.at(Query) + |src.q| <= n.sq == n.Dims()(Query)
    requires src.at(Axis.Key) == 0 && n.Dims()(Axis.Key) == n.skv
    requires src.head.Covers(n.skv, n.d, shape.tileK) && forall m :: 0 <= m < |src.q| ==> |src.q[m]| == n.d
    ensures src.Valid()
  {
    hide RealMath, TypeOf, Size, Sizes.Dims, Variables, Argument.Fits, KeyShape, Head.Covers;
  }

  lemma RowsWidth(q: seq<Vec>, from: nat, part: seq<Vec>, d: nat)
    requires forall r :: 0 <= r < |q| ==> |q[r]| == d
    requires from + |part| <= |q| && part == q[from..from + |part|]
    ensures forall m :: 0 <= m < |part| ==> |part[m]| == d
  {
  }

  lemma QueryAndKey(n: Sizes, bh: nat, qi: nat)
    requires n.hq > 0
    ensures n.At(bh, qi)(Query) == qi && n.Dims()(Query) == n.sq
    ensures n.At(bh, qi)(Axis.Key) == 0 && n.Dims()(Axis.Key) == n.skv
  {
  }

  // ---- The row-by-row reference -------------------------------------------------

  lemma RowInside(n: Sizes, r: nat)
    requires n.Positive() && r < n.Rows()
    ensures r / n.sq < n.b * n.hq && r % n.sq < n.sq && r / n.sq * n.sq + r % n.sq == r
  {
    DivModSplit(r, n.sq);
    if n.b * n.hq <= r / n.sq { MulMono(n.b * n.hq, r / n.sq, n.sq); }
  }

  /** The output row of query qi of head bh. */
  function RowAt(n: Sizes, bh: nat, qi: nat): (r: nat)
    requires n.Positive() && bh < n.b * n.hq && qi < n.sq
    ensures r == bh * n.sq + qi < n.Rows()
  {
    MulMono(bh + 1, n.b * n.hq, n.sq);
    assert (bh + 1) * n.sq == bh * n.sq + n.sq;
    bh * n.sq + qi
  }

  /** The masked scores of output row r, straight from the caller's tensors. */
  ghost function RowScores(op: Operator, n: Sizes, t: Tensors, shape: Shape, r: nat): (row: seq<Ext>)
    requires Ready(op, n, t, shape) && r < n.Rows()
    ensures |row| == n.skv
  {
    hide RealMath, IsExp, TypeOf;
    RowInside(n, r);
    n.KvHeadInside(r / n.sq);
    var head := Direct(t.k[n.KvHead(r / n.sq)]);
    BlockReady(op, n, t, shape, head, r / n.sq, r % n.sq, 1);
    BlockSource(op, n, t, shape, head, r / n.sq, r % n.sq, 1).Row(0)
  }

  /** The V head of output row r. */
  ghost function RowValues(op: Operator, n: Sizes, t: Tensors, shape: Shape, r: nat): (v: seq<Vec>)
    requires Ready(op, n, t, shape) && r < n.Rows()
    ensures |v| == n.skv && AllWidth(v, n.dv)
  {
    hide RealMath, IsExp, TypeOf;
    RowInside(n, r);
    n.KvHeadInside(r / n.sq);
    t.v[n.KvHead(r / n.sq)]
  }

  /** Row m of any block is its output row's scores, whatever the block size and the K storage. */
  lemma BlockRow(op: Operator, n: Sizes, t: Tensors, shape: Shape, head: Head, bh: nat, qi: nat, mValid: nat, m: nat)
    requires Ready(op, n, t, shape) && bh < n.b * n.hq && qi + mValid <= n.sq && m < mValid
    requires bh * n.sq + qi + mValid <= |t.q|
    requires n.KvHead(bh) < |t.k| && SameKeys(head, n, t.k[n.KvHead(bh)], shape.tileK)
    ensures var src := BlockSource(op, n, t, shape, head, bh, qi, mValid); var r := RowAt(n, bh, qi + m);
      src.Valid() && r / n.sq == bh && src.Row(m) == RowScores(op, n, t, shape, r)
  {
    hide RealMath, TypeOf, Source.Cell, Source.Valid, Sizes.Place, Sizes.KvHead, Head.Key, Sizes.Dims,
      Sizes.At;
    var r := RowAt(n, bh, qi + m);
    DivModUnique(r, n.sq, bh, qi + m);
    var direct := Direct(t.k[n.KvHead(bh)]);
    BlockReady(op, n, t, shape, head, bh, qi, mValid);
    BlockReady(op, n, t, shape, direct, bh, qi + m, 1);
    var a, b := BlockSource(op, n, t, shape, head, bh, qi, mValid), BlockSource(op, n, t, shape, direct, bh, qi + m, 1);
    QueryAndKey(n, bh, qi);
    QueryAndKey(n, bh, qi + m);
    forall axis: Axis | axis != Query ensures a.at(axis) == b.at(axis) {
      n.PlaceInside(bh, qi, axis);
      n.PlaceInside(bh, qi + m, axis);
    }
    assert a.q[m] == b.q[0];
    forall j | 0 <= j < n.skv ensures a.Cell(m, j) == b.Cell(0, j) {
      DirectKey(t.k[n.KvHead(bh)], n.skv, n.d, shape.tileK, j);
      CellCongruent(a, b, m, 0, j, j);
    }
    assert a.Row(m) == b.Row(0);
  }

  lemma DirectKey(k: seq<Vec>, keys: nat, d: nat, tileK: nat, j: nat)
    requires Direct(k).Covers(keys, d, tileK) && j < keys
    ensures Direct(k).Key(keys, d, tileK, j) == k[j]
  {
  }

  // ---- Whole calls ---------------------------------------------------------------

  /** Where a call's workers read K: the caller's rows, or their slot's packed copy. */
  datatype Storage = Rows | Copies(mem: seq<real>, layout: Layout)

  function HeadOf(storage: Storage, k: Keys, d: nat, slot: nat, head: nat): Head
    requires head < |k|
  {
    if storage.Rows? then Direct(k[head])
    else Panels(storage.mem, storage.layout.Address(slot, head * d, 0), storage.layout.stride)
  }

  /** Copies hold the call's K, transposed and padded, with room for a tile behind the last one. */
  ghost predicate Stored(storage: Storage, n: Sizes, k: Keys, tileK: nat)
    requires KeyShape(k, n.b * n.hkv, n.skv, n.d)
  {
    storage.Copies? ==>
      var job := Job(storage.layout, k, n.b * n.hkv, n.skv, n.d, 0);
      job.Valid() && |storage.mem| >= job.layout.slots * job.layout.copyFloats + tileK && job.Packed(storage.mem)
  }

  /** Any slot's copy of a head is that head. */
  lemma StoredHead(storage: Storage, n: Sizes, k: Keys, tileK: nat, slot: nat, head: nat)
    requires KeyShape(k, n.b * n.hkv, n.skv, n.d) && Stored(storage, n, k, tileK) && head < n.b * n.hkv
    requires storage.Copies? ==> slot < storage.layout.slots
    ensures SameKeys(HeadOf(storage, k, n.d, slot, head), n, k[head], tileK)
  {
    var h := HeadOf(storage, k, n.d, slot, head);
    if storage.Copies? {
      CopyCovers(storage.layout, n, slot, head);
      assert h.Covers(n.skv, n.d, tileK);
      forall j: nat | j < n.skv ensures h.Key(n.skv, n.d, tileK, j) == k[head][j] {
        forall p | 0 <= p < n.d ensures h.Key(n.skv, n.d, tileK, j)[p] == k[head][j][p] {
          CopiedKey(storage, n, k, tileK, slot, head, j, p);
        }
      }
    }
  }

  lemma CopyCovers(layout: Layout, n: Sizes, slot: nat, head: nat)
    requires layout.Valid() && slot < layout.slots && head < n.b * n.hkv && layout.panels == n.b * n.hkv * n.d
    ensures layout.Address(slot, head * n.d, 0) + n.d * layout.stride <= layout.slots * layout.copyFloats
  {
    MulMono(slot + 1, layout.slots, layout.copyFloats);
    assert (slot + 1) * layout.copyFloats == slot * layout.copyFloats + layout.copyFloats;
    MulMono(head + 1, n.b * n.hkv, n.d);
    assert (head + 1) * n.d == head * n.d + n.d;
    MulMono((head + 1) * n.d, layout.panels, layout.stride);
    assert (head * n.d + n.d) * layout.stride == head * n.d * layout.stride + n.d * layout.stride;
  }

  lemma CopiedKey(storage: Storage, n: Sizes, k: Keys, tileK: nat, slot: nat, head: nat, j: nat, p: nat)
    requires storage.Copies? && KeyShape(k, n.b * n.hkv, n.skv, n.d) && Stored(storage, n, k, tileK)
    requires head < n.b * n.hkv && slot < storage.layout.slots && j < n.skv && p < n.d
    requires HeadOf(storage, k, n.d, slot, head).Covers(n.skv, n.d, tileK)
    ensures HeadOf(storage, k, n.d, slot, head).Key(n.skv, n.d, tileK, j)[p] == k[head][j][p]
  {
    var layout := storage.layout;
    var job := Job(layout, k, n.b * n.hkv, n.skv, n.d, 0);
    var panel := head * n.d + p;
    MulMono(head + 1, n.b * n.hkv, n.d);
    assert (head + 1) * n.d == head * n.d + n.d;
    DivModUnique(panel, n.d, head, p);
    assert layout.Holds(slot, panel, j) && job.At(storage.mem, slot, panel, j) == job.Target(panel, j);
    assert (head * n.d + p) * layout.stride == head * n.d * layout.stride + Scale(p, layout.stride);
    assert layout.Address(slot, panel, j) == Reach(layout.Address(slot, head * n.d, 0) + j, layout.stride, p);
  }

  /** The norm as the kernel sees it: the recognised softmax, or any protocol. */
  datatype Norm<!S> = SoftmaxKind(e: real -> real, scale: real) | GenericKind(p: Protocol<S>) {
    ghost predicate Lawful() { SoftmaxKind? ==> IsExp(e) }

    /** The output element of a row of masked scores. */
    ghost function Output(row: seq<Ext>, x: Vec): real
      requires |row| == |x|
    {
      match this
      case SoftmaxKind(e, scale) => Reference(e, ScaleScores(row, scale), x)
      case GenericKind(p) => OnlineOutput(p, row, x)
    }
  }

  /** The reference output: row r, component dv. */
  ghost function Target<S>(norm: Norm<S>, op: Operator, n: Sizes, t: Tensors, shape: Shape, r: nat, dv: nat): real
    requires Ready(op, n, t, shape) && r < n.Rows() && dv < n.dv
  {
    norm.Output(RowScores(op, n, t, shape, r), Component(RowValues(op, n, t, shape, r), n.dv, dv))
  }

  /** How many query blocks all heads have. */
  function WorkItems(n: Sizes, tileQ: nat): nat
    requires tileQ > 0
  {
    n.b * n.hq * CeilDiv(n.sq, tileQ)
  }

  /** The work item that computes output row r. */
  function ItemOf(n: Sizes, tileQ: nat, r: nat): nat
    requires n.sq > 0 && tileQ > 0
  {
    Scale(r / n.sq, CeilDiv(n.sq, tileQ)) + r % n.sq / tileQ
  }

  /** Decoding in two steps and in one agree. */
  lemma DecodeHead(work: nat, blocks: nat, hq: nat)
    requires blocks > 0 && hq > 0
    ensures blocks * hq > 0 && work / (blocks * hq) * hq + work / blocks % hq == work / blocks
  {
    DivTwice(work, blocks, hq);
    DivModSplit(work / blocks, hq);
  }

  /** An item's rows are the valid queries of its block; every row has an item inside the launch. */
  lemma ItemRows(n: Sizes, tileQ: nat, work: nat, r: nat)
    requires n.Positive() && tileQ > 0 && r < n.Rows()
    ensures ItemOf(n, tileQ, r) < WorkItems(n, tileQ)
    ensures ItemOf(n, tileQ, r) == work <==>
      var blocks := CeilDiv(n.sq, tileQ);
      blocks > 0 && var qb := work % blocks * tileQ; work / blocks == r / n.sq && qb <= r % n.sq < qb + tileQ
  {
    hide Scale;
    RowInside(n, r);
    BlockOfQuery(n.sq, tileQ, r % n.sq);
    ItemBound(r / n.sq, n.b * n.hq, r % n.sq / tileQ, CeilDiv(n.sq, tileQ));
    ItemDecodes(r / n.sq, CeilDiv(n.sq, tileQ), r % n.sq, tileQ, work);
  }

  lemma BlockOfQuery(sq: nat, tileQ: nat, qi: nat)
    requires tileQ > 0 && qi < sq
    ensures qi / tileQ < CeilDiv(sq, tileQ)
  {
    CeilCovers(sq, tileQ);
    DivModSplit(qi, tileQ);
    if CeilDiv(sq, tileQ) <= qi / tileQ { MulMono(CeilDiv(sq, tileQ), qi / tileQ, tileQ); }
  }

  lemma ItemBound(head: nat, heads: nat, block: nat, blocks: nat)
    requires head < heads && block < blocks
    ensures Scale(head, blocks) + block < heads * blocks
  {
    MulMono(head + 1, heads, blocks);
    assert (head + 1) * blocks == head * blocks + blocks;
  }

  lemma ItemDecodes(head: nat, blocks: nat, qi: nat, tileQ: nat, work: nat)
    requires tileQ > 0 && qi / tileQ < blocks
    ensures Scale(head, blocks) + qi / tileQ == work <==>
      work / blocks == head && work % blocks * tileQ <= qi < work % blocks * tileQ + tileQ
  {
    var block := qi / tileQ;
    DivModSplit(qi, tileQ);
    DivModUnique(head * blocks + block, blocks, head, block);
    if work / blocks == head && work % blocks * tileQ <= qi < work % blocks * tileQ + tileQ {
      DivModUnique(qi, tileQ, work % blocks, qi - work % blocks * tileQ);
      DivModSplit(work, blocks);
    }
  }

  /** Writes a finished block to its rows of the output. */
  method StoreBlock(block: array2<real>, output: array2<real>, from: nat)
    requires from + block.Length0 <= output.Length0 && block.Length1 == output.Length1 && block != output
    modifies output
    ensures forall r, dv :: 0 <= r < output.Length0 && 0 <= dv < output.Length1 ==>
      output[r, dv] == if from <= r < from + block.Length0 then block[r - from, dv] else old(output[r, dv])
  {
    for m := 0 to block.Length0
      invariant forall r, dv :: 0 <= r < output.Length0 && 0 <= dv < output.Length1 ==>
        output[r, dv] == if from <= r < from + m then block[r - from, dv] else old(output[r, dv])
    {
      for c := 0 to block.Length1
        invariant forall r, dv :: 0 <= r < output.Length0 && 0 <= dv < output.Length1 ==>
          output[r, dv] == if from <= r < from + m || (r == from + m && dv < c) then block[r - from, dv]
            else old(output[r, dv])
      {
        output[from + m, c] := block[m, c];
      }
    }
  }

  /** One query block of one head. */
  method BlockOutput<S>(norm: Norm<S>, src: Source, v: seq<Vec>, block: array2<real>)
    requires norm.Lawful() && src.Valid() && src.first == 0 && src.count == |v|
    requires |src.q| == block.Length0 && AllWidth(v, block.Length1)
    modifies block
    ensures forall m, dv :: 0 <= m < |src.q| && 0 <= dv < block.Length1 ==>
      block[m, dv] == norm.Output(src.Row(m), Component(v, block.Length1, dv))
  {
    hide IsExp, Reference, OnlineOutput, Source.Valid, Source.Row;
    match norm
    case SoftmaxKind(e, scale) => BlockedSoftmax.SoftmaxBlock(src, scale, v, block, e);
    case GenericKind(p) => BlockedGeneric.GenericBlock(p, src, v, block);
  }

  /** One work item: decodes it, computes its block from the slot's copy of K, stores it. */
  method RunItem<S>(
    norm: Norm<S>, op: Operator, n: Sizes, t: Tensors, shape: Shape, storage: Storage, tileQ: nat, work: nat, slot: nat,
    output: array2<real>)
    requires norm.Lawful() && Ready(op, n, t, shape) && Stored(storage, n, t.k, shape.tileK) && tileQ > 0
    requires work < WorkItems(n, tileQ) && (storage.Copies? ==> slot < storage.layout.slots)
    requires output.Length0 == n.Rows() && output.Length1 == n.dv
    modifies output
    ensures forall r, dv :: 0 <= r < n.Rows() && 0 <= dv < n.dv ==>
      output[r, dv] == if ItemOf(n, tileQ, r) == work then Target(norm, op, n, t, shape, r, dv) else old(output[r, dv])
  {
    hide IsExp, Stored, Source.Valid, Source.Row, ItemOf, Norm.Output, HeadOf;
    var blocks := Blocks(n, tileQ);
    var h, b := work / blocks % n.hq, DecodeBatch(work, blocks, n.hq);
    DecodeHead(work, blocks, n.hq);
    var bh, qb := b * n.hq + h, work % blocks * tileQ;
    var mValid, from := BlockExtent(n, tileQ, work, bh, qb);
    n.KvHeadInside(bh);
    var kv := n.KvHead(bh);
    var head := HeadOf(storage, t.k, n.d, slot, kv);
    StoredHead(storage, n, t.k, shape.tileK, slot, kv);
    BlockReady(op, n, t, shape, head, bh, qb, mValid);
    var src := BlockSource(op, n, t, shape, head, bh, qb, mValid);
    var block := new real[mValid, n.dv];
    BlockOutput(norm, src, t.v[kv], block);
    StoreBlock(block, output, from);
    forall r, dv | 0 <= r < n.Rows() && 0 <= dv < n.dv
      ensures output[r, dv] == if ItemOf(n, tileQ, r) == work then Target(norm, op, n, t, shape, r, dv)
        else old(output[r, dv])
    {
      ExtentRows(n, tileQ, work, bh, qb, mValid, from, r);
      if from <= r < from + mValid {
        BlockRow(op, n, t, shape, head, bh, qb, mValid, r - from);
        assert output[r, dv] == block[r - from, dv];
      }
    }
  }

  function Blocks(n: Sizes, tileQ: nat): (blocks: nat)
    requires n.Positive() && tileQ > 0
    ensures blocks == CeilDiv(n.sq, tileQ) > 0
  {
    CeilCovers(n.sq, tileQ);
    CeilDiv(n.sq, tileQ)
  }

  function DecodeBatch(work: nat, blocks: nat, hq: nat): (b: nat)
    requires blocks > 0 && hq > 0
  {
    DecodeHead(work, blocks, hq);
    work / (blocks * hq)
  }

  /** How many queries of a block are valid, and the output row it starts at. */
  method BlockExtent(n: Sizes, tileQ: nat, ghost work: nat, bh: nat, qb: nat) returns (mValid: nat, from: nat)
    requires n.Positive() && tileQ > 0 && work < WorkItems(n, tileQ)
    requires var blocks := Blocks(n, tileQ); bh == work / blocks && qb == work % blocks * tileQ
    ensures mValid == (if n.sq - qb < tileQ then n.sq - qb else tileQ) && from == bh * n.sq + qb
    ensures bh < n.b * n.hq && qb + mValid <= n.sq && from + mValid <= n.Rows()
  {
    hide CeilDiv;
    ghost var blocks := Blocks(n, tileQ);
    DivLess(work, n.b * n.hq, blocks);
    PartBegins(work % blocks, n.sq, tileQ);
    mValid := if n.sq - qb < tileQ then n.sq - qb else tileQ;
    from := bh * n.sq + qb;
    MulMono(bh + 1, n.b * n.hq, n.sq);
    assert (bh + 1) * n.sq == bh * n.sq + n.sq;
  }

  lemma ExtentRows(n: Sizes, tileQ: nat, work: nat, bh: nat, qb: nat, mValid: nat, from: nat, r: nat)
    requires n.Positive() && tileQ > 0 && r < n.Rows()
    requires var blocks := Blocks(n, tileQ); bh == work / blocks && qb == work % blocks * tileQ
    requires qb <= n.sq && mValid == (if n.sq - qb < tileQ then n.sq - qb else tileQ) && from == bh * n.sq + qb
    ensures ItemOf(n, tileQ, r) == work <==> from <= r < from + mValid
  {
    ItemRows(n, tileQ, work, r);
    RowInside(n, r);
    if from <= r < from + mValid { DivModUnique(r, n.sq, bh, r - bh * n.sq); }
  }

  /** Which item is taken when, and by which worker. */
  datatype Turn = Turn(work: nat, worker: nat)

  /** Every item is taken, by a worker of the launch. */
  ghost predicate Complete(turns: seq<Turn>, items: nat, workers: nat) {
    && (forall i :: 0 <= i < |turns| ==> turns[i].work < items && turns[i].worker < workers)
    && forall work: nat :: work < items ==> Taken(turns, |turns|, work)
  }

  /** Every worker reads a copy there is. */
  ghost predicate SlotsExist(storage: Storage, slots: seq<nat>) {
    storage.Copies? ==> forall w :: 0 <= w < |slots| ==> slots[w] < storage.layout.slots
  }

  ghost predicate Taken(turns: seq<Turn>, upTo: nat, work: nat)
    requires upTo <= |turns|
  {
    exists i :: 0 <= i < upTo && turns[i].work == work
  }

  /** The static schedule hands the items out round robin, one at a time, and misses none. */
  lemma StaticTurns(items: nat, workers: nat)
    requires workers > 0
    ensures Complete(seq(items, i requires 0 <= i < items => Turn(i, i % workers)), items, workers)
  {
    var turns := seq(items, i requires 0 <= i < items => Turn(i, i % workers));
    forall work: nat | work < items ensures Taken(turns, |turns|, work) {
      assert turns[work].work == work;
    }
  }

  /** The whole call, static or dynamic: whatever order the items are taken in, by whichever workers, each reading
      its own copy, every output row is the reference over the caller's own tensors. */
  method BlockedAttention<S>(
    norm: Norm<S>, op: Operator, n: Sizes, t: Tensors, shape: Shape, storage: Storage, slots: seq<nat>,
    tileQ: nat, turns: seq<Turn>, output: array2<real>)
    requires norm.Lawful() && Ready(op, n, t, shape) && Stored(storage, n, t.k, shape.tileK) && tileQ > 0
    requires Complete(turns, WorkItems(n, tileQ), |slots|) && SlotsExist(storage, slots)
    requires output.Length0 == n.Rows() && output.Length1 == n.dv
    modifies output
    ensures forall r, dv :: 0 <= r < n.Rows() && 0 <= dv < n.dv ==>
      output[r, dv] == Target(norm, op, n, t, shape, r, dv)
  {
    hide IsExp, Stored, ItemOf, Target, CeilDiv, Ready;
    for i := 0 to |turns|
      invariant forall r, dv ::
        0 <= r < n.Rows() && 0 <= dv < n.dv && Taken(turns, i, Item(op, n, t, shape, tileQ, r)) ==>
        output[r, dv] == Target(norm, op, n, t, shape, r, dv)
    {
      RunItem(norm, op, n, t, shape, storage, tileQ, turns[i].work, slots[turns[i].worker], output);
    }
    forall r, dv | 0 <= r < n.Rows() && 0 <= dv < n.dv
      ensures output[r, dv] == Target(norm, op, n, t, shape, r, dv)
    {
      assert Item(op, n, t, shape, tileQ, r) < WorkItems(n, tileQ);
    }
  }

  ghost function Item(op: Operator, n: Sizes, t: Tensors, shape: Shape, tileQ: nat, r: nat): (work: nat)
    requires Ready(op, n, t, shape) && tileQ > 0 && r < n.Rows()
    ensures n.sq > 0 && work == ItemOf(n, tileQ, r) < WorkItems(n, tileQ)
  {
    ItemRows(n, tileQ, 0, r);
    ItemOf(n, tileQ, r)
  }

  // ---- On the stream cache ---------------------------------------------------------

  /** The call's tensors agree with what the runtime was given. */
  ghost predicate SameCall(n: Sizes, t: Tensors, call: Stream.Call)
    reads call.k
  {
    && Stream.CallFits(call) && n.b == call.b && n.hkv == call.hkv && n.d == call.d && n.skv == call.skv
    && t.k == call.k.View(call.skv)
  }

  /** The copy each worker of a plan reads; without packing the number is not used. */
  method SlotsFor(plan: Stream.Plan, call: Stream.Call, ghost seen: seq<real>) returns (slots: seq<nat>)
    requires plan.Valid()
    ensures |slots| == |plan.groups| && SlotsExist(StorageFor(plan, call, seen), slots)
  {
    if plan.packs {
      slots := WorkerSlots(plan.groups, plan.owners);
    } else {
      slots := seq(|plan.groups|, w => 0);
    }
  }

  function StorageFor(plan: Stream.Plan, call: Stream.Call, seen: seq<real>): Storage
    requires plan.tileK > 0 && plan.page > 0
  {
    if plan.packs then Copies(seen, Stream.LayoutFor(plan, call.b * call.hkv * call.d, call.skv)) else Rows
  }

  lemma SeenIsStored(plan: Stream.Plan, call: Stream.Call, seen: seq<real>, n: Sizes, t: Tensors)
    requires plan.Valid() && SameCall(n, t, call) && Stream.Coherent(plan, call, seen)
    ensures KeyShape(t.k, n.b * n.hkv, n.skv, n.d) && Stored(StorageFor(plan, call, seen), n, t.k, plan.tileK)
  {
    hide Job.Packed;
  }

  /** A cached streaming call of a blocked plan, end to end: when its workspace is large enough, then however many
      rows the cache let it keep, and whichever worker of the plan takes which item, the output is the reference over
      the caller's current K and V; otherwise nothing is written. */
  method StreamedAttention<S>(
    runtime: Stream.Runtime, artifact: nat, plan: Stream.Plan, call: Stream.Call, scratch: seq<real>,
    norm: Norm<S>, op: Operator, n: Sizes, t: Tensors, shape: Shape, tileQ: nat, turns: seq<Turn>, output: array2<real>)
    returns (accepted: bool)
    requires runtime.Valid() && plan.Valid() && plan.lowering.Blocked? && SameCall(n, t, call)
    requires call.kvCache && plan.packs ==> runtime.AppendOnly(call)
    requires norm.Lawful() && Ready(op, n, t, shape) && shape.tileK == plan.tileK && tileQ > 0
    requires Complete(turns, WorkItems(n, tileQ), |plan.groups|)
    requires output.Length0 == n.Rows() && output.Length1 == n.dv
    modifies runtime, runtime.executor.Footprint(), output
    ensures accepted <==> Stream.WorkspaceFits(plan, call)
    ensures accepted ==> runtime.Valid() && runtime.arenaSeq == old(runtime.arenaSeq) + 1
    ensures accepted ==> forall r, dv :: 0 <= r < n.Rows() && 0 <= dv < n.dv ==>
      output[r, dv] == Target(norm, op, n, t, shape, r, dv)
    ensures !accepted ==>
      unchanged(output) && unchanged(runtime) && (runtime.Valid() <==> !old(runtime.Displaces(plan)))
  {
    hide IsExp, Ready, Stored, Target, Complete, CeilDiv, Stream.Coherent, Stream.WorkspaceFits, SlotsExist,
      Stream.Runtime.Valid;
    accepted := Stream.WorkspaceFits(plan, call);
    if !accepted {
      runtime.RunRefused(artifact, plan);
      return;
    }
    var seen := runtime.RunCached(artifact, plan, call, scratch);
    SeenIsStored(plan, call, seen, n, t);
    var slots := SlotsFor(plan, call, seen);
    BlockedAttention(norm, op, n, t, shape, StorageFor(plan, call, seen), slots, tileQ, turns, output);
  }
}
