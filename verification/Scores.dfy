/** Masked, modified scores: from query rows, a K head and the score and mask expressions to a score tile. */
module Scores {
  import opened Integers
  import opened Vectors
  import opened Softmax
  import opened Expressions
  import opened Lowering
  import opened Arguments
  import opened ScoreTiles
  import LinearBlocks

  /** One K head as the kernel reads it: the caller's rows, or the panels of a packed copy. */
  datatype Head = Direct(k: seq<Vec>) | Panels(mem: seq<real>, start: nat, stride: nat) {
    /** The head holds keys rows of width d, and a whole tile may be loaded at any of them. */
    ghost predicate Covers(keys: nat, d: nat, tileK: nat) {
      match this
      case Direct(k) => keys <= |k| && forall j :: 0 <= j < keys ==> |k[j]| == d
      case Panels(mem, start, stride) => keys <= stride && start + d * stride + tileK <= |mem|
    }

    /** Loads from any key on, a tile wide, stay inside the memory. */
    lemma PanelReach(keys: nat, d: nat, tileK: nat, j: nat, n: nat, p: nat)
      requires Panels? && Covers(keys, d, tileK) && j < keys && n <= tileK && p < d
      ensures Reach(start + j, stride, p) + n <= |mem| && Reach(start + j, stride, p) < |mem|
    {
      MulMono(p + 1, d, stride);
      assert (p + 1) * stride == Scale(p, stride) + stride;
    }

    /** Row j of the head. */
    ghost function Key(keys: nat, d: nat, tileK: nat, j: nat): (key: Vec)
      requires Covers(keys, d, tileK) && j < keys
      ensures |key| == d
    {
      match this
      case Direct(k) => k[j]
      case Panels(mem, start, stride) =>
        var from := start + j;
        forall p: nat | p < d ensures Reach(from, stride, p) < |mem| {
          PanelReach(keys, d, tileK, j, 0, p);
        }
        Strided(mem, from, stride, d)
    }
  }

  /** Everything the scores of a few query rows against count keys from key first on depend on. */
  datatype Source = Source(
    f: Functions, score: Expr, mask: Expr, arguments: map<string, Argument>, dims: Extents, at: Extents,
    queryOffset: int, q: seq<Vec>, d: nat, head: Head, first: nat, count: nat, shape: Shape)
  {
    /** The expressions are typed as the operator demands, every name is bound once, every index is in range. */
    ghost predicate Valid() {
      && shape.Valid()
      && IsFloat(score) && IsBool(mask) && RealMath(f)
      && Variables(score) <= BoundNames() && Variables(mask) <= BoundNames() - {"x"}
      && {"x", "query_index", "key_index"} !! arguments.Keys
      && (forall name :: name in arguments ==> arguments[name].Fits(dims))
      && (forall axis: Axis :: axis != Query && axis != Axis.Key ==> at(axis) < dims(axis))
      && at(Query) + |q| <= dims(Query) && at(Axis.Key) == 0 && first + count <= dims(Axis.Key)
      && head.Covers(first + count, d, shape.tileK)
      && forall m :: 0 <= m < |q| ==> |q[m]| == d
    }

    ghost function BoundNames(): set<string> {
      {"x", "query_index", "key_index"} + arguments.Keys
    }

    /** The index of query row m and key ki on every axis. */
    function Index(m: nat, ki: nat): Extents {
      Moved(Moved(at, Query, m), Axis.Key, ki)
    }

    lemma IndexInside(m: nat, ki: nat, name: string)
      requires Valid() && m < |q| && ki < dims(Axis.Key) && name in arguments
      ensures Inside(arguments[name].axes, Index(m, ki), dims)
    {
    }

    /** What the scalar code reads for a name. */
    function Bound(m: nat, ki: nat, raw: real, name: string): real
      requires Valid() && m < |q| && ki < dims(Axis.Key)
    {
      if name in arguments then
        IndexInside(m, ki, name);
        arguments[name].Access(Index(m, ki), dims)
      else if name == "x" then raw
      else if name == "query_index" then (at(Query) + m + queryOffset) as real
      else ki as real
    }

    function ScalarEnv(m: nat, ki: nat, raw: real): Env
      requires Valid() && m < |q| && ki < dims(Axis.Key)
    {
      name => Bound(m, ki, raw, name)
    }

    /** What the vector code reads for a name: one value per lane. */
    function BoundLanes(m: nat, ki: nat, raws: seq<real>, name: string): (r: seq<real>)
      requires Valid() && m < |q| && |raws| > 0 && ki + |raws| <= dims(Axis.Key)
      ensures |r| == |raws|
    {
      if name in arguments then
        FarInside(m, ki, |raws| - 1, name);
        arguments[name].Lanes(Index(m, ki), dims, Axis.Key, |raws|)
      else if name == "x" then raws
      else if name == "query_index" then Constant((at(Query) + m + queryOffset) as real, |raws|)
      else IotaLanes(ki as real, |raws|)
    }

    lemma FarInside(m: nat, ki: nat, i: nat, name: string)
      requires Valid() && m < |q| && ki + i < dims(Axis.Key) && name in arguments
      ensures Inside(arguments[name].axes, Moved(Index(m, ki), Axis.Key, i), dims)
    {
    }

    /** The vector code's bindings, name by name. */
    ghost predicate Loaded(m: nat, ki: nat, raws: seq<real>, env: VEnv)
      requires Valid() && m < |q| && |raws| > 0 && ki + |raws| <= dims(Axis.Key)
    {
      forall name :: env(name) == BoundLanes(m, ki, raws, name)
    }

    /** Lane i of every name is what the scalar code reads i keys later. */
    lemma LaneBound(m: nat, ki: nat, raws: seq<real>, i: nat, name: string)
      requires Valid() && m < |q| && i < |raws| && ki + |raws| <= dims(Axis.Key)
      ensures BoundLanes(m, ki, raws, name)[i] == Bound(m, ki + i, raws[i], name)
    {
      hide RealMath, TypeOf, Variables, Offset, Stride, Head.Covers;
      if name in arguments {
        var axes := arguments[name].axes;
        FarInside(m, ki, |raws| - 1, name);
        arguments[name].LaneIsAccess(Index(m, ki), dims, Axis.Key, |raws|, i);
        OffsetCongruent(axes, Moved(Index(m, ki), Axis.Key, i), Index(m, ki + i), dims);
        IndexInside(m, ki + i, name);
      }
    }

    // ---- Meaning -----------------------------------------------------------------

    /** Whether the mask keeps query row m's key ki, and the modified score, from a raw score. */
    predicate Active(m: nat, ki: nat, raw: real)
      requires Valid() && m < |q| && ki < dims(Axis.Key)
    {
      Truth(Evaluate(f, mask, ScalarEnv(m, ki, raw)))
    }

    function Modified(m: nat, ki: nat, raw: real): real
      requires Valid() && m < |q| && ki < dims(Axis.Key)
    {
      Real(Evaluate(f, score, ScalarEnv(m, ki, raw)))
    }

    /** The raw score of column j. */
    ghost function Raw(m: nat, j: nat): real
      requires Valid() && m < |q| && j < count
    {
      Dot(q[m], head.Key(first + count, d, shape.tileK, first + j))
    }

    ghost function RawRow(m: nat): (r: Vec)
      requires Valid() && m < |q|
      ensures |r| == count
    {
      seq(count, j requires 0 <= j < count => Raw(m, j))
    }

    ghost function Cell(m: nat, j: nat): Ext
      requires Valid() && m < |q| && j < count
    {
      if Active(m, first + j, Raw(m, j)) then Fin(Modified(m, first + j, Raw(m, j))) else NegInf
    }

    /** The masked, modified scores of query row m. */
    ghost function Row(m: nat): (row: seq<Ext>)
      requires Valid() && m < |q|
      ensures |row| == count
    {
      seq(count, j requires 0 <= j < count => Cell(m, j))
    }

    ghost function Rows(): (rows: seq<seq<Ext>>)
      requires Valid()
      ensures |rows| == |q| && forall m :: 0 <= m < |q| ==> |rows[m]| == count
    {
      seq(|q|, m requires 0 <= m < |q| => Row(m))
    }

    /** Lane i of the vector code decides and scores as the scalar meaning does. */
    lemma LaneCell(m: nat, ki: nat, raws: seq<real>, env: VEnv, i: nat)
      requires Valid() && m < |q| && i < |raws| && ki + |raws| <= dims(Axis.Key) && Loaded(m, ki, raws, env)
      ensures BitOf(RunVector(f, EmitVector(mask), env, |raws|), i) == Active(m, ki + i, raws[i])
      ensures LaneOf(RunVector(f, EmitVector(score), env, |raws|), i) == Modified(m, ki + i, raws[i])
    {
      hide RealMath, RunVector, Evaluate, Emit, EmitVector, BoundLanes, Bound;
      var scalar := ScalarEnv(m, ki + i, raws[i]);
      var lane := LaneEnv(env, i);
      forall name ensures lane(name) == scalar(name) {
        LaneBound(m, ki, raws, i, name);
      }
      VectorMeans(f, mask, env, |raws|, i);
      VectorMeans(f, score, env, |raws|, i);
      SameVariables(f, mask, lane, scalar);
      SameVariables(f, score, lane, scalar);
      WellTyped(f, mask, scalar);
      WellTyped(f, score, scalar);
    }

    /** So does the scalar code. */
    lemma ScalarCell(m: nat, ki: nat, raw: real)
      requires Valid() && m < |q| && ki < dims(Axis.Key)
      ensures NonZero(Run(f, Emit(mask), ScalarEnv(m, ki, raw))) == Active(m, ki, raw)
      ensures AsFloat(Run(f, Emit(score), ScalarEnv(m, ki, raw))) == Modified(m, ki, raw)
    {
      hide RealMath, Run, Evaluate, Emit, Bound;
      EmitMeans(f, mask, ScalarEnv(m, ki, raw));
      EmitMeans(f, score, ScalarEnv(m, ki, raw));
      WellTyped(f, mask, ScalarEnv(m, ki, raw));
      WellTyped(f, score, ScalarEnv(m, ki, raw));
    }

    /** An accepted causal mask keeps no key past its query. */
    lemma CausalRow(m: nat, j: nat)
      requires Valid() && m < |q| && j < count && ImpliesCausality(mask) && Row(m)[j].Fin?
      ensures first + j <= at(Query) + m + queryOffset
    {
      hide RealMath, Evaluate;
      CausalMaskSound(f, mask, ScalarEnv(m, first + j, Raw(m, j)));
    }
  }

  /** Compile-time sizes; every key tile is a whole number of vector groups. */
  datatype Shape = Shape(lanes: nat, vectors: nat, tileD: nat, tileK: nat) {
    predicate Valid() {
      lanes > 0 && vectors > 0 && tileD > 0 && tileK > 0 && tileK % (vectors * lanes) == 0
    }
  }

  // ---- The raw score tile --------------------------------------------------------

  /** Adds one component's products to every total of a column group. */
  method AddPanel(q: seq<Vec>, p: nat, mem: seq<real>, panel: nat, total: array2<real>)
    requires |q| == total.Length0 && panel + total.Length1 <= |mem| && forall m :: 0 <= m < |q| ==> p < |q[m]|
    modifies total
    ensures forall m, c :: 0 <= m < |q| && 0 <= c < total.Length1 ==>
      total[m, c] == old(total[m, c]) + q[m][p] * mem[panel + c]
  {
    for c := 0 to total.Length1
      invariant forall m, j :: 0 <= m < |q| && 0 <= j < total.Length1 ==>
        total[m, j] == if j < c then old(total[m, j]) + q[m][p] * mem[panel + j] else old(total[m, j])
    {
      for m := 0 to |q|
        invariant forall i, j :: 0 <= i < |q| && 0 <= j < total.Length1 ==>
          total[i, j] == if j < c || (j == c && i < m) then old(total[i, j]) + q[i][p] * mem[panel + j]
            else old(total[i, j])
      {
        total[m, c] := total[m, c] + q[m][p] * mem[panel + c];
      }
    }
  }

  /** All columns of a load, a panel stride apart, stay inside the memory. */
  ghost predicate Readable(mem: seq<real>, base: nat, stride: nat, d: nat, width: nat) {
    forall p: nat :: p < d ==> Reach(base, stride, p) + width <= |mem|
  }

  ghost function Column(mem: seq<real>, base: nat, stride: nat, d: nat, width: nat, n: nat): (r: Vec)
    requires Readable(mem, base, stride, d, width) && n < width
    ensures |r| == d
  {
    seq(d, p requires 0 <= p < d => mem[Reach(base, stride, p) + n])
  }

  /** One block of components. */
  method PackedBlock(
    q: seq<Vec>, mem: seq<real>, base: nat, stride: nat, ghost d: nat, db: nat, dend: nat, ghost cols: seq<Vec>,
    total: array2<real>)
    requires db <= dend <= d && |q| == total.Length0 && Readable(mem, base, stride, d, total.Length1)
    requires (forall m :: 0 <= m < |q| ==> |q[m]| == d) && |cols| == total.Length1
    requires forall c: nat :: c < |cols| ==> |cols[c]| == d && cols[c] == Column(mem, base, stride, d, total.Length1, c)
    requires forall m, c :: 0 <= m < |q| && 0 <= c < total.Length1 ==> total[m, c] == DotN(q[m], cols[c], db)
    modifies total
    ensures forall m, c :: 0 <= m < |q| && 0 <= c < total.Length1 ==> total[m, c] == DotN(q[m], cols[c], dend)
  {
    hide Readable, DotN;
    for p := db to dend
      invariant forall m, c :: 0 <= m < |q| && 0 <= c < total.Length1 ==> total[m, c] == DotN(q[m], cols[c], p)
    {
      ReadableAt(mem, base, stride, d, total.Length1, p);
      AddPanel(q, p, mem, base + p * stride, total);
      forall m, c | 0 <= m < |q| && 0 <= c < total.Length1 ensures total[m, c] == DotN(q[m], cols[c], p + 1) {
        DotGrows(q[m], cols[c], p);
      }
    }
  }

  lemma ReadableAt(mem: seq<real>, base: nat, stride: nat, d: nat, width: nat, p: nat)
    requires Readable(mem, base, stride, d, width) && p < d
    ensures base + p * stride == Reach(base, stride, p) && base + p * stride + width <= |mem|
  {
    assert Reach(base, stride, p) + width <= |mem|;
  }

  lemma DotGrows(x: Vec, y: Vec, p: nat)
    requires p < |x| && p < |y|
    ensures DotN(x, y, p + 1) == DotN(x, y, p) + x[p] * y[p]
  {
  }

  /** One group of columns: component blocks, then components, then columns and query rows. */
  method PackedGroup(q: seq<Vec>, mem: seq<real>, base: nat, stride: nat, d: nat, tileD: nat, total: array2<real>)
    requires tileD > 0 && |q| == total.Length0 && Readable(mem, base, stride, d, total.Length1)
    requires forall m :: 0 <= m < |q| ==> |q[m]| == d
    requires forall m, c :: 0 <= m < |q| && 0 <= c < total.Length1 ==> total[m, c] == 0.0
    modifies total
    ensures forall m, c :: 0 <= m < |q| && 0 <= c < total.Length1 ==>
      total[m, c] == DotN(q[m], Column(mem, base, stride, d, total.Length1, c), d)
  {
    ghost var width := total.Length1;
    ghost var cols := seq(width, c requires 0 <= c < width => Column(mem, base, stride, d, width, c));
    var db := 0;
    ghost var done := 0;
    while db < d
      invariant 0 <= db && done == (if db < d then db else d)
      invariant forall m, c :: 0 <= m < |q| && 0 <= c < width ==> total[m, c] == DotN(q[m], cols[c], done)
    {
      hide DotN, Column, Readable;
      var dend := if db + tileD < d then db + tileD else d;
      PackedBlock(q, mem, base, stride, d, db, dend, cols, total);
      db := db + tileD;
      done := dend;
    }
    assert forall m, c :: 0 <= m < |q| && 0 <= c < width ==> total[m, c] == DotN(q[m], cols[c], d);
  }

  /** The packed tile: every column group of every valid query row, a full tile wide. */
  method PackedTile(q: seq<Vec>, mem: seq<real>, base: nat, stride: nat, d: nat, shape: Shape, tile: array2<Ext>)
    requires shape.Valid() && |q| <= tile.Length0 && tile.Length1 == shape.tileK
    requires Readable(mem, base, stride, d, shape.tileK) && forall m :: 0 <= m < |q| ==> |q[m]| == d
    modifies tile
    ensures forall m, n :: 0 <= m < |q| && 0 <= n < shape.tileK ==>
      tile[m, n] == Fin(DotN(q[m], Column(mem, base, stride, d, shape.tileK, n), d))
  {
    var group := shape.vectors * shape.lanes;
    var nb := 0;
    while nb < shape.tileK
      invariant 0 <= nb <= shape.tileK && nb % group == 0
      invariant forall m, n :: 0 <= m < |q| && 0 <= n < nb ==>
        tile[m, n] == Fin(DotN(q[m], Column(mem, base, stride, d, shape.tileK, n), d))
    {
      GroupFits(nb, shape.tileK, group);
      StoreGroup(q, mem, base, stride, d, shape, nb, group, tile);
      nb := nb + group;
    }
  }

  lemma GroupFits(nb: nat, tileK: nat, group: nat)
    requires group > 0 && nb < tileK && nb % group == 0 && tileK % group == 0
    ensures nb + group <= tileK && (nb + group) % group == 0
  {
    DivModSplit(nb, group);
    DivModSplit(tileK, group);
    var a, b := nb / group, tileK / group;
    if b <= a { MulMono(b, a, group); }
    MulMono(a + 1, b, group);
    assert (a + 1) * group == a * group + group;
    DivModUnique(nb + group, group, a + 1, 0);
  }

  method StoreGroup(
    q: seq<Vec>, mem: seq<real>, base: nat, stride: nat, d: nat, shape: Shape, nb: nat, group: nat, tile: array2<Ext>)
    requires shape.tileD > 0 && nb + group <= shape.tileK == tile.Length1 && |q| <= tile.Length0
    requires Readable(mem, base, stride, d, shape.tileK) && forall m :: 0 <= m < |q| ==> |q[m]| == d
    modifies tile
    ensures forall m, n :: 0 <= m < |q| && 0 <= n < shape.tileK ==>
      tile[m, n] == if nb <= n < nb + group then Fin(DotN(q[m], Column(mem, base, stride, d, shape.tileK, n), d))
        else old(tile[m, n])
  {
    hide DotN;
    var total := new real[|q|, group]((m, c) => 0.0);
    var from := base + nb;
    forall p: nat | p < d ensures Reach(from, stride, p) + group <= |mem| {
      assert Reach(base, stride, p) + shape.tileK <= |mem|;
    }
    PackedGroup(q, mem, from, stride, d, shape.tileD, total);
    forall c: nat | c < group
      ensures Column(mem, from, stride, d, group, c) == Column(mem, base, stride, d, shape.tileK, nb + c)
    {
    }
    ghost var target := seq(|q|, m requires 0 <= m < |q| => seq(shape.tileK, n requires 0 <= n < shape.tileK =>
      DotN(q[m], Column(mem, base, stride, d, shape.tileK, n), d)));
    assert forall m, c :: 0 <= m < |q| && 0 <= c < group ==> total[m, c] == target[m][nb + c];
    StoreTotals(total, nb, |q|, tile);
    forall m, n | 0 <= m < |q| && nb <= n < nb + group
      ensures tile[m, n] == Fin(DotN(q[m], Column(mem, base, stride, d, shape.tileK, n), d))
    {
      assert total[m, n - nb] == target[m][nb + (n - nb)];
    }
  }

  method StoreTotals(total: array2<real>, nb: nat, rows: nat, tile: array2<Ext>)
    requires rows <= total.Length0 && rows <= tile.Length0 && nb + total.Length1 <= tile.Length1
    modifies tile
    ensures forall m, n :: 0 <= m < rows && 0 <= n < tile.Length1 ==>
      tile[m, n] == if nb <= n < nb + total.Length1 then Fin(total[m, n - nb]) else old(tile[m, n])
  {
    for m := 0 to rows
      invariant forall i, n :: 0 <= i < rows && 0 <= n < tile.Length1 ==>
        tile[i, n] == if i < m && nb <= n < nb + total.Length1 then Fin(total[i, n - nb]) else old(tile[i, n])
    {
      for c := 0 to total.Length1
        invariant forall i, n :: 0 <= i < rows && 0 <= n < tile.Length1 ==>
          tile[i, n] ==
            if (i < m && nb <= n < nb + total.Length1) || (i == m && nb <= n < nb + c) then Fin(total[i, n - nb])
            else old(tile[i, n])
      {
        tile[m, nb + c] := Fin(total[m, c]);
      }
    }
  }

  /** The direct tile: a dot product per query row and valid key. */
  method DirectTile(q: seq<Vec>, k: seq<Vec>, begin: nat, nValid: nat, lanes: nat, tile: array2<Ext>)
    requires lanes > 0 && |q| <= tile.Length0 && nValid <= tile.Length1 && begin + nValid <= |k|
    requires forall m, j :: 0 <= m < |q| && begin <= j < begin + nValid ==> |q[m]| == |k[j]|
    modifies tile
    ensures forall m, n :: 0 <= m < |q| && 0 <= n < nValid ==> tile[m, n] == Fin(Dot(q[m], k[begin + n]))
  {
    hide Dot;
    for m := 0 to |q|
      invariant forall i, n :: 0 <= i < m && 0 <= n < nValid ==> tile[i, n] == Fin(Dot(q[i], k[begin + n]))
    {
      for n := 0 to nValid
        invariant forall i, j :: 0 <= i < |q| && 0 <= j < nValid && (i < m || (i == m && j < n)) ==>
          tile[i, j] == Fin(Dot(q[i], k[begin + j]))
      {
        assert |q[m]| == |k[begin + n]|;
        var total := LinearBlocks.DotProduct(q[m], k[begin + n], lanes);
        tile[m, n] := Fin(total);
      }
    }
  }

  /** Either tile, from any starting key: the first nValid columns are the raw scores. */
  method QkTile(src: Source, kb: nat, nValid: nat, tile: array2<Ext>)
    requires src.Valid() && |src.q| <= tile.Length0 && tile.Length1 == src.shape.tileK
    requires nValid <= src.shape.tileK && kb + nValid <= src.count && kb < src.count
    modifies tile
    ensures forall m, n :: 0 <= m < |src.q| && 0 <= n < nValid ==> tile[m, n] == Fin(src.RawRow(m)[kb + n])
  {
    hide RealMath, DotN;
    match src.head
    case Direct(k) =>
      DirectTile(src.q, k, src.first + kb, nValid, src.shape.lanes, tile);
    case Panels(mem, start, stride) =>
      var base := start + src.first + kb;
      forall p: nat | p < src.d ensures Reach(base, stride, p) + src.shape.tileK <= |mem| {
        src.head.PanelReach(src.first + src.count, src.d, src.shape.tileK, src.first + kb, src.shape.tileK, p);
      }
      PackedTile(src.q, mem, base, stride, src.d, src.shape, tile);
      forall n: nat | n < nValid
        ensures Column(mem, base, stride, src.d, src.shape.tileK, n)
             == src.head.Key(src.first + src.count, src.d, src.shape.tileK, src.first + kb + n)
      {
      }
  }

  // ---- Masking -------------------------------------------------------------------

  /** What the vector code binds: strided argument loads along the key axis, the raw scores, the query index
      repeated and consecutive key indices. */
  method LoadVectors(src: Source, m: nat, ki: nat, raws: seq<real>) returns (env: VEnv)
    requires src.Valid() && m < |src.q| && |raws| > 0 && ki + |raws| <= src.dims(Axis.Key)
    ensures src.Loaded(m, ki, raws, env)
  {
    hide RealMath, Argument.Lanes, Argument.Fits, Inside, IotaLanes;
    var lanes := |raws|;
    forall name | name in src.arguments
      ensures Inside(src.arguments[name].axes, Moved(src.Index(m, ki), Axis.Key, lanes - 1), src.dims)
    {
      src.FarInside(m, ki, lanes - 1, name);
    }
    var loads := LoadArguments(src.arguments, src.Index(m, ki), src.dims, Axis.Key, lanes);
    var query := Constant((src.at(Query) + m + src.queryOffset) as real, lanes);
    var keys := Iota(ki as real, lanes);
    env := name =>
      if name in loads then loads[name] else if name == "x" then raws
      else if name == "query_index" then query else keys;
  }

  /** One vector of keys: which are active, and their modified scores. */
  method LaneScores(src: Source, m: nat, ki: nat, raws: seq<real>) returns (active: seq<bool>, scores: seq<real>)
    requires src.Valid() && m < |src.q| && |raws| > 0 && ki + |raws| <= src.dims(Axis.Key)
    ensures |active| == |scores| == |raws|
    ensures forall i :: 0 <= i < |raws| ==>
      active[i] == src.Active(m, ki + i, raws[i]) && scores[i] == src.Modified(m, ki + i, raws[i])
  {
    hide *;
    var lanes := |raws|;
    var env := LoadVectors(src, m, ki, raws);
    var activeV := RunVector(src.f, EmitVector(src.mask), env, lanes);
    var scoreV := RunVector(src.f, EmitVector(src.score), env, lanes);
    active := seq(lanes, i requires 0 <= i < lanes => BitOf(activeV, i));
    scores := seq(lanes, i requires 0 <= i < lanes => LaneOf(scoreV, i));
    forall i | 0 <= i < lanes
      ensures active[i] == src.Active(m, ki + i, raws[i]) && scores[i] == src.Modified(m, ki + i, raws[i])
    {
      src.LaneCell(m, ki, raws, env, i);
    }
  }

  /** One key of the scalar tail. */
  method TailScore(src: Source, m: nat, ki: nat, raw: real) returns (active: bool, score: real)
    requires src.Valid() && m < |src.q| && ki < src.dims(Axis.Key)
    ensures active == src.Active(m, ki, raw) && score == src.Modified(m, ki, raw)
  {
    hide *;
    var env := src.ScalarEnv(m, ki, raw);
    active := NonZero(Run(src.f, Emit(src.mask), env));
    score := AsFloat(Run(src.f, Emit(src.score), env));
    src.ScalarCell(m, ki, raw);
  }

  /** The masked score of a cell as the softmax path stores it. */
  function Masked(active: bool, score: real, scale: real): Ext {
    if active then Fin(Times(score, scale)) else NegInf
  }

  method StoreLanes(tile: array2<Ext>, m: nat, n: nat, cells: seq<Ext>)
    requires m < tile.Length0 && n + |cells| <= tile.Length1
    modifies tile
    ensures forall i, j :: 0 <= i < tile.Length0 && 0 <= j < tile.Length1 ==>
      tile[i, j] == if i == m && n <= j < n + |cells| then cells[j - n] else old(tile[i, j])
  {
    for c := 0 to |cells|
      invariant forall i, j :: 0 <= i < tile.Length0 && 0 <= j < tile.Length1 ==>
        tile[i, j] == if i == m && n <= j < n + c then cells[j - n] else old(tile[i, j])
    {
      tile[m, n + c] := cells[c];
    }
  }

  /** Loads one vector of raw scores. */
  method LoadLanes(src: Source, m: nat, kb: nat, n: nat, nValid: nat, tile: array2<Ext>) returns (raws: seq<real>)
    requires src.Valid() && m < |src.q| <= tile.Length0 && nValid <= tile.Length1 && kb + nValid <= src.count
    requires n + Lanes(src) <= nValid && forall j :: n <= j < nValid ==> tile[m, j] == Fin(src.RawRow(m)[kb + j])
    ensures raws == src.RawRow(m)[kb + n..kb + n + Lanes(src)]
  {
    hide Source.Valid, Source.RawRow;
    raws := [];
    for i := 0 to Lanes(src)
      invariant raws == src.RawRow(m)[kb + n..kb + n + i]
    {
      raws := raws + [ScoreTiles.Value(tile[m, n + i])];
    }
  }

  /** A row cell seen from the raw score it comes from. */
  lemma CellOfRaw(src: Source, m: nat, j: nat)
    requires src.Valid() && m < |src.q| && j < src.count
    ensures src.first + j < src.dims(Axis.Key)
    ensures src.Row(m)[j] ==
      if src.Active(m, src.first + j, src.RawRow(m)[j]) then Fin(src.Modified(m, src.first + j, src.RawRow(m)[j]))
      else NegInf
  {
    hide Source.Active, Source.Modified;
  }

  /** One vector of a row through the softmax path's transform. */
  method MaskLanes(src: Source, scale: real, m: nat, kb: nat, n: nat, nValid: nat, tile: array2<Ext>)
    requires src.Valid() && m < |src.q| <= tile.Length0 && nValid <= tile.Length1 && kb + nValid <= src.count
    requires n + Lanes(src) <= nValid && forall j :: n <= j < nValid ==> tile[m, j] == Fin(src.RawRow(m)[kb + j])
    modifies tile
    ensures forall i, j :: 0 <= i < tile.Length0 && 0 <= j < tile.Length1 ==>
      tile[i, j] == if i == m && n <= j < n + Lanes(src) then ScaleScores(src.Row(m), scale)[kb + j]
        else old(tile[i, j])
  {
    hide Source.Valid, Source.Active, Source.Modified, Source.RawRow, Source.Row;
    var lanes := Lanes(src);
    KeysInside(src, kb, nValid);
    var raws := LoadLanes(src, m, kb, n, nValid, tile);
    var active, scores := LaneScores(src, m, src.first + kb + n, raws);
    var cells := seq(lanes, i requires 0 <= i < lanes => Masked(active[i], scores[i], scale));
    ghost var row := ScaleScores(src.Row(m), scale);
    forall i | 0 <= i < lanes ensures cells[i] == row[kb + n..kb + n + lanes][i] {
      CellOfRaw(src, m, kb + n + i);
      assert src.first + kb + n + i == src.first + (kb + n + i);
    }
    assert cells == row[kb + n..kb + n + lanes];
    StoreLanes(tile, m, n, cells);
  }

  /** The softmax path's transform of one row: a vector body, then a scalar tail. */
  method MaskRow(src: Source, scale: real, m: nat, kb: nat, nValid: nat, tile: array2<Ext>)
    requires src.Valid() && m < |src.q| <= tile.Length0 && nValid <= tile.Length1 && kb + nValid <= src.count
    requires forall n :: 0 <= n < nValid ==> tile[m, n] == Fin(src.RawRow(m)[kb + n])
    modifies tile
    ensures forall n :: 0 <= n < nValid ==> tile[m, n] == ScaleScores(src.Row(m), scale)[kb + n]
    ensures forall i, n :: 0 <= i < tile.Length0 && i != m && 0 <= n < tile.Length1 ==> tile[i, n] == old(tile[i, n])
  {
    hide Source.Valid, Source.Active, Source.Modified, Source.RawRow, Source.Row;
    var lanes := Lanes(src);
    ghost var row := ScaleScores(src.Row(m), scale);
    var n := 0;
    while n + lanes <= nValid
      invariant 0 <= n <= nValid
      invariant forall j :: 0 <= j < n ==> tile[m, j] == row[kb + j]
      invariant forall j :: n <= j < nValid ==> tile[m, j] == Fin(src.RawRow(m)[kb + j])
      invariant forall i, j :: 0 <= i < tile.Length0 && i != m && 0 <= j < tile.Length1 ==>
        tile[i, j] == old(tile[i, j])
    {
      MaskLanes(src, scale, m, kb, n, nValid, tile);
      n := n + lanes;
    }
    while n < nValid
      invariant 0 <= n <= nValid
      invariant forall j :: 0 <= j < n ==> tile[m, j] == row[kb + j]
      invariant forall j :: n <= j < nValid ==> tile[m, j] == Fin(src.RawRow(m)[kb + j])
      invariant forall i, j :: 0 <= i < tile.Length0 && i != m && 0 <= j < tile.Length1 ==>
        tile[i, j] == old(tile[i, j])
    {
      KeysInside(src, kb, nValid);
      var active, score := TailScore(src, m, src.first + kb + n, ScoreTiles.Value(tile[m, n]));
      assert src.first + kb + n == src.first + (kb + n);
      CellOfRaw(src, m, kb + n);
      tile[m, n] := Masked(active, score, scale);
      n := n + 1;
    }
  }

  function Lanes(src: Source): (lanes: nat)
    requires src.Valid()
    ensures lanes > 0
  {
    src.shape.lanes
  }

  lemma KeysInside(src: Source, kb: nat, nValid: nat)
    requires src.Valid() && kb + nValid <= src.count
    ensures src.first + kb + nValid <= src.dims(Axis.Key)
  {
  }

  /** A cell as the generic path stores it: its score, zero when masked, and a flag. */
  ghost predicate Flagged(cell: Ext, flag: real, score: Ext) {
    cell == Fin(ScoreTiles.Value(score)) && flag == if score.Fin? then 1.0 else 0.0
  }

  /** One vector of a row through the generic path's transform. */
  method FlagLanes(src: Source, m: nat, kb: nat, n: nat, nValid: nat, tile: array2<Ext>, step: array2<real>)
    requires src.Valid() && m < |src.q| <= tile.Length0 == step.Length0 && nValid <= tile.Length1 == step.Length1
    requires kb + nValid <= src.count
    requires n + Lanes(src) <= nValid && forall j :: n <= j < nValid ==> tile[m, j] == Fin(src.RawRow(m)[kb + j])
    modifies tile, step
    ensures forall j :: n <= j < n + Lanes(src) ==> Flagged(tile[m, j], step[m, j], src.Row(m)[kb + j])
    ensures forall i, j :: 0 <= i < tile.Length0 && 0 <= j < tile.Length1 && !(i == m && n <= j < n + Lanes(src)) ==>
      tile[i, j] == old(tile[i, j]) && step[i, j] == old(step[i, j])
  {
    hide Source.Valid, Source.Active, Source.Modified, Source.RawRow, Source.Row;
    var lanes := Lanes(src);
    KeysInside(src, kb, nValid);
    var raws := LoadLanes(src, m, kb, n, nValid, tile);
    var active, scores := LaneScores(src, m, src.first + kb + n, raws);
    ghost var row := src.Row(m);
    ghost var cells := seq(lanes, i requires 0 <= i < lanes => if active[i] then Fin(scores[i]) else NegInf);
    forall i | 0 <= i < lanes ensures cells[i] == row[kb + n..kb + n + lanes][i] {
      CellOfRaw(src, m, kb + n + i);
      assert src.first + kb + n + i == src.first + (kb + n + i);
    }
    assert cells == row[kb + n..kb + n + lanes];
    StoreFlags(tile, step, m, n, active, scores);
    forall j | n <= j < n + lanes ensures Flagged(tile[m, j], step[m, j], row[kb + j]) {
      assert cells[j - n] == row[kb + j];
    }
  }

  /** The generic path's transform of one row: zeroed scores and a flag per cell. */
  method FlagRow(src: Source, m: nat, kb: nat, nValid: nat, tile: array2<Ext>, step: array2<real>)
    requires src.Valid() && m < |src.q| <= tile.Length0 == step.Length0 && nValid <= tile.Length1 == step.Length1
    requires kb + nValid <= src.count
    requires forall n :: 0 <= n < nValid ==> tile[m, n] == Fin(src.RawRow(m)[kb + n])
    modifies tile, step
    ensures forall n :: 0 <= n < nValid ==> Flagged(tile[m, n], step[m, n], src.Row(m)[kb + n])
    ensures forall i, n :: 0 <= i < tile.Length0 && i != m && 0 <= n < tile.Length1 ==>
      tile[i, n] == old(tile[i, n]) && step[i, n] == old(step[i, n])
  {
    hide Source.Valid, Source.Active, Source.Modified, Source.RawRow, Source.Row, Flagged;
    var lanes := Lanes(src);
    ghost var row := src.Row(m);
    var n := 0;
    while n + lanes <= nValid
      invariant 0 <= n <= nValid
      invariant forall j :: 0 <= j < n ==> Flagged(tile[m, j], step[m, j], row[kb + j])
      invariant forall j :: n <= j < nValid ==> tile[m, j] == Fin(src.RawRow(m)[kb + j])
      invariant forall i, j :: 0 <= i < tile.Length0 && i != m && 0 <= j < tile.Length1 ==>
        tile[i, j] == old(tile[i, j]) && step[i, j] == old(step[i, j])
    {
      FlagLanes(src, m, kb, n, nValid, tile, step);
      n := n + lanes;
    }
    while n < nValid
      invariant 0 <= n <= nValid
      invariant forall j :: 0 <= j < n ==> Flagged(tile[m, j], step[m, j], row[kb + j])
      invariant forall j :: n <= j < nValid ==> tile[m, j] == Fin(src.RawRow(m)[kb + j])
      invariant forall i, j :: 0 <= i < tile.Length0 && i != m && 0 <= j < tile.Length1 ==>
        tile[i, j] == old(tile[i, j]) && step[i, j] == old(step[i, j])
    {
      FlagTail(src, m, kb, n, nValid, tile, step);
      n := n + 1;
    }
  }

  /** One key of the generic path's scalar tail. */
  method FlagTail(src: Source, m: nat, kb: nat, n: nat, nValid: nat, tile: array2<Ext>, step: array2<real>)
    requires src.Valid() && m < |src.q| <= tile.Length0 == step.Length0 && nValid <= tile.Length1 == step.Length1
    requires kb + nValid <= src.count && n < nValid && tile[m, n] == Fin(src.RawRow(m)[kb + n])
    modifies tile, step
    ensures Flagged(tile[m, n], step[m, n], src.Row(m)[kb + n])
    ensures forall i, j :: 0 <= i < tile.Length0 && 0 <= j < tile.Length1 && !(i == m && j == n) ==>
      tile[i, j] == old(tile[i, j]) && step[i, j] == old(step[i, j])
  {
    hide Source.Valid, Source.Active, Source.Modified, Source.RawRow, Source.Row;
    KeysInside(src, kb, nValid);
    var active, score := TailScore(src, m, src.first + kb + n, ScoreTiles.Value(tile[m, n]));
    assert src.first + kb + n == src.first + (kb + n);
    CellOfRaw(src, m, kb + n);
    step[m, n] := if active then 1.0 else 0.0;
    tile[m, n] := Fin(if active then score else 0.0);
  }

  method StoreFlags(tile: array2<Ext>, step: array2<real>, m: nat, n: nat, active: seq<bool>, scores: seq<real>)
    requires m < tile.Length0 == step.Length0 && tile.Length1 == step.Length1 && n + |active| <= tile.Length1
    requires |active| == |scores|
    modifies tile, step
    ensures forall i, j :: 0 <= i < tile.Length0 && 0 <= j < tile.Length1 ==>
      tile[i, j] == if i == m && n <= j < n + |active| then Fin(if active[j - n] then scores[j - n] else 0.0)
        else old(tile[i, j])
    ensures forall i, j :: 0 <= i < tile.Length0 && 0 <= j < tile.Length1 ==>
      step[i, j] == if i == m && n <= j < n + |active| then (if active[j - n] then 1.0 else 0.0) else old(step[i, j])
  {
    for c := 0 to |active|
      invariant forall i, j :: 0 <= i < tile.Length0 && 0 <= j < tile.Length1 ==>
        tile[i, j] == if i == m && n <= j < n + c then Fin(if active[j - n] then scores[j - n] else 0.0)
          else old(tile[i, j])
      invariant forall i, j :: 0 <= i < tile.Length0 && 0 <= j < tile.Length1 ==>
        step[i, j] == if i == m && n <= j < n + c then (if active[j - n] then 1.0 else 0.0) else old(step[i, j])
    {
      tile[m, n + c] := Fin(if active[c] then scores[c] else 0.0);
      step[m, n + c] := if active[c] then 1.0 else 0.0;
    }
  }

  /** The rows the softmax path works on. */
  ghost function ScaledRows(src: Source, scale: real): (rows: seq<seq<Ext>>)
    requires src.Valid()
    ensures |rows| == |src.q| && forall m :: 0 <= m < |rows| ==> |rows[m]| == src.count
  {
    seq(|src.q|, m requires 0 <= m < |src.q| => ScaleScores(src.Row(m), scale))
  }

  /** A key tile's scores for the softmax path. */
  method LoadScores(src: Source, scale: real, kb: nat, nValid: nat, tile: array2<Ext>)
    requires src.Valid() && |src.q| <= tile.Length0 && tile.Length1 == src.shape.tileK
    requires nValid <= src.shape.tileK && kb + nValid <= src.count && kb < src.count
    modifies tile
    ensures forall m, n :: 0 <= m < |src.q| && 0 <= n < nValid ==> tile[m, n] == ScaledRows(src, scale)[m][kb + n]
  {
    hide Source.Valid, Source.RawRow, Source.Row, ScaleScores;
    QkTile(src, kb, nValid, tile);
    for m := 0 to |src.q|
      invariant forall i, n :: 0 <= i < m && 0 <= n < nValid ==> tile[i, n] == ScaledRows(src, scale)[i][kb + n]
      invariant forall i, n :: m <= i < |src.q| && 0 <= n < nValid ==> tile[i, n] == Fin(src.RawRow(i)[kb + n])
    {
      MaskRow(src, scale, m, kb, nValid, tile);
    }
  }

  /** A key tile's scores and flags for the generic path. */
  method LoadFlags(src: Source, kb: nat, nValid: nat, tile: array2<Ext>, step: array2<real>)
    requires src.Valid() && |src.q| <= tile.Length0 == step.Length0 && tile.Length1 == step.Length1 == src.shape.tileK
    requires nValid <= src.shape.tileK && kb + nValid <= src.count && kb < src.count
    modifies tile, step
    ensures forall m, n :: 0 <= m < |src.q| && 0 <= n < nValid ==>
      Flagged(tile[m, n], step[m, n], src.Rows()[m][kb + n])
  {
    hide Source.Valid, Source.RawRow, Source.Row, Flagged;
    QkTile(src, kb, nValid, tile);
    for m := 0 to |src.q|
      invariant forall i, n :: 0 <= i < m && 0 <= n < nValid ==> Flagged(tile[i, n], step[i, n], src.Rows()[i][kb + n])
      invariant forall i, n :: m <= i < |src.q| && 0 <= n < nValid ==> tile[i, n] == Fin(src.RawRow(i)[kb + n])
    {
      FlagRow(src, m, kb, nValid, tile, step);
    }
  }

  // ---- Other views of the same scores ---------------------------------------------

  /** A cell depends on its query and key, their indices and the arguments there, not on how the head is
      stored or on which rows and keys the view holds. */
  lemma CellCongruent(a: Source, b: Source, m: nat, n: nat, i: nat, j: nat)
    requires a.Valid() && b.Valid() && m < |a.q| && n < |b.q| && i < a.count && j < b.count
    requires b == a.(at := b.at, q := b.q, head := b.head, first := b.first, count := b.count, shape := b.shape)
    requires a.first + i == b.first + j && a.at(Query) + m == b.at(Query) + n && a.q[m] == b.q[n]
    requires forall axis: Axis :: axis != Query ==> a.at(axis) == b.at(axis)
    requires a.head.Key(a.first + a.count, a.d, a.shape.tileK, a.first + i)
          == b.head.Key(b.first + b.count, b.d, b.shape.tileK, b.first + j)
    ensures a.Cell(m, i) == b.Cell(n, j)
  {
    hide RealMath, Evaluate;
    var raw, ki := a.Raw(m, i), a.first + i;
    assert raw == b.Raw(n, j);
    forall name ensures a.ScalarEnv(m, ki, raw)(name) == b.ScalarEnv(n, ki, raw)(name) {
      assert a.ScalarEnv(m, ki, raw)(name) == a.Bound(m, ki, raw, name);
      assert b.ScalarEnv(n, ki, raw)(name) == b.Bound(n, ki, raw, name);
      if name in a.arguments {
        a.IndexInside(m, ki, name);
        b.IndexInside(n, ki, name);
        OffsetCongruent(a.arguments[name].axes, a.Index(m, ki), b.Index(n, ki), a.dims);
      }
    }
    SameVariables(a.f, a.mask, a.ScalarEnv(m, ki, raw), b.ScalarEnv(n, ki, raw));
    SameVariables(a.f, a.score, a.ScalarEnv(m, ki, raw), b.ScalarEnv(n, ki, raw));
  }

  /** The keys lo .. hi of a source. */
  function Slice(src: Source, lo: nat, hi: nat): Source
    requires src.first == 0 && lo <= hi <= src.count
  {
    src.(first := lo, count := hi - lo)
  }

  lemma SliceRow(src: Source, lo: nat, hi: nat, m: nat)
    requires src.Valid() && src.first == 0 && lo <= hi <= src.count && m < |src.q|
    ensures Slice(src, lo, hi).Valid() && Slice(src, lo, hi).Row(m) == src.Row(m)[lo..hi]
  {
    hide RealMath, Evaluate, Source.Cell;
    var slice := Slice(src, lo, hi);
    assert slice.Valid();
    forall j | 0 <= j < hi - lo ensures slice.Row(m)[j] == src.Row(m)[lo..hi][j] {
      CellCongruent(src, slice, m, m, lo + j, j);
    }
  }
}
