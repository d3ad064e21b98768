/** What a parallel attention call scores, in the caller's own terms: which q and k rows, which indices and which
    tensor elements decide one query's score of one key. */
module AttentionMeaning {
  import opened Integers
  import opened Vectors
  import opened Softmax
  import opened Expressions
  import opened Arguments
  import opened Scores
  import opened Attention
  import Lowering
  import Packing

  /** One score: batch, query head, the K and V head it shares, query and key. */
  datatype Site = Site(b: nat, h: nat, g: nat, qi: nat, j: nat) {
    /** The site is in the call, and its K and V head is the one whose stretch of the query heads holds the head. */
    predicate In(n: Sizes) {
      && b < n.b && h < n.hq && g < n.hkv && qi < n.sq && j < n.skv
      && g * n.hq <= h * n.hkv < (g + 1) * n.hq
    }

    predicate IsIndex(at: Extents) {
      && at(Batch) == b && at(QueryHead) == h && at(KvHead) == g && at(Query) == qi && at(Axis.Key) == j
      && at(StateHead) == at(ParameterGroup) == at(Sequence) == at(Axis.D) == at(Axis.DV) == 0
    }
  }

  predicate IsShape(dims: Extents, n: Sizes) {
    && dims(Batch) == n.b && dims(QueryHead) == n.hq && dims(KvHead) == n.hkv && dims(Query) == n.sq
    && dims(Axis.Key) == n.skv
    && dims(StateHead) == dims(ParameterGroup) == dims(Sequence) == dims(Axis.D) == dims(Axis.DV) == 1
  }

  /** The two indices, and every argument's element at the site. */
  ghost predicate Reads(t: Tensors, n: Sizes, s: Site, env: Env) {
    && env("query_index") == (s.qi + t.queryOffset) as real && env("key_index") == s.j as real
    && forall name, at, dims ::
      name in t.arguments && s.IsIndex(at) && IsShape(dims, n)
      && t.arguments[name].Fits(dims) && Inside(t.arguments[name].axes, at, dims) ==>
      env(name) == t.arguments[name].Access(at, dims)
  }

  /** The output row of a site, and the rows it reads. */
  lemma SiteRows(op: Operator, n: Sizes, t: Tensors, shape: Shape, s: Site)
    requires Ready(op, n, t, shape) && s.In(n)
    ensures OutputRow(n, s) < |t.q| && |t.q[OutputRow(n, s)]| == n.d
    ensures SharedRow(n, s) < |t.k| == |t.v| && |t.k[SharedRow(n, s)]| == n.skv && |t.k[SharedRow(n, s)][s.j]| == n.d
    ensures OutputRow(n, s) / n.sq == s.b * n.hq + s.h && OutputRow(n, s) % n.sq == s.qi
    ensures n.KvHead(s.b * n.hq + s.h) == SharedRow(n, s)
  {
    hide Lowering.RealMath, TypeOf, Shape.Valid, Argument.Fits;
    HeadInside(s.b, s.h, n.b, n.hq);
    HeadInside(s.b, s.g, n.b, n.hkv);
    HeadInside(s.b * n.hq + s.h, s.qi, n.b * n.hq, n.sq);
    DivModUnique(OutputRow(n, s), n.sq, s.b * n.hq + s.h, s.qi);
    SharedHeadGroups(s.b, s.h, n.hq, n.hkv, s.g);
  }

  function OutputRow(n: Sizes, s: Site): nat { (s.b * n.hq + s.h) * n.sq + s.qi }

  function SharedRow(n: Sizes, s: Site): nat { s.b * n.hkv + s.g }

  lemma HeadInside(b: nat, h: nat, batches: nat, heads: nat)
    requires b < batches && h < heads
    ensures b * heads + h < batches * heads
  {
    MulMono(b + 1, batches, heads);
    assert (b + 1) * heads == b * heads + heads;
  }

  /** The kernel's index is the site's. */
  lemma SiteIndex(n: Sizes, s: Site)
    requires s.In(n)
    ensures s.IsIndex(Moved(Moved(n.At(s.b * n.hq + s.h, s.qi), Query, 0), Axis.Key, s.j)) && IsShape(n.Dims(), n)
  {
    PlaceOf(n, s);
  }

  lemma PlaceOf(n: Sizes, s: Site)
    requires s.In(n)
    ensures var bh := s.b * n.hq + s.h;
      && n.Place(bh, s.qi, Batch) == s.b && n.Place(bh, s.qi, QueryHead) == s.h && n.Place(bh, s.qi, KvHead) == s.g
  {
    DivModUnique(s.b * n.hq + s.h, n.hq, s.b, s.h);
    GroupOfHead(n, s);
  }

  lemma GroupOfHead(n: Sizes, s: Site)
    requires s.In(n)
    ensures s.h * n.hkv / n.hq == s.g
  {
    assert (s.g + 1) * n.hq == s.g * n.hq + n.hq;
    DivModUnique(s.h * n.hkv, n.hq, s.g, s.h * n.hkv - s.g * n.hq);
  }

  /** Two descriptions of one index reach one element. */
  lemma SameAccess(argument: Argument, n: Sizes, s: Site, at: Extents, dims: Extents, to: Extents, shape: Extents)
    requires s.IsIndex(at) && s.IsIndex(to) && IsShape(dims, n) && IsShape(shape, n)
    requires argument.Fits(dims) && argument.Fits(shape)
    requires Inside(argument.axes, at, dims) && Inside(argument.axes, to, shape)
    ensures argument.Access(at, dims) == argument.Access(to, shape)
  {
    forall axis: Axis ensures at(axis) == to(axis) && dims(axis) == shape(axis) {
      match axis
      case Batch => case QueryHead => case KvHead => case StateHead => case ParameterGroup =>
      case Query => case Key => case Sequence => case D => case DV =>
    }
    OffsetOfIndex(argument.axes, at, dims, to, shape);
  }

  /** The source of one query row, on the caller's own K. */
  ghost function RowSource(op: Operator, n: Sizes, t: Tensors, shape: Shape, s: Site): (src: Source)
    requires Ready(op, n, t, shape) && s.In(n)
    ensures src.Valid()
  {
    hide Ready, Source.Valid, Sizes.KvHead, Sizes.At;
    SiteRows(op, n, t, shape, s);
    var head := Direct(t.k[SharedRow(n, s)]);
    SourceReady(op, n, t, shape, s);
    BlockSource(op, n, t, shape, head, s.b * n.hq + s.h, s.qi, 1)
  }

  lemma SourceReady(op: Operator, n: Sizes, t: Tensors, shape: Shape, s: Site)
    requires Ready(op, n, t, shape) && s.In(n) && SharedRow(n, s) < |t.k|
    ensures n.hq > 0 && (s.b * n.hq + s.h) * n.sq + s.qi + 1 <= |t.q|
    ensures BlockSource(op, n, t, shape, Direct(t.k[SharedRow(n, s)]), s.b * n.hq + s.h, s.qi, 1).Valid()
  {
    hide Lowering.RealMath, TypeOf, Shape.Valid, Argument.Fits, Source.Valid, Sizes.KvHead, Sizes.At;
    SiteRows(op, n, t, shape, s);
    HeadInside(s.b, s.h, n.b, n.hq);
    BlockReady(op, n, t, shape, Direct(t.k[SharedRow(n, s)]), s.b * n.hq + s.h, s.qi, 1);
  }

  lemma SourceParts(op: Operator, n: Sizes, t: Tensors, shape: Shape, s: Site)
    requires Ready(op, n, t, shape) && s.In(n)
    ensures var src := RowSource(op, n, t, shape, s);
      && |src.q| == 1 && src.first == 0 && src.count == n.skv && src.dims == n.Dims() && s.j < src.dims(Axis.Key)
      && src.f == op.f && src.score == op.score && src.mask == op.mask && src.arguments == t.arguments
      && s.IsIndex(src.Index(0, s.j)) && src.at(Query) == s.qi && src.queryOffset == t.queryOffset
  {
    hide Ready, Source.Valid, Sizes.KvHead, Site.IsIndex;
    SiteRows(op, n, t, shape, s);
    SiteIndex(n, s);
    QueryAndKey(n, s.b * n.hq + s.h, s.qi);
  }

  lemma SourceRaw(op: Operator, n: Sizes, t: Tensors, shape: Shape, s: Site)
    requires Ready(op, n, t, shape) && s.In(n)
    ensures var src := RowSource(op, n, t, shape, s);
      && |src.q| == 1 && s.j < src.count && OutputRow(n, s) < |t.q| && SharedRow(n, s) < |t.k|
      && s.j < |t.k[SharedRow(n, s)]|
      && src.Raw(0, s.j) == Dot(t.q[OutputRow(n, s)], t.k[SharedRow(n, s)][s.j])
  {
    hide Ready, Source.Valid, Sizes.KvHead, Dot, Sizes.At;
    SiteRows(op, n, t, shape, s);
  }

  lemma SourceRow(op: Operator, n: Sizes, t: Tensors, shape: Shape, s: Site)
    requires Ready(op, n, t, shape) && s.In(n)
    ensures var src := RowSource(op, n, t, shape, s);
      && OutputRow(n, s) < n.Rows() && |src.q| == 1 && src.count == n.skv
      && RowScores(op, n, t, shape, OutputRow(n, s))[s.j] == src.Cell(0, s.j)
  {
    hide Lowering.RealMath, TypeOf, Shape.Valid, Argument.Fits, Source.Valid, Source.Cell, Sizes.KvHead, Sizes.At;
    SiteRows(op, n, t, shape, s);
  }

  /** The score that decides query s.qi and key s.j, from the caller's tensors alone: the raw score is the product of
      the query's row and the shared head's key, both indices and every argument element are the site's, and the mask
      expression decides between the score expression's value and no score at all. */
  lemma ScoreMeans(op: Operator, n: Sizes, t: Tensors, shape: Shape, s: Site, env: Env)
    requires Ready(op, n, t, shape) && s.In(n) && Reads(t, n, s, env)
    ensures OutputRow(n, s) < |t.q| && SharedRow(n, s) < |t.k| == |t.v| && s.j < |t.k[SharedRow(n, s)]|
    ensures OutputRow(n, s) < n.Rows()
    ensures env("x") == Dot(t.q[OutputRow(n, s)], t.k[SharedRow(n, s)][s.j]) ==>
      RowScores(op, n, t, shape, OutputRow(n, s))[s.j]
      == if Truth(Evaluate(op.f, op.mask, env)) then Fin(Real(Evaluate(op.f, op.score, env))) else NegInf
    ensures RowValues(op, n, t, shape, OutputRow(n, s)) == t.v[SharedRow(n, s)]
  {
    hide Ready, Reads, Source.Valid, Dot, RowSource, RowScores, Evaluate;
    SiteRows(op, n, t, shape, s);
    SourceParts(op, n, t, shape, s);
    SourceRaw(op, n, t, shape, s);
    SourceRow(op, n, t, shape, s);
    ValuesOf(op, n, t, shape, s);
    var src := RowSource(op, n, t, shape, s);
    var x := src.Raw(0, s.j);
    if env("x") == x {
      CellMeans(op, n, t, shape, s, env);
    }
  }

  lemma ValuesOf(op: Operator, n: Sizes, t: Tensors, shape: Shape, s: Site)
    requires Ready(op, n, t, shape) && s.In(n)
    ensures OutputRow(n, s) < n.Rows() && SharedRow(n, s) < |t.v|
    ensures RowValues(op, n, t, shape, OutputRow(n, s)) == t.v[SharedRow(n, s)]
  {
    hide Lowering.RealMath, TypeOf, Shape.Valid, Argument.Fits, Sizes.KvHead;
    SiteRows(op, n, t, shape, s);
  }

  /** The cell's own environment agrees on every name the expressions read. */
  lemma CellMeans(op: Operator, n: Sizes, t: Tensors, shape: Shape, s: Site, env: Env)
    requires Ready(op, n, t, shape) && s.In(n) && Reads(t, n, s, env)
    requires var src := RowSource(op, n, t, shape, s);
      |src.q| == 1 && s.j < src.count && src.count == n.skv && env("x") == src.Raw(0, s.j)
    ensures RowSource(op, n, t, shape, s).Cell(0, s.j)
      == if Truth(Evaluate(op.f, op.mask, env)) then Fin(Real(Evaluate(op.f, op.score, env))) else NegInf
  {
    hide Ready, Source.Valid, RowSource, Evaluate, Source.Raw, Source.ScalarEnv;
    SourceParts(op, n, t, shape, s);
    var src := RowSource(op, n, t, shape, s);
    var scalar := src.ScalarEnv(0, s.j, env("x"));
    NamesAgree(op, n, t, shape, s, env, src);
    SameVariables(op.f, op.mask, scalar, env);
    SameVariables(op.f, op.score, scalar, env);
  }

  lemma NamesAgree(op: Operator, n: Sizes, t: Tensors, shape: Shape, s: Site, env: Env, src: Source)
    requires Ready(op, n, t, shape) && s.In(n) && Reads(t, n, s, env) && src == RowSource(op, n, t, shape, s)
    ensures |src.q| == 1 && s.j < src.dims(Axis.Key)
    ensures forall name :: name in Variables(op.mask) || name in Variables(op.score) ==>
      src.ScalarEnv(0, s.j, env("x"))(name) == env(name)
  {
    hide Lowering.RealMath, TypeOf, Shape.Valid, RowSource, Packing.KeyShape, Head.Covers, Argument.Fits, Offset,
      Source.Index, Sizes.Dims;
    SourceParts(op, n, t, shape, s);
    SiteIndex(n, s);
    forall name | name in Variables(op.mask) || name in Variables(op.score)
      ensures src.ScalarEnv(0, s.j, env("x"))(name) == env(name)
    {
      if name in t.arguments { src.IndexInside(0, s.j, name); }
    }
  }

  /** Every site has such an environment, so the last lemma speaks of every score of every call. */
  lemma Environment(op: Operator, n: Sizes, t: Tensors, shape: Shape, s: Site) returns (env: Env)
    requires Ready(op, n, t, shape) && s.In(n)
    ensures OutputRow(n, s) < |t.q| && SharedRow(n, s) < |t.k| && s.j < |t.k[SharedRow(n, s)]|
    ensures Reads(t, n, s, env) && env("x") == Dot(t.q[OutputRow(n, s)], t.k[SharedRow(n, s)][s.j])
  {
    hide Lowering.RealMath, TypeOf, Shape.Valid, RowSource, Packing.KeyShape, Head.Covers, Argument.Fits, Offset,
      Argument.Access, Source.Index, Sizes.Dims, Dot, Source.Raw, Inside;
    SourceParts(op, n, t, shape, s);
    SourceRaw(op, n, t, shape, s);
    SiteIndex(n, s);
    var src := RowSource(op, n, t, shape, s);
    env := src.ScalarEnv(0, s.j, src.Raw(0, s.j));
    forall name, at, dims |
      name in t.arguments && s.IsIndex(at) && IsShape(dims, n)
      && t.arguments[name].Fits(dims) && Inside(t.arguments[name].axes, at, dims)
      ensures env(name) == t.arguments[name].Access(at, dims)
    {
      src.IndexInside(0, s.j, name);
      SameAccess(t.arguments[name], n, s, src.Index(0, s.j), n.Dims(), at, dims);
    }
  }
}
