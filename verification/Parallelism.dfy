/** Planned launches beside the work of the call they are planned for: no proposed worker is left without any. */
module Parallelism {
  import opened Integers
  import opened Grid
  import opened Launches
  import Attention
  import LinearAttention

  /** Whatever the decomposition, a proposed launch has no more workers than it has work, and the workers it insists
      on. */
  lemma ProposedSize(
    kept: seq<Launch>, host: seq<Cpu>, work: Decomposition, limit: nat, physical: seq<Cpu>, nodes: seq<int>,
    lists: seq<seq<Cpu>>, i: nat)
    requires Proposals(kept, host, work, limit, physical, nodes, lists) && i < |kept|
    ensures 1 <= |kept[i].cpus| <= work.Maximum() && work.Keeps(|kept[i].cpus|)
  {
    hide AllChosen, Cores, Tried, Decomposition.Keeps, Decomposition.Maximum, Justified;
  }

  /** Query blocks: every worker of a proposed launch can be given a work item of its own. */
  lemma BlocksForAll(
    n: Attention.Sizes, tileQ: nat, kept: seq<Launch>, host: seq<Cpu>, limit: nat, physical: seq<Cpu>,
    nodes: seq<int>, lists: seq<seq<Cpu>>, i: nat)
    requires tileQ > 0 && i < |kept|
    requires Proposals(kept, host, QueryBlocks(n.b * n.hq * CeilDiv(n.sq, tileQ)), limit, physical, nodes, lists)
    ensures 1 <= |kept[i].cpus| <= Attention.WorkItems(n, tileQ)
  {
    hide Proposals;
    ProposedSize(kept, host, QueryBlocks(n.b * n.hq * CeilDiv(n.sq, tileQ)), limit, physical, nodes, lists, i);
  }

  /** A share of at least as many keys as there are ranks is never empty. */
  lemma ShareHasKeys(keys: nat, rank: nat, ranks: nat)
    requires rank < ranks <= keys
    ensures ShareBegin(keys, rank, ranks) < ShareBegin(keys, rank + 1, ranks)
  {
    SharesBalanced(keys, rank, ranks);
    DivModSplit(keys, ranks);
    if keys / ranks == 0 { assert false; }
  }

  lemma TilesWithin(keys: nat, tileK: nat)
    requires tileK > 0
    ensures CeilDiv(keys, tileK) <= keys
  {
    CeilCovers(keys, tileK);
    var tiles := CeilDiv(keys, tileK);
    if keys < tiles {
      MulMono(1, tileK, tiles);
      MulMono(keys + 1, tiles, tileK);
      assert (keys + 1) * tileK == keys * tileK + tileK;
      MulMono(1, tileK, keys);
    }
  }

  /** Split keys: a proposed launch has two workers at least, so its kernel never refuses it as too small, and every
      worker has keys to score. */
  lemma KeysForAll(
    keys: nat, tileK: nat, kept: seq<Launch>, host: seq<Cpu>, limit: nat, physical: seq<Cpu>, nodes: seq<int>,
    lists: seq<seq<Cpu>>, i: nat, worker: nat)
    requires tileK > 0 && i < |kept|
    requires Proposals(kept, host, SplitKey(CeilDiv(keys, tileK)), limit, physical, nodes, lists)
    requires worker < |kept[i].cpus|
    ensures |kept[i].cpus| >= 2
    ensures ShareBegin(keys, worker, |kept[i].cpus|) < ShareBegin(keys, worker + 1, |kept[i].cpus|)
  {
    hide Proposals;
    ProposedSize(kept, host, SplitKey(CeilDiv(keys, tileK)), limit, physical, nodes, lists, i);
    TilesWithin(keys, tileK);
    ShareHasKeys(keys, worker, |kept[i].cpus|);
  }

  /** The query-key grid: whichever key parts the kernel picks for a proposed launch, each of them has keys. */
  lemma PartsForAll(
    blocks: nat, keys: nat, tileK: nat, kept: seq<Launch>, host: seq<Cpu>, limit: nat, physical: seq<Cpu>,
    nodes: seq<int>, lists: seq<seq<Cpu>>, i: nat, keyParts: nat, part: nat)
    requires tileK > 0 && i < |kept|
    requires Proposals(kept, host, QueryKeyGrid(blocks, CeilDiv(keys, tileK)), limit, physical, nodes, lists)
    requires Candidate(keyParts, |kept[i].cpus|, KeyTileCap(keys, tileK)) && part < keyParts
    ensures |kept[i].cpus| >= 4
    ensures ShareBegin(keys, part, keyParts) < ShareBegin(keys, part + 1, keyParts)
  {
    hide Proposals;
    ProposedSize(kept, host, QueryKeyGrid(blocks, CeilDiv(keys, tileK)), limit, physical, nodes, lists, i);
    TilesWithin(keys, tileK);
    ShareHasKeys(keys, part, keyParts);
  }

  /** State heads, whole or in DV blocks: no more workers than rows, or than items; and DV blocks are used only where
      they let more workers in than there are state heads. */
  lemma RowsForAll(
    n: LinearAttention.Sizes, kept: seq<Launch>, host: seq<Cpu>, limit: nat, physical: seq<Cpu>, nodes: seq<int>,
    lists: seq<seq<Cpu>>, i: nat)
    requires i < |kept| && Proposals(kept, host, StateHeads(n.b * n.h), limit, physical, nodes, lists)
    ensures 1 <= |kept[i].cpus| <= n.Rows()
  {
    hide Proposals;
    ProposedSize(kept, host, StateHeads(n.b * n.h), limit, physical, nodes, lists, i);
  }

  lemma ItemsForAll(
    n: LinearAttention.Sizes, tileDv: nat, kept: seq<Launch>, host: seq<Cpu>, limit: nat, physical: seq<Cpu>,
    nodes: seq<int>, lists: seq<seq<Cpu>>, i: nat)
    requires tileDv > 0 && i < |kept|
    requires Proposals(kept, host, StateHeadsDvBlocks(n.b * n.h, CeilDiv(n.dv, tileDv)), limit, physical, nodes, lists)
    ensures 2 <= |kept[i].cpus| <= LinearAttention.Items(n, tileDv) && n.Rows() < LinearAttention.Items(n, tileDv)
  {
    hide Proposals;
    ProposedSize(
      kept, host, StateHeadsDvBlocks(n.b * n.h, CeilDiv(n.dv, tileDv)), limit, physical, nodes, lists, i);
  }
}
