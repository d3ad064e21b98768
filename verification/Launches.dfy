/** Launch plans: one CPU per physical core, round-robin over NUMA nodes, groups that partition the workers. */
module Launches {
  import opened Integers
  import opened Planning
  import opened Grid

  datatype Cpu = Cpu(id: int, socket: int, core: int, node: int)

  function CoreOf(c: Cpu): (int, int) { (c.socket, c.core) }

  ghost predicate OnePerCore(s: seq<Cpu>) {
    forall i, j :: 0 <= i < j < |s| ==> CoreOf(s[i]) != CoreOf(s[j])
  }

  /** The first CPU of every core, in host order. */
  method PhysicalCpus(host: seq<Cpu>) returns (chosen: seq<Cpu>)
    ensures OnePerCore(chosen) && forall c :: c in chosen ==> c in host
    ensures forall c :: c in host ==> exists p :: p in chosen && CoreOf(p) == CoreOf(c)
  {
    chosen := [];
    var seen: set<(int, int)> := {};
    for i := 0 to |host|
      invariant OnePerCore(chosen) && forall c :: c in chosen ==> c in host && CoreOf(c) in seen
      invariant forall core :: core in seen ==> exists p :: p in chosen && CoreOf(p) == core
      invariant forall j :: 0 <= j < i ==> CoreOf(host[j]) in seen
    {
      var core := CoreOf(host[i]);
      if core !in seen {
        ghost var before := chosen;
        seen := seen + {core};
        chosen := chosen + [host[i]];
        assert host[i] in chosen && forall p :: p in before ==> p in chosen;
      }
    }
  }

  /** Two chosen CPUs differ in their socket or in their core on it, and each host CPU's core is taken. */
  lemma CoresTaken(host: seq<Cpu>, chosen: seq<Cpu>)
    requires OnePerCore(chosen) && forall c :: c in host ==> exists p :: p in chosen && CoreOf(p) == CoreOf(c)
    ensures forall i, j :: 0 <= i < j < |chosen| ==>
      chosen[i].socket != chosen[j].socket || chosen[i].core != chosen[j].core
    ensures forall c :: c in host ==> exists p :: p in chosen && p.socket == c.socket && p.core == c.core
  {
  }

  /** The chosen CPUs of one node. */
  function OfNode(cpus: seq<Cpu>, node: int): (r: seq<Cpu>)
    ensures forall c :: c in r <==> c in cpus && c.node == node
  {
    if cpus == [] then []
    else OfNode(cpus[..|cpus| - 1], node) + if cpus[|cpus| - 1].node == node then [cpus[|cpus| - 1]] else []
  }

  /** Nodes in ascending order, each with its CPUs among the given ones. */
  ghost predicate Grouped(cpus: seq<Cpu>, nodes: seq<int>, groups: seq<seq<Cpu>>) {
    && |nodes| == |groups| && (forall i, j :: 0 <= i < j < |nodes| ==> nodes[i] < nodes[j])
    && (forall i :: 0 <= i < |nodes| ==> groups[i] == OfNode(cpus, nodes[i]) && groups[i] != [])
    && forall c :: c in cpus ==> c.node in nodes
  }

  /** Groups the CPUs by node, keeping their order. */
  method GroupByNode(cpus: seq<Cpu>) returns (nodes: seq<int>, groups: seq<seq<Cpu>>)
    ensures Grouped(cpus, nodes, groups)
  {
    nodes, groups := [], [];
    for i := 0 to |cpus|
      invariant Grouped(cpus[..i], nodes, groups)
    {
      assert cpus[..i + 1] == cpus[..i] + [cpus[i]];
      nodes, groups := AddCpu(cpus[..i], nodes, groups, cpus[i]);
    }
    assert cpus[..|cpus|] == cpus;
  }

  method AddCpu(ghost cpus: seq<Cpu>, nodes: seq<int>, groups: seq<seq<Cpu>>, c: Cpu)
    returns (nodes': seq<int>, groups': seq<seq<Cpu>>)
    requires Grouped(cpus, nodes, groups)
    ensures Grouped(cpus + [c], nodes', groups')
  {
    var p := 0;
    while p < |nodes| && nodes[p] < c.node
      invariant 0 <= p <= |nodes| && forall i :: 0 <= i < p ==> nodes[i] < c.node
    {
      p := p + 1;
    }
    if p < |nodes| && nodes[p] == c.node {
      nodes', groups' := nodes, groups[p := groups[p] + [c]];
      NodeGrows(cpus, nodes, groups, c, p);
    } else {
      nodes', groups' := Inserted(nodes, p, c.node), Inserted(groups, p, [c]);
      NodeAppears(cpus, nodes, groups, c, p);
    }
  }

  lemma OfNodeGrows(cpus: seq<Cpu>, c: Cpu, node: int)
    ensures OfNode(cpus + [c], node) == OfNode(cpus, node) + if c.node == node then [c] else []
  {
    assert (cpus + [c])[..|cpus|] == cpus;
  }

  lemma NodeGrows(cpus: seq<Cpu>, nodes: seq<int>, groups: seq<seq<Cpu>>, c: Cpu, p: nat)
    requires Grouped(cpus, nodes, groups) && p < |nodes| && nodes[p] == c.node
    ensures Grouped(cpus + [c], nodes, groups[p := groups[p] + [c]])
  {
    hide OfNode;
    forall i | 0 <= i < |nodes| ensures groups[p := groups[p] + [c]][i] == OfNode(cpus + [c], nodes[i]) {
      OfNodeGrows(cpus, c, nodes[i]);
    }
  }

  function Inserted<T>(s: seq<T>, p: nat, x: T): (r: seq<T>)
    requires p <= |s|
    ensures |r| == |s| + 1 && r[p] == x
    ensures forall i :: 0 <= i < |r| && i != p ==> r[i] == s[Before(p, i)]
  {
    s[..p] + [x] + s[p..]
  }

  /** Where an element came from before an insertion at p. */
  function Before(p: nat, i: nat): nat
    requires i != p
  {
    if i < p then i else i - 1
  }

  lemma NodeAppears(cpus: seq<Cpu>, nodes: seq<int>, groups: seq<seq<Cpu>>, c: Cpu, p: nat)
    requires Grouped(cpus, nodes, groups) && p <= |nodes|
    requires (forall i :: 0 <= i < p ==> nodes[i] < c.node) && (p < |nodes| ==> c.node < nodes[p])
    ensures Grouped(cpus + [c], Inserted(nodes, p, c.node), Inserted(groups, p, [c]))
  {
    hide OfNode, Inserted;
    var more, lists := Inserted(nodes, p, c.node), Inserted(groups, p, [c]);
    assert c.node !in nodes;
    NoneOfNode(cpus, c.node);
    forall i | 0 <= i < |more| ensures lists[i] == OfNode(cpus + [c], more[i]) && lists[i] != [] {
      OfNodeGrows(cpus, c, more[i]);
      if i != p { assert more[i] == nodes[Before(p, i)] && lists[i] == groups[Before(p, i)]; }
    }
    forall i, j | 0 <= i < j < |more| ensures more[i] < more[j] {
      if i != p && j != p { assert Before(p, i) < Before(p, j); }
    }
    forall x | x in cpus + [c] ensures x.node in more {
      if x in cpus {
        var k :| 0 <= k < |nodes| && nodes[k] == x.node;
        var at := if k < p then k else k + 1;
        assert Before(p, at) == k && more[at] == x.node;
      } else {
        assert more[p] == x.node;
      }
    }
  }

  lemma NoneOfNode(cpus: seq<Cpu>, node: int)
    requires forall c :: c in cpus ==> c.node != node
    ensures OfNode(cpus, node) == []
  {
  }

  // ---- Round-robin over the nodes ------------------------------------------------------

  /** How many CPUs a node has given after whole rounds, and one more when the current round has passed it. */
  function Share(size: nat, rounds: nat, cut: nat, node: nat): nat {
    var asked := rounds + if node < cut then 1 else 0;
    if size < asked then size else asked
  }

  ghost function Given(lists: seq<seq<Cpu>>, rounds: nat, cut: nat, n: nat): nat
    requires n <= |lists|
  {
    if n == 0 then 0 else Given(lists, rounds, cut, n - 1) + Share(|lists[n - 1]|, rounds, cut, n - 1)
  }

  ghost function Total(lists: seq<seq<Cpu>>, n: nat): nat
    requires n <= |lists|
  {
    if n == 0 then 0 else Total(lists, n - 1) + |lists[n - 1]|
  }

  lemma {:induction false} NextGives(lists: seq<seq<Cpu>>, rounds: nat, cut: nat, n: nat)
    requires cut < |lists| && n <= |lists|
    ensures Given(lists, rounds, cut + 1, n)
         == Given(lists, rounds, cut, n) + if cut < n && rounds < |lists[cut]| then 1 else 0
  {
    if n > 0 { NextGives(lists, rounds, cut, n - 1); }
  }

  lemma {:induction false} RoundEnds(lists: seq<seq<Cpu>>, rounds: nat, n: nat)
    requires n <= |lists|
    ensures Given(lists, rounds, |lists|, n) == Given(lists, rounds + 1, 0, n)
  {
    if n > 0 { RoundEnds(lists, rounds, n - 1); }
  }

  lemma {:induction false} NothingGiven(lists: seq<seq<Cpu>>, n: nat)
    requires n <= |lists|
    ensures Given(lists, 0, 0, n) == 0
  {
    if n > 0 { NothingGiven(lists, n - 1); }
  }

  lemma {:induction false} GivenBound(lists: seq<seq<Cpu>>, rounds: nat, cut: nat, n: nat)
    requires n <= |lists|
    ensures Given(lists, rounds, cut, n) <= Total(lists, n)
    ensures (forall i :: 0 <= i < n ==> |lists[i]| <= rounds) ==> Given(lists, rounds, cut, n) == Total(lists, n)
  {
    if n > 0 { GivenBound(lists, rounds, cut, n - 1); }
  }

  ghost predicate AllDistinct(lists: seq<seq<Cpu>>) {
    forall i, j, k, l ::
      (0 <= i < |lists| && 0 <= j < |lists[i]| && 0 <= k < |lists| && 0 <= l < |lists[k]|
       && lists[i][j] == lists[k][l]) ==>
      i == k && j == l
  }

  /** The chosen CPUs are each node's leading ones, as many as its share. */
  ghost predicate Dealt(result: seq<Cpu>, lists: seq<seq<Cpu>>, rounds: nat, cut: nat) {
    && |result| == Given(lists, rounds, cut, |lists|)
    && (forall x :: x in result ==>
      exists i, j :: 0 <= i < |lists| && 0 <= j < Share(|lists[i]|, rounds, cut, i) && lists[i][j] == x)
    && forall i, j :: 0 <= i < |lists| && 0 <= j < Share(|lists[i]|, rounds, cut, i) ==> lists[i][j] in result
  }

  /** Takes one CPU per node and round until there are enough or none is left. */
  method BalancedCpus(lists: seq<seq<Cpu>>, workers: nat) returns (result: seq<Cpu>, ghost rounds: nat, ghost cut: nat)
    requires AllDistinct(lists)
    ensures Unique(result) && |result| == (if workers < Total(lists, |lists|) then workers else Total(lists, |lists|))
    ensures cut <= |lists| && Dealt(result, lists, rounds, cut)
  {
    result := [];
    var offset := 0;
    rounds, cut := 0, 0;
    NothingGiven(lists, |lists|);
    while |result| < workers
      invariant cut <= |lists| && (|result| < workers ==> rounds == offset && cut == 0)
      invariant |result| <= workers && Unique(result) && Dealt(result, lists, rounds, cut)
      decreases workers - |result|
    {
      ghost var before := |result|;
      var progressed := false;
      var n := 0;
      while n < |lists| && |result| < workers
        invariant 0 <= n <= |lists| && cut == n && rounds == offset
        invariant |result| <= workers && Unique(result) && Dealt(result, lists, rounds, cut)
        invariant |result| >= before && (progressed <==> |result| > before)
        invariant !progressed ==> forall i :: 0 <= i < n ==> |lists[i]| <= offset
      {
        if offset < |lists[n]| {
          Deal(result, lists, rounds, n);
          result := result + [lists[n][offset]];
          progressed := true;
        } else {
          Pass(result, lists, rounds, n);
        }
        n := n + 1;
        cut := n;
      }
      if !progressed { break; }
      offset := offset + 1;
      if |result| < workers {
        NextRound(result, lists, rounds);
        rounds, cut := offset, 0;
      }
    }
    GivenBound(lists, rounds, cut, |lists|);
  }

  lemma Deal(result: seq<Cpu>, lists: seq<seq<Cpu>>, rounds: nat, n: nat)
    requires AllDistinct(lists) && n < |lists| && rounds < |lists[n]| && Unique(result)
    requires Dealt(result, lists, rounds, n)
    ensures Unique(result + [lists[n][rounds]]) && Dealt(result + [lists[n][rounds]], lists, rounds, n + 1)
  {
    NextGives(lists, rounds, n, |lists|);
    var next := result + [lists[n][rounds]];
    assert lists[n][rounds] !in result;
    forall x | x in next
      ensures exists i, j :: 0 <= i < |lists| && 0 <= j < Share(|lists[i]|, rounds, n + 1, i) && lists[i][j] == x
    {
      if x in result {
        var i, j :| 0 <= i < |lists| && 0 <= j < Share(|lists[i]|, rounds, n, i) && lists[i][j] == x;
        assert j < Share(|lists[i]|, rounds, n + 1, i);
      } else {
        assert rounds < Share(|lists[n]|, rounds, n + 1, n);
      }
    }
    forall i, j | 0 <= i < |lists| && 0 <= j < Share(|lists[i]|, rounds, n + 1, i) ensures lists[i][j] in next {
      if j < Share(|lists[i]|, rounds, n, i) { assert lists[i][j] in result; }
    }
  }

  lemma Pass(result: seq<Cpu>, lists: seq<seq<Cpu>>, rounds: nat, n: nat)
    requires n < |lists| && |lists[n]| <= rounds && Dealt(result, lists, rounds, n)
    ensures Dealt(result, lists, rounds, n + 1)
  {
    NextGives(lists, rounds, n, |lists|);
    assert forall i :: 0 <= i < |lists| ==> Share(|lists[i]|, rounds, n + 1, i) == Share(|lists[i]|, rounds, n, i);
  }

  lemma NextRound(result: seq<Cpu>, lists: seq<seq<Cpu>>, rounds: nat)
    requires Dealt(result, lists, rounds, |lists|)
    ensures Dealt(result, lists, rounds + 1, 0)
  {
    RoundEnds(lists, rounds, |lists|);
    assert forall i :: 0 <= i < |lists| ==>
      Share(|lists[i]|, rounds + 1, 0, i) == Share(|lists[i]|, rounds, |lists|, i);
  }

  /** The CPUs of one node that were taken. */
  ghost function Picked(result: seq<Cpu>, list: seq<Cpu>): set<Cpu> {
    set c | c in result && c in list
  }

  ghost function Members(s: seq<Cpu>): set<Cpu> {
    set c | c in s
  }

  lemma {:induction false} UniqueCount(s: seq<Cpu>)
    requires Unique(s)
    ensures |Members(s)| == |s|
  {
    if s != [] {
      var rest, last := s[..|s| - 1], s[|s| - 1];
      UniqueCount(rest);
      assert s == rest + [last];
      assert Members(s) == Members(rest) + {last} && last !in Members(rest);
    }
  }

  lemma PickedShare(result: seq<Cpu>, lists: seq<seq<Cpu>>, rounds: nat, cut: nat, a: nat)
    requires AllDistinct(lists) && Dealt(result, lists, rounds, cut) && a < |lists|
    ensures |Picked(result, lists[a])| == Share(|lists[a]|, rounds, cut, a)
  {
    var list, n := lists[a], Share(|lists[a]|, rounds, cut, a);
    forall c ensures c in Picked(result, list) <==> c in list[..n] {
      if c in result && c in list {
        var i, j :| 0 <= i < |lists| && 0 <= j < Share(|lists[i]|, rounds, cut, i) && lists[i][j] == c;
        var l :| 0 <= l < |list| && list[l] == c;
        assert lists[i][j] == lists[a][l];
        assert list[..n][j] == c;
      }
      if c in list[..n] {
        var j :| 0 <= j < n && list[..n][j] == c;
        assert lists[a][j] in result;
      }
    }
    assert Picked(result, list) == Members(list[..n]);
    UniqueCount(list[..n]);
  }

  /** Nodes give equally: no node gives two more than another that still has CPUs to give. */
  lemma DealIsBalanced(result: seq<Cpu>, lists: seq<seq<Cpu>>, rounds: nat, cut: nat, a: nat, b: nat)
    requires AllDistinct(lists) && Dealt(result, lists, rounds, cut) && a < |lists| && b < |lists|
    ensures |Picked(result, lists[a])| <= |Picked(result, lists[b])| + 1 || forall c :: c in lists[b] ==> c in result
  {
    PickedShare(result, lists, rounds, cut, a);
    PickedShare(result, lists, rounds, cut, b);
  }

  // ---- Every launch --------------------------------------------------------------------

  datatype Launch = Launch(cpus: seq<Cpu>, nodes: seq<int>, groups: seq<seq<Cpu>>)

  /** At most one CPU per core of the host, no more workers than the work allows, groups that partition them. */
  ghost predicate LaunchValid(launch: Launch, host: seq<Cpu>, maximum: nat) {
    && 1 <= |launch.cpus| <= maximum && OnePerCore(launch.cpus) && (forall c :: c in launch.cpus ==> c in host)
    && Grouped(launch.cpus, launch.nodes, launch.groups)
  }

  lemma {:induction false} OfNodeUnique(cpus: seq<Cpu>, node: int)
    requires OnePerCore(cpus)
    ensures Unique(OfNode(cpus, node))
  {
    if cpus != [] {
      OfNodeUnique(cpus[..|cpus| - 1], node);
      assert cpus[|cpus| - 1] !in cpus[..|cpus| - 1];
    }
  }

  lemma ListsDistinct(cpus: seq<Cpu>, nodes: seq<int>, lists: seq<seq<Cpu>>)
    requires OnePerCore(cpus) && Grouped(cpus, nodes, lists)
    ensures AllDistinct(lists)
  {
    forall i, j, k, l |
        0 <= i < |lists| && 0 <= j < |lists[i]| && 0 <= k < |lists| && 0 <= l < |lists[k]| && lists[i][j] == lists[k][l]
      ensures i == k && j == l
    {
      assert lists[i][j] in OfNode(cpus, nodes[i]) && lists[k][l] in OfNode(cpus, nodes[k]);
      assert nodes[i] == nodes[k];
      OfNodeUnique(cpus, nodes[i]);
    }
  }

  lemma CoresDiffer(some: seq<Cpu>, all: seq<Cpu>)
    requires Unique(some) && OnePerCore(all) && forall c :: c in some ==> c in all
    ensures OnePerCore(some)
  {
    forall i, j | 0 <= i < j < |some| ensures CoreOf(some[i]) != CoreOf(some[j]) {
      assert some[i] in all && some[j] in all;
      var k :| 0 <= k < |all| && all[k] == some[i];
      var l :| 0 <= l < |all| && all[l] == some[j];
      assert k != l;
    }
  }

  /** One node's CPUs, or as many of them as the limit allows. */
  predicate NodeSize(workers: nat, limit: nat, lists: seq<seq<Cpu>>) {
    exists n :: 0 <= n < |lists| && workers == if |lists[n]| < limit then |lists[n]| else limit
  }

  /** The worker counts worth trying: one, the limit, powers of two, and each node's size. */
  predicate Tried(workers: nat, limit: nat, lists: seq<seq<Cpu>>) {
    workers == 1 || workers == limit || IsPower(workers) || NodeSize(workers, limit, lists)
  }

  lemma OneIsTried(limit: nat, lists: seq<seq<Cpu>>)
    ensures Tried(1, limit, lists)
  {
  }

  method MakeLaunch(cpus: seq<Cpu>) returns (launch: Launch)
    ensures launch.cpus == cpus && Grouped(cpus, launch.nodes, launch.groups)
  {
    var nodes, groups := GroupByNode(cpus);
    launch := Launch(cpus, nodes, groups);
  }

  /** The leading CPUs of one node. */
  ghost predicate NodeChoice(cpus: seq<Cpu>, lists: seq<seq<Cpu>>, workers: nat) {
    exists n: nat :: n < |lists| && workers <= |lists[n]| && cpus == lists[n][..workers]
  }

  /** A round-robin deal over all nodes. */
  ghost predicate DealtChoice(cpus: seq<Cpu>, lists: seq<seq<Cpu>>, workers: nat) {
    |lists| > 1 && workers >= 2 && |cpus| == workers
    && exists rounds: nat, cut: nat :: cut <= |lists| && Dealt(cpus, lists, rounds, cut)
  }

  /** The launch is one of the choices for a worker count worth trying. */
  ghost predicate Justified(launch: Launch, lists: seq<seq<Cpu>>, limit: nat) {
    exists workers: nat :: 1 <= workers <= limit && Tried(workers, limit, lists)
      && (NodeChoice(launch.cpus, lists, workers) || DealtChoice(launch.cpus, lists, workers))
  }

  /** Every choice for a worker count is there: each node that has the CPUs, and the deal over several nodes. */
  ghost predicate AllChosen(launches: seq<Launch>, lists: seq<seq<Cpu>>, workers: nat) {
    && (forall n: nat :: n < |lists| && workers <= |lists[n]| ==> ChosenNode(launches, lists, workers, n))
    && (|lists| > 1 && workers >= 2 ==> ChosenDeal(launches, lists, workers))
  }

  ghost predicate ChosenNode(launches: seq<Launch>, lists: seq<seq<Cpu>>, workers: nat, n: nat)
    requires n < |lists| && workers <= |lists[n]|
  {
    exists i :: 0 <= i < |launches| && launches[i].cpus == lists[n][..workers]
  }

  ghost predicate ChosenDeal(launches: seq<Launch>, lists: seq<seq<Cpu>>, workers: nat) {
    exists i :: 0 <= i < |launches| && DealtChoice(launches[i].cpus, lists, workers)
  }

  /** Later launches do not undo a choice. */
  lemma StillChosen(launches: seq<Launch>, more: seq<Launch>, lists: seq<seq<Cpu>>, workers: nat)
    requires launches <= more && AllChosen(launches, lists, workers)
    ensures AllChosen(more, lists, workers)
  {
    hide NodeChoice, DealtChoice;
    forall n: nat | n < |lists| && workers <= |lists[n]| ensures ChosenNode(more, lists, workers, n) {
      assert ChosenNode(launches, lists, workers, n);
      var i :| 0 <= i < |launches| && launches[i].cpus == lists[n][..workers];
      assert more[i] == launches[i];
    }
    if |lists| > 1 && workers >= 2 {
      var i :| 0 <= i < |launches| && DealtChoice(launches[i].cpus, lists, workers);
      assert more[i] == launches[i];
    }
  }

  /** What stays fixed while launches are collected: the host's cores by node, and the most workers. */
  ghost predicate Cores(host: seq<Cpu>, physical: seq<Cpu>, nodes: seq<int>, lists: seq<seq<Cpu>>) {
    && OnePerCore(physical) && (forall c :: c in physical ==> c in host)
    && (forall c :: c in host ==> exists p :: p in physical && CoreOf(p) == CoreOf(c))
    && Grouped(physical, nodes, lists)
  }

  ghost predicate AllGood(launches: seq<Launch>, host: seq<Cpu>, lists: seq<seq<Cpu>>, limit: nat) {
    forall i :: 0 <= i < |launches| ==> LaunchValid(launches[i], host, limit) && Justified(launches[i], lists, limit)
  }

  /** No power of two lies strictly between one and its double. */
  lemma {:induction false} NextPower(a: nat, b: nat)
    requires IsPower(a) && IsPower(b) && a < b
    ensures 2 * a <= b
    decreases b
  {
    if a > 1 { NextPower(a / 2, b / 2); }
  }

  /** Doubling from two reaches every power of two up to the limit. */
  method PowerCounts(limit: nat) returns (sizes: set<nat>)
    ensures forall w: nat :: w in sizes <==> 1 < w <= limit && IsPower(w)
  {
    sizes := {};
    var size := 2;
    while size <= limit
      invariant size >= 2 && IsPower(size)
      invariant forall w: nat :: w in sizes <==> 1 < w <= limit && IsPower(w) && w < size
    {
      sizes := sizes + {size};
      Doubled(size);
      size := size * 2;
    }
  }

  lemma Doubled(size: nat)
    requires IsPower(size)
    ensures IsPower(size * 2) && forall w: nat :: IsPower(w) && w < size * 2 ==> w <= size
  {
    assert size * 2 / 2 == size;
    forall w: nat | IsPower(w) && size < w ensures 2 * size <= w {
      NextPower(size, w);
    }
  }

  /** The counts, gathered: one and the limit, the powers of two, then the nodes. */
  method WorkerCounts(limit: nat, lists: seq<seq<Cpu>>) returns (sizes: set<nat>)
    ensures forall w: nat :: 1 <= w <= limit ==> (w in sizes <==> Tried(w, limit, lists))
  {
    hide IsPower, NodeSize;
    var powers := PowerCounts(limit);
    sizes := {1, limit} + powers;
    NoNodes(limit, lists);
    for n := 0 to |lists|
      invariant forall w: nat :: w in sizes <==> w == 1 || w == limit || w in powers || NodeSize(w, limit, lists[..n])
    {
      sizes := sizes + {if |lists[n]| < limit then |lists[n]| else limit};
      forall w: nat ensures NodeSize(w, limit, lists[..n + 1]) <==>
        NodeSize(w, limit, lists[..n]) || w == if |lists[n]| < limit then |lists[n]| else limit
      {
        OneMoreNode(w, limit, lists, n);
      }
    }
    assert lists[..|lists|] == lists;
  }

  lemma NoNodes(limit: nat, lists: seq<seq<Cpu>>)
    ensures forall w: nat :: !NodeSize(w, limit, lists[..0])
  {
  }

  lemma OneMoreNode(w: nat, limit: nat, lists: seq<seq<Cpu>>, n: nat)
    requires n < |lists|
    ensures NodeSize(w, limit, lists[..n + 1]) <==>
      NodeSize(w, limit, lists[..n]) || w == if |lists[n]| < limit then |lists[n]| else limit
  {
    var more := lists[..n + 1];
    assert more[n] == lists[n] && forall i :: 0 <= i < n ==> more[i] == lists[..n][i];
  }

  /** For every worker count worth trying, the planner proposes each node that has the CPUs and the deal over
      several nodes, nothing else, and all of them are valid. */
  method LaunchPlans(host: seq<Cpu>, maximum: nat)
    returns (launches: seq<Launch>, limit: nat, ghost physical: seq<Cpu>, ghost nodes: seq<int>, lists: seq<seq<Cpu>>)
    ensures Cores(host, physical, nodes, lists) && limit == (if |physical| < maximum then |physical| else maximum)
    ensures AllGood(launches, host, lists, limit)
    ensures forall workers: nat :: 1 <= workers <= limit && Tried(workers, limit, lists) ==>
      AllChosen(launches, lists, workers)
    ensures maximum > 0 && host != [] ==> launches != []
  {
    hide OnePerCore, Grouped, LaunchValid, Tried, Justified, AllChosen;
    launches := [];
    var cores := PhysicalCpus(host);
    physical := cores;
    nodes, lists := GroupByNode(cores);
    limit := if |cores| < maximum then |cores| else maximum;
    var sizes := WorkerCounts(limit, lists);
    for workers := 1 to limit + 1
      invariant AllGood(launches, host, lists, limit)
      invariant forall w: nat :: 1 <= w < workers && Tried(w, limit, lists) ==> AllChosen(launches, lists, w)
    {
      if workers in sizes {
        ghost var before := launches;
        launches := NodeLaunches(launches, workers, limit, host, physical, nodes, lists);
        if |lists| > 1 && workers >= 2 {
          launches := BalancedLaunch(launches, workers, limit, host, physical, nodes, lists);
        }
        forall w: nat | 1 <= w < workers && Tried(w, limit, lists) ensures AllChosen(launches, lists, w) {
          StillChosen(before, launches, lists, w);
        }
      }
    }
    if maximum > 0 && host != [] {
      assert host[0] in host;
      OneIsTried(limit, lists);
      OneChosen(launches, physical, nodes, lists);
    }
  }

  lemma OneChosen(launches: seq<Launch>, physical: seq<Cpu>, nodes: seq<int>, lists: seq<seq<Cpu>>)
    requires Grouped(physical, nodes, lists) && physical != [] && AllChosen(launches, lists, 1)
    ensures launches != []
  {
    assert physical[0].node in nodes;
    assert ChosenNode(launches, lists, 1, 0);
  }

  /** One launch per node that has enough CPUs. */
  method NodeLaunches(
    launches: seq<Launch>, workers: nat, ghost limit: nat, ghost host: seq<Cpu>, ghost physical: seq<Cpu>,
    ghost nodes: seq<int>, lists: seq<seq<Cpu>>)
    returns (more: seq<Launch>)
    requires 1 <= workers <= limit && Cores(host, physical, nodes, lists) && Tried(workers, limit, lists)
    requires AllGood(launches, host, lists, limit)
    ensures AllGood(more, host, lists, limit) && launches <= more
    ensures forall n: nat :: n < |lists| && workers <= |lists[n]| ==> ChosenNode(more, lists, workers, n)
    ensures |lists| <= 1 || workers < 2 ==> AllChosen(more, lists, workers)
  {
    hide Tried, LaunchValid, Justified, OnePerCore, Grouped, ChosenNode;
    more := launches;
    for n := 0 to |lists|
      invariant launches <= more && AllGood(more, host, lists, limit)
      invariant forall m: nat :: m < n && workers <= |lists[m]| ==> ChosenNode(more, lists, workers, m)
    {
      if workers <= |lists[n]| {
        var launch := MakeLaunch(lists[n][..workers]);
        NodeValid(launch, workers, limit, host, physical, nodes, lists, n);
        NodeAdded(more, launch, lists, workers, n);
        more := more + [launch];
      }
    }
  }

  /** One more node's launch. */
  lemma NodeAdded(launches: seq<Launch>, launch: Launch, lists: seq<seq<Cpu>>, workers: nat, n: nat)
    requires n < |lists| && workers <= |lists[n]| && launch.cpus == lists[n][..workers]
    requires forall m: nat :: m < n && workers <= |lists[m]| ==> ChosenNode(launches, lists, workers, m)
    ensures forall m: nat :: m <= n && workers <= |lists[m]| ==> ChosenNode(launches + [launch], lists, workers, m)
  {
    var more := launches + [launch];
    assert more[|launches|] == launch;
    forall m: nat | m < n && workers <= |lists[m]| ensures ChosenNode(more, lists, workers, m) {
      var i :| 0 <= i < |launches| && launches[i].cpus == lists[m][..workers];
      assert more[i] == launches[i];
    }
  }

  lemma NodeValid(
    launch: Launch, workers: nat, limit: nat, host: seq<Cpu>, physical: seq<Cpu>, nodes: seq<int>,
    lists: seq<seq<Cpu>>, n: nat)
    requires 1 <= workers <= limit && Cores(host, physical, nodes, lists) && Tried(workers, limit, lists)
    requires n < |lists| && workers <= |lists[n]| && launch.cpus == lists[n][..workers]
    requires Grouped(launch.cpus, launch.nodes, launch.groups)
    ensures LaunchValid(launch, host, limit) && Justified(launch, lists, limit)
  {
    hide Tried, Justified, NodeChoice, DealtChoice, OnePerCore, Grouped, Unique;
    NodeCores(physical, nodes, lists, workers, n);
    CoresDiffer(launch.cpus, physical);
    NodeIsChoice(lists, workers, n);
    ChoiceJustifies(launch, lists, workers, limit);
  }

  lemma NodeCores(physical: seq<Cpu>, nodes: seq<int>, lists: seq<seq<Cpu>>, workers: nat, n: nat)
    requires OnePerCore(physical) && Grouped(physical, nodes, lists) && n < |lists| && workers <= |lists[n]|
    ensures Unique(lists[n][..workers]) && forall c :: c in lists[n][..workers] ==> c in physical
  {
    hide OnePerCore;
    OfNodeUnique(physical, nodes[n]);
    assert lists[n] == OfNode(physical, nodes[n]);
  }

  lemma NodeIsChoice(lists: seq<seq<Cpu>>, workers: nat, n: nat)
    requires n < |lists| && workers <= |lists[n]|
    ensures NodeChoice(lists[n][..workers], lists, workers)
  {
  }

  /** The round-robin launch. With two CPUs or more it always spans nodes, so the test for that never fails. */
  method BalancedLaunch(
    launches: seq<Launch>, workers: nat, ghost limit: nat, ghost host: seq<Cpu>, ghost physical: seq<Cpu>,
    ghost nodes: seq<int>, lists: seq<seq<Cpu>>)
    returns (more: seq<Launch>)
    requires 2 <= workers <= limit <= |physical| && Cores(host, physical, nodes, lists) && |lists| > 1
    requires Tried(workers, limit, lists) && AllGood(launches, host, lists, limit)
    requires forall n: nat :: n < |lists| && workers <= |lists[n]| ==> ChosenNode(launches, lists, workers, n)
    ensures AllGood(more, host, lists, limit) && launches <= more && AllChosen(more, lists, workers)
  {
    hide OnePerCore, Grouped, Tried, Dealt, LaunchValid, Justified, OfNode, AllDistinct, DealtChoice, ChosenNode,
      AllChosen;
    ListsDistinct(physical, nodes, lists);
    var balanced, rounds, cut := BalancedCpus(lists, workers);
    AllCounted(physical, nodes, lists);
    var launch := MakeLaunch(balanced);
    DealSpans(launch, workers, physical, nodes, lists, rounds, cut);
    more := launches;
    if |launch.nodes| > 1 {
      BalancedValid(launch, workers, limit, host, physical, nodes, lists, rounds, cut);
      DealAdded(launches, launch, lists, workers);
      more := launches + [launch];
    }
  }

  lemma DealAdded(launches: seq<Launch>, launch: Launch, lists: seq<seq<Cpu>>, workers: nat)
    requires DealtChoice(launch.cpus, lists, workers)
    requires forall n: nat :: n < |lists| && workers <= |lists[n]| ==> ChosenNode(launches, lists, workers, n)
    ensures AllChosen(launches + [launch], lists, workers)
  {
    hide DealtChoice;
    var more := launches + [launch];
    assert more[|launches|] == launch;
    forall n: nat | n < |lists| && workers <= |lists[n]| ensures ChosenNode(more, lists, workers, n) {
      var i :| 0 <= i < |launches| && launches[i].cpus == lists[n][..workers];
      assert more[i] == launches[i];
    }
  }

  lemma BalancedValid(
    launch: Launch, workers: nat, limit: nat, host: seq<Cpu>, physical: seq<Cpu>, nodes: seq<int>,
    lists: seq<seq<Cpu>>, rounds: nat, cut: nat)
    requires 2 <= workers <= limit && Cores(host, physical, nodes, lists) && |lists| > 1 && Tried(workers, limit, lists)
    requires Unique(launch.cpus) && |launch.cpus| == workers && Grouped(launch.cpus, launch.nodes, launch.groups)
    requires cut <= |lists| && Dealt(launch.cpus, lists, rounds, cut)
    ensures LaunchValid(launch, host, limit) && Justified(launch, lists, limit)
    ensures DealtChoice(launch.cpus, lists, workers)
  {
    hide Tried, Dealt, DealtChoice, NodeChoice, Justified, OnePerCore, Grouped;
    DealtCores(launch.cpus, physical, nodes, lists, rounds, cut);
    CoresDiffer(launch.cpus, physical);
    DealIsChoice(launch.cpus, lists, workers, rounds, cut);
    ChoiceJustifies(launch, lists, workers, limit);
  }

  lemma DealIsChoice(cpus: seq<Cpu>, lists: seq<seq<Cpu>>, workers: nat, rounds: nat, cut: nat)
    requires |lists| > 1 && workers >= 2 && |cpus| == workers && cut <= |lists| && Dealt(cpus, lists, rounds, cut)
    ensures DealtChoice(cpus, lists, workers)
  {
    hide Dealt;
  }

  lemma ChoiceJustifies(launch: Launch, lists: seq<seq<Cpu>>, workers: nat, limit: nat)
    requires 1 <= workers <= limit && Tried(workers, limit, lists)
    requires NodeChoice(launch.cpus, lists, workers) || DealtChoice(launch.cpus, lists, workers)
    ensures Justified(launch, lists, limit)
  {
    hide Tried, NodeChoice, DealtChoice;
  }

  lemma DealtCores(cpus: seq<Cpu>, physical: seq<Cpu>, nodes: seq<int>, lists: seq<seq<Cpu>>, rounds: nat, cut: nat)
    requires Grouped(physical, nodes, lists) && Dealt(cpus, lists, rounds, cut)
    ensures forall c :: c in cpus ==> c in physical
  {
    forall c | c in cpus ensures c in physical {
      var i, j :| 0 <= i < |lists| && 0 <= j < Share(|lists[i]|, rounds, cut, i) && lists[i][j] == c;
      assert c in OfNode(physical, nodes[i]);
    }
  }

  /** The node lists hold every CPU once. */
  lemma AllCounted(cpus: seq<Cpu>, nodes: seq<int>, lists: seq<seq<Cpu>>)
    requires Grouped(cpus, nodes, lists)
    ensures Total(lists, |lists|) == |cpus|
  {
    hide OfNode;
    TotalCounts(cpus, nodes, lists, |lists|);
    NodesCount(cpus, nodes);
  }

  /** The CPUs of the first n nodes. */
  ghost function NodeTotal(cpus: seq<Cpu>, nodes: seq<int>, n: nat): nat
    requires n <= |nodes|
  {
    if n == 0 then 0 else NodeTotal(cpus, nodes, n - 1) + |OfNode(cpus, nodes[n - 1])|
  }

  lemma {:induction false} TotalCounts(cpus: seq<Cpu>, nodes: seq<int>, lists: seq<seq<Cpu>>, n: nat)
    requires Grouped(cpus, nodes, lists) && n <= |lists|
    ensures Total(lists, n) == NodeTotal(cpus, nodes, n)
  {
    hide OfNode;
    if n > 0 { TotalCounts(cpus, nodes, lists, n - 1); }
  }

  lemma {:induction false} NodesCount(cpus: seq<Cpu>, nodes: seq<int>)
    requires (forall i, j :: 0 <= i < j < |nodes| ==> nodes[i] < nodes[j]) && forall c :: c in cpus ==> c.node in nodes
    ensures NodeTotal(cpus, nodes, |nodes|) == |cpus|
  {
    if cpus == [] {
      NothingCounts(nodes, |nodes|);
    } else {
      var rest, last := cpus[..|cpus| - 1], cpus[|cpus| - 1];
      assert cpus == rest + [last];
      NodesCount(rest, nodes);
      OneMoreCounts(rest, last, nodes, |nodes|);
      assert nodes[..|nodes|] == nodes;
    }
  }

  lemma {:induction false} NothingCounts(nodes: seq<int>, n: nat)
    requires n <= |nodes|
    ensures NodeTotal([], nodes, n) == 0
  {
    if n > 0 { NothingCounts(nodes, n - 1); }
  }

  lemma {:induction false} OneMoreCounts(cpus: seq<Cpu>, c: Cpu, nodes: seq<int>, n: nat)
    requires n <= |nodes| && forall i, j :: 0 <= i < j < |nodes| ==> nodes[i] < nodes[j]
    ensures NodeTotal(cpus + [c], nodes, n) == NodeTotal(cpus, nodes, n) + if c.node in nodes[..n] then 1 else 0
  {
    hide OfNode;
    if n > 0 {
      OneMoreCounts(cpus, c, nodes, n - 1);
      OfNodeGrows(cpus, c, nodes[n - 1]);
      assert nodes[..n] == nodes[..n - 1] + [nodes[n - 1]];
    }
  }

  /** Two dealt CPUs come from two nodes. */
  lemma DealSpans(
    launch: Launch, workers: nat, physical: seq<Cpu>, nodes: seq<int>, lists: seq<seq<Cpu>>, rounds: nat, cut: nat)
    requires workers >= 2 && |lists| > 1 && Grouped(physical, nodes, lists) && |launch.cpus| == workers
    requires cut <= |lists| && Dealt(launch.cpus, lists, rounds, cut)
    requires Grouped(launch.cpus, launch.nodes, launch.groups)
    ensures |launch.nodes| > 1
  {
    hide OfNode, Grouped;
    FirstsDealt(launch.cpus, physical, nodes, lists, rounds, cut);
    NodesDiffer(launch, lists[0][0], lists[1][0]);
  }

  lemma FirstsDealt(
    cpus: seq<Cpu>, physical: seq<Cpu>, nodes: seq<int>, lists: seq<seq<Cpu>>, rounds: nat, cut: nat)
    requires |cpus| >= 2 && |lists| > 1 && Grouped(physical, nodes, lists)
    requires cut <= |lists| && Dealt(cpus, lists, rounds, cut)
    ensures lists[0] != [] && lists[1] != [] && lists[0][0] in cpus && lists[1][0] in cpus
    ensures lists[0][0].node != lists[1][0].node
  {
    hide OfNode;
    if rounds == 0 && cut < 2 { FewGiven(lists, cut, |lists|); }
    assert 0 < Share(|lists[0]|, rounds, cut, 0) && 0 < Share(|lists[1]|, rounds, cut, 1);
    assert lists[0][0] in OfNode(physical, nodes[0]) && lists[1][0] in OfNode(physical, nodes[1]);
  }

  lemma NodesDiffer(launch: Launch, a: Cpu, b: Cpu)
    requires Grouped(launch.cpus, launch.nodes, launch.groups)
    requires a in launch.cpus && b in launch.cpus && a.node != b.node
    ensures |launch.nodes| > 1
  {
    hide OfNode;
    assert a.node in launch.nodes && b.node in launch.nodes;
  }

  lemma {:induction false} FewGiven(lists: seq<seq<Cpu>>, cut: nat, n: nat)
    requires cut < 2 && n <= |lists|
    ensures Given(lists, 0, cut, n) <= if n == 0 then 0 else 1
  {
    if n > 0 { FewGiven(lists, cut, n - 1); }
  }

  // ---- Per decomposition ---------------------------------------------------------------

  /** How a code plan divides its work, with the grid of the call it is planned for. */
  datatype Decomposition =
    | QueryBlocks(blocks: nat)
    | SplitKey(keyTiles: nat)
    | QueryKeyGrid(blocks: nat, keyTiles: nat)
    | StateHeads(heads: nat)
    | StateHeadsDvBlocks(heads: nat, dvBlocks: nat)
  {
    /** The most workers the work allows. */
    function Maximum(): nat {
      match this
      case QueryBlocks(blocks) => blocks
      case SplitKey(keyTiles) => keyTiles
      case QueryKeyGrid(blocks, keyTiles) => blocks * keyTiles
      case StateHeads(heads) => heads
      case StateHeadsDvBlocks(heads, dvBlocks) => heads * dvBlocks
    }

    /** The launches worth keeping: a 2D grid needs a number of workers that is not prime, DV blocks need more
        workers than state heads could use. */
    predicate Keeps(workers: nat) {
      match this
      case QueryBlocks(_) => true
      case SplitKey(_) => workers > 1
      case QueryKeyGrid(blocks, keyTiles) => workers >= 4 && Composite(workers) && blocks >= 2 && keyTiles >= 2
      case StateHeads(_) => true
      case StateHeadsDvBlocks(heads, dvBlocks) =>
        workers > 1 && dvBlocks > 1 && workers <= Maximum() && Maximum() > heads
    }
  }

  predicate Composite(workers: nat) {
    exists d: nat :: 2 <= d <= workers / 2 && Divides(d, workers)
  }

  lemma LeastProper(workers: nat)
    requires workers >= 2
    ensures Composite(workers) <==> LeastDivisor(workers, 2) < workers
  {
    var least := LeastDivisor(workers, 2);
    if least < workers {
      DivModSplit(workers, least);
      if workers < 2 * least { DivModUnique(workers, least, 1, workers - least); }
      assert Divides(least, workers);
    }
    if Composite(workers) {
      var d: nat :| 2 <= d <= workers / 2 && Divides(d, workers);
      assert least <= d;
    }
  }

  /** What is kept, decomposition by decomposition: as many workers as the split kernels insist on, a 2D grid only
      where its workers have a proper divisor and both sides can be divided, DV blocks only where there are several. */
  lemma KeptWorkers(work: Decomposition, workers: nat)
    requires workers > 0
    ensures work.Keeps(workers) <==> match work
      case QueryBlocks(_) => true
      case SplitKey(_) => 2 <= workers
      case QueryKeyGrid(blocks, keyTiles) =>
        4 <= workers && LeastDivisor(workers, 2) < workers && 2 <= blocks && 2 <= keyTiles
      case StateHeads(_) => true
      case StateHeadsDvBlocks(heads, dvBlocks) => 2 <= workers <= heads * dvBlocks && 2 <= dvBlocks
  {
    match work
    case QueryKeyGrid(_, _) => if workers >= 2 { LeastProper(workers); }
    case StateHeadsDvBlocks(heads, dvBlocks) =>
      if heads > 0 && dvBlocks >= 2 { MulMono(2, dvBlocks, heads); }
    case _ =>
  }

  /** Every launch of the host that the decomposition keeps, and no other. */
  ghost predicate Proposals(
    kept: seq<Launch>, host: seq<Cpu>, work: Decomposition, limit: nat, physical: seq<Cpu>, nodes: seq<int>,
    lists: seq<seq<Cpu>>)
  {
    && Cores(host, physical, nodes, lists)
    && limit == (if |physical| < work.Maximum() then |physical| else work.Maximum())
    && AllGood(kept, host, lists, limit) && (forall i :: 0 <= i < |kept| ==> work.Keeps(|kept[i].cpus|))
    && forall workers: nat :: 1 <= workers <= limit && Tried(workers, limit, lists) && work.Keeps(workers) ==>
      AllChosen(kept, lists, workers)
  }

  /** The launches the planner proposes for a decomposition. */
  method PlannedLaunches(host: seq<Cpu>, work: Decomposition)
    returns (kept: seq<Launch>, limit: nat, ghost physical: seq<Cpu>, ghost nodes: seq<int>, lists: seq<seq<Cpu>>)
    ensures Proposals(kept, host, work, limit, physical, nodes, lists)
  {
    hide Cores, LaunchValid, Justified, Tried, AllChosen, Decomposition.Keeps, Decomposition.Maximum;
    var all;
    all, limit, physical, nodes, lists := LaunchPlans(host, work.Maximum());
    kept := [];
    for i := 0 to |all|
      invariant AllGood(kept, host, lists, limit) && forall j :: 0 <= j < |kept| ==> work.Keeps(|kept[j].cpus|)
      invariant forall j :: 0 <= j < i && work.Keeps(|all[j].cpus|) ==> all[j] in kept
    {
      if work.Keeps(|all[i].cpus|) { kept := kept + [all[i]]; }
    }
    forall workers: nat | 1 <= workers <= limit && Tried(workers, limit, lists) && work.Keeps(workers)
      ensures AllChosen(kept, lists, workers)
    {
      KeptChosen(all, kept, lists, workers);
    }
  }

  lemma KeptChosen(all: seq<Launch>, kept: seq<Launch>, lists: seq<seq<Cpu>>, workers: nat)
    requires AllChosen(all, lists, workers)
    requires forall j :: 0 <= j < |all| && |all[j].cpus| == workers ==> all[j] in kept
    ensures AllChosen(kept, lists, workers)
  {
    forall n: nat | n < |lists| && workers <= |lists[n]| ensures ChosenNode(kept, lists, workers, n) {
      assert ChosenNode(all, lists, workers, n);
      var i :| 0 <= i < |all| && all[i].cpus == lists[n][..workers];
      assert all[i] in kept;
    }
    if |lists| > 1 && workers >= 2 {
      var i :| 0 <= i < |all| && DealtChoice(all[i].cpus, lists, workers);
      assert all[i] in kept;
    }
  }

  // ---- 2D launches and the kernel's divisor ------------------------------------------------

  /** A host whose cores have one CPU each is used whole. */
  lemma AllCores(host: seq<Cpu>, physical: seq<Cpu>)
    requires OnePerCore(host) && OnePerCore(physical) && (forall c :: c in physical ==> c in host)
    requires forall c :: c in host ==> exists p :: p in physical && CoreOf(p) == CoreOf(c)
    ensures |physical| == |host|
  {
    forall c | c in host ensures c in physical {
      var p :| p in physical && CoreOf(p) == CoreOf(c);
      assert p in host;
    }
    assert Members(host) == Members(physical);
    CoresDiffer(physical, physical);
    UniqueCount(host);
    UniqueCount(physical);
  }

  /** Nine cores on one node. */
  function NineCores(): seq<Cpu> { seq(9, i => Cpu(i, 0, i, 0)) }

  /** The planner's conditions are not enough: on nine cores, five query blocks and two key tiles, a launch of all
      nine is proposed, and the kernel has no divisor for it. */
  lemma PlannedYetRefused(
    kept: seq<Launch>, limit: nat, physical: seq<Cpu>, nodes: seq<int>, lists: seq<seq<Cpu>>)
    returns (i: nat)
    requires Proposals(kept, NineCores(), QueryKeyGrid(5, CeilDiv(32, 16)), limit, physical, nodes, lists)
    ensures i < |kept| && |kept[i].cpus| == 9 && !HasDivisor(9, 32, 16)
  {
    hide AllGood, OfNode, AllChosen;
    var host := NineCores();
    AllCores(host, physical);
    assert Divides(3, 9) && Composite(9);
    OneNode(physical, nodes, lists, 0);
    assert limit == 9 && Tried(9, limit, lists);
    assert AllChosen(kept, lists, 9);
    i := FirstChosen(kept, lists, 9);
    LeastDivisorDecides(9, 32, 16);
  }

  lemma FirstChosen(launches: seq<Launch>, lists: seq<seq<Cpu>>, workers: nat) returns (i: nat)
    requires AllChosen(launches, lists, workers) && lists != [] && workers <= |lists[0]|
    ensures i < |launches| && launches[i].cpus == lists[0][..workers]
  {
    assert ChosenNode(launches, lists, workers, 0);
    i :| i < |launches| && launches[i].cpus == lists[0][..workers];
  }

  /** A proposed 2D launch is taken exactly when its least divisor fits the key tiles. */
  lemma ProposedTaken(
    kept: seq<Launch>, host: seq<Cpu>, blocks: nat, keys: nat, tileK: nat, limit: nat, physical: seq<Cpu>,
    nodes: seq<int>, lists: seq<seq<Cpu>>, i: nat)
    requires tileK > 0 && i < |kept|
    requires Proposals(kept, host, QueryKeyGrid(blocks, CeilDiv(keys, tileK)), limit, physical, nodes, lists)
    ensures |kept[i].cpus| >= 4
    ensures HasDivisor(|kept[i].cpus|, keys, tileK) <==> LeastDivisor(|kept[i].cpus|, 2) <= CeilDiv(keys, tileK)
  {
    hide AllGood, AllChosen, Cores, Tried;
    LeastDivisorDecides(|kept[i].cpus|, keys, tileK);
  }

  /** CPUs of one node make one list. */
  lemma OneNode(cpus: seq<Cpu>, nodes: seq<int>, lists: seq<seq<Cpu>>, node: int)
    requires Grouped(cpus, nodes, lists) && cpus != [] && forall c :: c in cpus ==> c.node == node
    ensures |lists| == 1 && |lists[0]| == |cpus|
  {
    hide OfNode;
    assert cpus[0].node in nodes;
    forall i | 0 <= i < |nodes| ensures nodes[i] == node {
      assert lists[i][0] in OfNode(cpus, nodes[i]);
    }
    AllCounted(cpus, nodes, lists);
    assert Total(lists, 1) == Total(lists, 0) + |lists[0]|;
  }

  /** The shortest length of a key-length bucket. */
  function BucketStart(edge: nat): nat { if edge <= BUCKET_UNIT then 1 else edge / 2 + 1 }

  lemma BucketRange(length: nat, keys: nat)
    requires length > 0 && keys > 0
    ensures KvBucket(keys) == KvBucket(length) <==> BucketStart(KvBucket(length)) <= keys <= KvBucket(length)
  {
    var n := KvBucketLeast(length);
    var m := KvBucketLeast(keys);
    if n < m { Pow2Mono(n, m - 1); }
    if m < n { Pow2Mono(m, n - 1); }
  }

  /** A 2D plan is chosen at its bucket's edge. It is taken at every length of the bucket exactly when its workers'
      least divisor fits the key tiles of the shortest one. */
  lemma EdgePlanTaken(workers: nat, length: nat, tileK: nat)
    requires workers >= 4 && tileK > 0 && length > 0
    ensures (forall keys: nat :: keys > 0 && KvBucket(keys) == KvBucket(length) ==> HasDivisor(workers, keys, tileK))
       <==> LeastDivisor(workers, 2) <= KeyTileCap(BucketStart(KvBucket(length)), tileK)
  {
    var start := BucketStart(KvBucket(length));
    BucketRange(length, length);
    BucketRange(length, start);
    LeastDivisorDecides(workers, start, tileK);
    if LeastDivisor(workers, 2) <= KeyTileCap(start, tileK) {
      forall keys: nat | keys > 0 && KvBucket(keys) == KvBucket(length) ensures HasDivisor(workers, keys, tileK) {
        BucketRange(length, keys);
        DivMono(start + tileK - 1, keys + tileK - 1, tileK);
        LeastDivisorDecides(workers, keys, tileK);
      }
    }
  }

  /** Such a plan: nine workers find a divisor for the four key tiles of the edge, and none at twenty keys. */
  lemma EdgeYetRefused()
    ensures KvBucket(20) == 64 && QueryKeyGrid(5, CeilDiv(64, 16)).Keeps(9)
    ensures HasDivisor(9, 64, 16) && !HasDivisor(9, 20, 16)
  {
    assert Divides(3, 9);
    LeastDivisorDecides(9, 64, 16);
    LeastDivisorDecides(9, 20, 16);
  }

  // ---- What the kernels are handed -----------------------------------------------------

  /** A group holds the launch's CPUs of its node. */
  lemma GroupHolds(launch: Launch, cpu: Cpu)
    requires Grouped(launch.cpus, launch.nodes, launch.groups) && cpu in launch.cpus
    ensures cpu.node in launch.nodes
    ensures forall g: nat :: g < |launch.groups| ==> (cpu in launch.groups[g] <==> launch.nodes[g] == cpu.node)
  {
    forall g: nat | g < |launch.groups| ensures cpu in launch.groups[g] <==> launch.nodes[g] == cpu.node {
      assert launch.groups[g] == OfNode(launch.cpus, launch.nodes[g]);
    }
  }

  /** The group that a worker's CPU belongs to. */
  method GroupOf(launch: Launch, cpu: Cpu) returns (group: nat)
    requires Grouped(launch.cpus, launch.nodes, launch.groups) && cpu in launch.cpus
    ensures group < |launch.groups| && launch.nodes[group] == cpu.node
    ensures forall g: nat :: g < |launch.groups| ==> (cpu in launch.groups[g] <==> g == group)
  {
    hide OfNode;
    GroupHolds(launch, cpu);
    ghost var k :| 0 <= k < |launch.nodes| && launch.nodes[k] == cpu.node;
    group := 0;
    while cpu !in launch.groups[group]
      invariant group <= k
      decreases k - group
    {
      group := group + 1;
    }
  }

  /** Every worker's group, in worker order. Each worker is in its own node's group, and no group is without a
      worker, whatever owner groups a memory plan then chooses. */
  method WorkerGroups(launch: Launch) returns (indices: seq<nat>)
    requires Grouped(launch.cpus, launch.nodes, launch.groups)
    ensures |indices| == |launch.cpus|
    ensures forall w :: 0 <= w < |indices| ==>
      indices[w] < |launch.groups| && launch.nodes[indices[w]] == launch.cpus[w].node
    ensures forall g: nat :: g < |launch.groups| ==> g in indices
  {
    hide OfNode;
    indices := [];
    for w := 0 to |launch.cpus|
      invariant |indices| == w
      invariant forall v :: 0 <= v < w ==>
        indices[v] < |launch.groups| && launch.nodes[indices[v]] == launch.cpus[v].node
    {
      var group := GroupOf(launch, launch.cpus[w]);
      indices := indices + [group];
    }
    forall g: nat | g < |launch.groups| ensures g in indices {
      var w := GroupStaffed(launch, g);
      assert indices[w] == g;
    }
  }

  lemma GroupStaffed(launch: Launch, g: nat) returns (w: nat)
    requires Grouped(launch.cpus, launch.nodes, launch.groups) && g < |launch.groups|
    ensures w < |launch.cpus| && launch.cpus[w].node == launch.nodes[g]
  {
    var cpu := launch.groups[g][0];
    assert cpu in OfNode(launch.cpus, launch.nodes[g]);
    w :| w < |launch.cpus| && launch.cpus[w] == cpu;
  }
}
