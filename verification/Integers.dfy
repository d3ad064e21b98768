/** Integer division facts behind the kernels' index decoding. */
module Integers {

  lemma MulMono(x: int, y: int, z: nat)
    requires x <= y
    ensures x * z <= y * z
  {
  }

  /** Quotient and remainder are the only way to split a number. */
  lemma DivModUnique(n: nat, d: nat, quotient: nat, remainder: nat)
    requires remainder < d && n == quotient * d + remainder
    ensures n / d == quotient && n % d == remainder
  {
    var q, r := n / d, n % d;
    assert n == q * d + r && 0 <= r < d;
    if q < quotient {
      MulMono(q + 1, quotient, d);
      assert false;
    } else if quotient < q {
      MulMono(quotient + 1, q, d);
      assert false;
    }
  }

  lemma PairUnique(s: nat, a: nat, t: nat, b: nat, d: nat)
    requires a < d && b < d && s * d + a == t * d + b
    ensures s == t && a == b
  {
    DivModUnique(s * d + a, d, s, a);
    DivModUnique(t * d + b, d, t, b);
  }

  lemma DivModSplit(n: nat, d: nat)
    requires d > 0
    ensures n == (n / d) * d + n % d && 0 <= n % d < d
  {
  }

  /** Dividing in two steps and in one agree. */
  lemma DivTwice(n: nat, d: nat, e: nat)
    requires d > 0 && e > 0
    ensures d * e > 0 && n / (d * e) == n / d / e
  {
    var q, r, s := n / d / e, n / d % e, n % d;
    DivModSplit(n, d);
    DivModSplit(n / d, e);
    Nested(q, r, s, d, e);
    DivModUnique(n, d * e, q, r * d + s);
  }

  lemma Nested(q: nat, r: nat, s: nat, d: nat, e: nat)
    requires r < e && s < d
    ensures (q * e + r) * d + s == q * (d * e) + (r * d + s) && r * d + s < d * e
  {
    Regrouped(q, d, e);
    assert (q * e + r) * d == q * e * d + r * d;
    MulMono(r + 1, e, d);
    assert (r + 1) * d == r * d + d && e * d == d * e;
  }

  lemma Regrouped(q: nat, d: nat, e: nat)
    ensures q * e * d == q * (d * e)
  {
  }

  lemma DivLess(n: nat, a: nat, d: nat)
    requires n < a * d
    ensures d > 0 && n / d < a
  {
    assert d > 0;
    DivModSplit(n, d);
    if a <= n / d { MulMono(a, n / d, d); }
  }

  /** Every part of a divided range begins inside it. */
  lemma PartBegins(part: nat, n: nat, d: nat)
    requires d > 0 && part < CeilDiv(n, d)
    ensures part * d < n
  {
    CeilCovers(n, d);
    MulMono(part + 1, CeilDiv(n, d), d);
    assert (part + 1) * d == part * d + d;
  }

  /** How many parts of size d hold n. */
  function CeilDiv(n: nat, d: nat): nat
    requires d > 0
  {
    (n + d - 1) / d
  }

  /** The least multiple of d that is at least n. */
  function RoundUp(n: nat, d: nat): nat
    requires d > 0
  {
    CeilDiv(n, d) * d
  }

  /** A rounded-up quotient covers everything below the rounded number. */
  lemma CeilCovers(n: nat, d: nat)
    requires d > 0
    ensures n <= RoundUp(n, d) < n + d
  {
    DivModSplit(n + d - 1, d);
  }

  /** Two lengths round up alike exactly when the larger fits under the smaller one's round-up. */
  lemma CeilStable(a: nat, b: nat, d: nat)
    requires d > 0 && a < b
    ensures RoundUp(a, d) == RoundUp(b, d) <==> b <= RoundUp(a, d)
  {
    var p, q := CeilDiv(a, d), CeilDiv(b, d);
    CeilCovers(a, d);
    CeilCovers(b, d);
    DivMono(a + d - 1, b + d - 1, d);
    if p < q { MulMono(p + 1, q, d); }
  }

  /** The shared head that a head reads, both numbered over all batches: a batch's heads divide its shared heads
      evenly, in order. */
  function SharedHead(head: nat, heads: nat, shared: nat): nat
    requires heads > 0
  {
    head / heads * shared + head % heads * shared / heads
  }

  lemma SharedHeadInside(head: nat, batches: nat, heads: nat, shared: nat)
    requires heads > 0 && shared > 0 && head < batches * heads
    ensures head / heads < batches && head % heads * shared / heads < shared
    ensures SharedHead(head, heads, shared) < batches * shared
  {
    DivModSplit(head, heads);
    if batches <= head / heads { MulMono(batches, head / heads, heads); }
    var h := head % heads;
    MulMono(h + 1, heads, shared);
    assert (h + 1) * shared == h * shared + shared;
    DivModSplit(h * shared, heads);
    if shared <= h * shared / heads { MulMono(shared, h * shared / heads, heads); }
    MulMono(head / heads + 1, batches, shared);
    assert (head / heads + 1) * shared == head / heads * shared + shared;
  }

  /** Heads are shared in consecutive groups: head h of a batch reads the shared head whose stretch of the heads,
      heads / shared long, begins at or before h and ends behind it. */
  lemma SharedHeadGroups(b: nat, h: nat, heads: nat, shared: nat, g: nat)
    requires h < heads && g < shared
    ensures SharedHead(b * heads + h, heads, shared) == b * shared + g <==> g * heads <= h * shared < (g + 1) * heads
  {
    DivModUnique(b * heads + h, heads, b, h);
    var q := h * shared / heads;
    DivModSplit(h * shared, heads);
    assert (q + 1) * heads == q * heads + heads;
    if g * heads <= h * shared < (g + 1) * heads {
      if q < g { MulMono(q + 1, g, heads); }
      if g < q { MulMono(g + 1, q, heads); }
    }
  }

  /** When the shared heads divide the heads, each serves the same number of consecutive heads. */
  lemma SharedHeadConsecutive(b: nat, h: nat, heads: nat, shared: nat)
    requires h < heads && shared > 0 && heads % shared == 0
    ensures heads / shared > 0 && SharedHead(b * heads + h, heads, shared) == b * shared + h / (heads / shared)
  {
    var per := heads / shared;
    DivModSplit(heads, shared);
    assert per * shared == shared * per;
    DivModUnique(b * heads + h, heads, b, h);
    DivTwice(h * shared, shared, per);
    DivModUnique(h * shared, shared, h, 0);
  }

  /** Where rank's share of count items begins; the share ends where the next one begins. */
  function ShareBegin(count: nat, rank: nat, workers: nat): nat
    requires workers > 0
  {
    count * rank / workers
  }

  lemma ShareOrdered(count: nat, rank: nat, later: nat, workers: nat)
    requires rank <= later <= workers && workers > 0
    ensures ShareBegin(count, rank, workers) <= ShareBegin(count, later, workers) <= count
  {
    MulMono(rank, later, count);
    MulMono(later, workers, count);
    DivMono(count * rank, count * later, workers);
    DivMono(count * later, count * workers, workers);
    DivModUnique(count * workers, workers, count, 0);
  }

  lemma DivMono(a: nat, b: nat, d: nat)
    requires a <= b && d > 0
    ensures a / d <= b / d
  {
    DivModSplit(a, d);
    DivModSplit(b, d);
    if b / d < a / d { MulMono(b / d + 1, a / d, d); }
  }

  /** The rank whose share holds an index. */
  lemma {:induction false} ShareOwner(count: nat, workers: nat, index: nat, upTo: nat) returns (rank: nat)
    requires workers > 0 && upTo <= workers && index < ShareBegin(count, upTo, workers)
    ensures rank < upTo && ShareBegin(count, rank, workers) <= index < ShareBegin(count, rank + 1, workers)
  {
    if upTo == 0 {
      assert false;
    } else if ShareBegin(count, upTo - 1, workers) <= index {
      rank := upTo - 1;
    } else {
      rank := ShareOwner(count, workers, index, upTo - 1);
    }
  }

  /** Every index belongs to exactly one rank's share. */
  lemma SharesPartition(count: nat, workers: nat, index: nat)
    requires workers > 0 && index < count
    ensures exists rank: nat :: rank < workers && InShare(count, rank, workers, index)
    ensures forall r: nat, t: nat ::
      (r < workers && t < workers && InShare(count, r, workers, index) && InShare(count, t, workers, index)) ==> r == t
  {
    DivModUnique(count * workers, workers, count, 0);
    var rank := ShareOwner(count, workers, index, workers);
    assert InShare(count, rank, workers, index);
    forall r: nat, t: nat | r < t < workers && InShare(count, r, workers, index)
      ensures !InShare(count, t, workers, index)
    {
      ShareOrdered(count, r + 1, t, workers);
    }
  }

  /** Shares are as equal as they can be: none is more than one larger than the quotient, none is smaller. */
  lemma SharesBalanced(count: nat, rank: nat, workers: nat)
    requires rank < workers
    ensures count / workers <= ShareBegin(count, rank + 1, workers) - ShareBegin(count, rank, workers)
      <= CeilDiv(count, workers)
    ensures ShareBegin(count, 0, workers) == 0 && ShareBegin(count, workers, workers) == count
  {
    var low, high, q := count * rank / workers, count * (rank + 1) / workers, count / workers;
    assert count * (rank + 1) == count * rank + count;
    DivModSplit(count * rank, workers);
    DivModSplit(count * (rank + 1), workers);
    DivModSplit(count, workers);
    CeilCovers(count, workers);
    var step := high - low;
    assert high * workers - low * workers == step * workers;
    var c := CeilDiv(count, workers);
    assert (step + 1) * workers == step * workers + workers && (c + 1) * workers == c * workers + workers;
    if step < q { MulMono(step + 1, q, workers); }
    if step > c { MulMono(c + 1, step, workers); }
    DivModUnique(count * workers, workers, count, 0);
  }

  predicate InShare(count: nat, rank: nat, workers: nat, index: nat)
    requires workers > 0
  {
    ShareBegin(count, rank, workers) <= index < ShareBegin(count, rank + 1, workers)
  }
}
