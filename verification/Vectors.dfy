/** Real vectors, dot products and decay products shared by every linear lowering. */
module Vectors {

  type Vec = seq<real>

  /** A product that lemmas combining closed forms keep folded, so that their reasoning stays linear. */
  function Times(x: real, y: real): real {
    x * y
  }

  lemma TimesSwaps(x: real, y: real)
    ensures x * y == Times(y, x) == Times(x, y)
  {
  }

  /** Sum of x[i] * y[i] for i < n. */
  function DotN(x: Vec, y: Vec, n: nat): real
    requires n <= |x| && n <= |y|
  {
    if n == 0 then 0.0 else DotN(x, y, n - 1) + x[n - 1] * y[n - 1]
  }

  function Dot(x: Vec, y: Vec): real
    requires |x| == |y|
  {
    DotN(x, y, |x|)
  }

  function Scaled(a: real, x: Vec): (r: Vec)
    ensures |r| == |x|
  {
    seq(|x|, i requires 0 <= i < |x| => a * x[i])
  }

  /** a * x + u * y, element by element. */
  function Affine(a: real, x: Vec, u: real, y: Vec): (r: Vec)
    requires |x| == |y|
    ensures |r| == |x|
  {
    seq(|x|, i requires 0 <= i < |x| => Times(a, x[i]) + Times(u, y[i]))
  }

  function Constant(a: real, n: nat): (r: Vec)
    ensures |r| == n
  {
    seq(n, i => a)
  }

  /** The product a[i] * ... * a[j-1], one when the range is empty. */
  function Prod(a: Vec, i: nat, j: nat): real
    requires j <= |a|
    decreases j
  {
    if j <= i then 1.0 else Prod(a, i, j - 1) * a[j - 1]
  }

  lemma {:induction false} DotCongruent(x: Vec, y: Vec, x': Vec, y': Vec, n: nat)
    requires n <= |x| && n <= |y| && n <= |x'| && n <= |y'|
    requires forall i :: 0 <= i < n ==> x[i] == x'[i] && y[i] == y'[i]
    ensures DotN(x, y, n) == DotN(x', y', n)
  {
    if n > 0 { DotCongruent(x, y, x', y', n - 1); }
  }

  lemma {:induction false} DotAffine(z: Vec, a: real, x: Vec, u: real, y: Vec, n: nat)
    requires |x| == |y| && n <= |x| && n <= |z|
    ensures DotN(z, Affine(a, x, u, y), n) == a * DotN(z, x, n) + u * DotN(z, y, n)
  {
    if n > 0 {
      DotAffine(z, a, x, u, y, n - 1);
      assert z[n - 1] * (a * x[n - 1] + u * y[n - 1])
        == a * (z[n - 1] * x[n - 1]) + u * (z[n - 1] * y[n - 1]);
    }
  }

  lemma {:induction false} DotScaledRight(z: Vec, a: real, x: Vec, n: nat)
    requires n <= |x| && n <= |z|
    ensures DotN(z, Scaled(a, x), n) == a * DotN(z, x, n)
  {
    if n > 0 {
      DotScaledRight(z, a, x, n - 1);
      assert z[n - 1] * (a * x[n - 1]) == a * (z[n - 1] * x[n - 1]);
    }
  }

  /** Prod also grows on the left, the direction the backward decay loops run. */
  lemma {:induction false} ProdLeft(a: Vec, i: nat, j: nat)
    requires i < j <= |a|
    ensures Prod(a, i, j) == a[i] * Prod(a, i + 1, j)
  {
    if j == i + 1 {
      assert Prod(a, i, i) == 1.0;
    } else {
      ProdLeft(a, i, j - 1);
      assert (a[i] * Prod(a, i + 1, j - 1)) * a[j - 1] == a[i] * (Prod(a, i + 1, j - 1) * a[j - 1]);
    }
  }

}
