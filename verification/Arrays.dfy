/** Rows and columns of two-dimensional arrays, as sequences. */
module Arrays {

  ghost function Row<T>(a: array2<T>, m: nat): (r: seq<T>)
    requires m < a.Length0
    reads a
    ensures |r| == a.Length1
  {
    seq(a.Length1, j requires 0 <= j < a.Length1 reads a => a[m, j])
  }

  ghost function Col<T>(a: array2<T>, dv: nat): (c: seq<T>)
    requires dv < a.Length1
    reads a
    ensures |c| == a.Length0
  {
    seq(a.Length0, d requires 0 <= d < a.Length0 reads a => a[d, dv])
  }

  ghost function Columns<T>(a: array2<T>): (r: seq<seq<T>>)
    reads a
    ensures |r| == a.Length1 && forall dv :: 0 <= dv < |r| ==> |r[dv]| == a.Length0 && r[dv] == Col(a, dv)
  {
    seq(a.Length1, dv requires 0 <= dv < a.Length1 reads a => Col(a, dv))
  }
}
