/**
 * The sample points the plots are drawn over: `np.linspace(-10, 10, 400)` for
 * the explicit curve, its `np.meshgrid` with itself for the implicit and 3D
 * plots, and the list comprehension that evaluates the user's expression at
 * every explicit sample. Coordinates are reals; floating point is not modelled.
 */
module Sampling {
  import opened Wrappers

  /** Every plot samples `[Lo, Hi]` at `SampleCount` points per axis. */
  const SampleCount: nat := 400
  const Lo: real := -10.0
  const Hi: real := 10.0

  /**
   * `np.linspace(a, b, n)`: `a + i * step` with `step == (b - a) / (n - 1)`,
   * and the last point set to `b` itself, as numpy does when `n > 1`.
   */
  function Linspace(a: real, b: real, n: nat): (r: seq<real>)
    ensures |r| == n
    ensures n > 0 ==> r[0] == a
    ensures n > 1 ==> r[n - 1] == b
  {
    if n == 1 then [a]
    else seq(n, i requires 0 <= i < n =>
               if i == n - 1 then b else a + (i as real) * ((b - a) / ((n - 1) as real)))
  }

  lemma StepTimesCount(a: real, b: real, n: nat)
    requires n > 1
    ensures ((n - 1) as real) * ((b - a) / ((n - 1) as real)) == b - a
  {
  }

  /** Consecutive points of a linspace are exactly one step apart. */
  lemma LinspaceEvenlySpaced(a: real, b: real, n: nat, i: nat)
    requires n > 1 && i + 1 < n
    ensures Linspace(a, b, n)[i + 1] - Linspace(a, b, n)[i] == (b - a) / ((n - 1) as real)
  {
    var step := (b - a) / ((n - 1) as real);
    var r := Linspace(a, b, n);
    assert r[i] == a + (i as real) * step;
    if i + 1 == n - 1 {
      StepTimesCount(a, b, n);
      assert (i as real) * step + step == ((n - 1) as real) * step;
    } else {
      assert r[i + 1] == a + ((i + 1) as real) * step;
      assert ((i + 1) as real) * step == (i as real) * step + step;
    }
  }

  /** Over an increasing interval the points are strictly increasing. */
  lemma {:induction false} LinspaceIncreasing(a: real, b: real, n: nat, i: nat, j: nat)
    requires a < b && i < j < n
    ensures Linspace(a, b, n)[i] < Linspace(a, b, n)[j]
    decreases j - i
  {
    var step := (b - a) / ((n - 1) as real);
    assert step > 0.0;
    LinspaceEvenlySpaced(a, b, n, j - 1);
    if i < j - 1 {
      LinspaceIncreasing(a, b, n, i, j - 1);
    }
  }

  /** The x coordinates of the explicit curve. */
  function CurveXs(): (xs: seq<real>)
    ensures |xs| == SampleCount && xs[0] == Lo && xs[SampleCount - 1] == Hi
  {
    Linspace(Lo, Hi, SampleCount)
  }

  /**
   * With 400 points, x = 0 is not a sample point: the two middle samples are
   * -10/399 and 10/399.
   */
  lemma ZeroIsNotSampled()
    ensures 0.0 !in CurveXs()
  {
    var xs := CurveXs();
    assert xs[199] == -10.0 / 399.0;
    assert xs[200] == 10.0 / 399.0;
    forall i | 0 <= i < |xs|
      ensures xs[i] != 0.0
    {
      if i < 199 {
        LinspaceIncreasing(Lo, Hi, SampleCount, i, 199);
      } else if i > 200 {
        LinspaceIncreasing(Lo, Hi, SampleCount, 200, i);
      }
    }
  }

  /**
   * `X, Y = np.meshgrid(xs, ys)`, kept as the two axes it is built from;
   * `MeshX` and `MeshY` give the two arrays themselves.
   */
  datatype Grid = Meshgrid(xs: seq<real>, ys: seq<real>)

  /** `X`: `|ys|` rows, each a copy of `xs`. */
  function MeshX(g: Grid): (x: seq<seq<real>>)
    ensures |x| == |g.ys| && forall i :: 0 <= i < |x| ==> x[i] == g.xs
  {
    seq(|g.ys|, i => g.xs)
  }

  /** `Y`: `|ys|` rows, row `i` holding `ys[i]` in every one of its `|xs|` columns. */
  function MeshY(g: Grid): (y: seq<seq<real>>)
    ensures |y| == |g.ys|
    ensures forall i :: 0 <= i < |y| ==> |y[i]| == |g.xs| && forall j :: 0 <= j < |g.xs| ==> y[i][j] == g.ys[i]
  {
    seq(|g.ys|, i requires 0 <= i < |g.ys| => seq(|g.xs|, j => g.ys[i]))
  }

  /** The grid of the implicit and 3D plots: both axes are the explicit curve's samples. */
  function SampleGrid(): Grid {
    Meshgrid(CurveXs(), CurveXs())
  }

  /** The implicit and 3D plots are evaluated on 400 x 400 points of the square [-10, 10]². */
  lemma SampleGridShape()
    ensures |MeshX(SampleGrid())| == SampleCount && |MeshY(SampleGrid())| == SampleCount
    ensures forall i, j :: 0 <= i < SampleCount && 0 <= j < SampleCount ==>
              MeshX(SampleGrid())[i][j] == CurveXs()[j] && MeshY(SampleGrid())[i][j] == CurveXs()[i]
    ensures MeshX(SampleGrid())[0][0] == Lo && MeshY(SampleGrid())[SampleCount - 1][0] == Hi
  {
  }

  /**
   * `[float(expr.subs(x, xi)) for xi in xs]`, where `valueAt(xi)` is what
   * `float(expr.subs(x, xi))` gives. The points are evaluated in order and the
   * first one that raises aborts the whole list with that exception; no point
   * is skipped or replaced by NaN.
   */
  function SampleCurve(valueAt: real -> Result<real>, xs: seq<real>): (r: Result<seq<real>>)
    ensures r.Ok? <==> forall i :: 0 <= i < |xs| ==> valueAt(xs[i]).Ok?
    ensures r.Ok? ==> |r.value| == |xs| &&
                      forall i :: 0 <= i < |xs| ==> valueAt(xs[i]) == Ok(r.value[i])
    ensures r.Err? ==> exists k :: 0 <= k < |xs| && valueAt(xs[k]) == Err(r.message) &&
                                   forall i :: 0 <= i < k ==> valueAt(xs[i]).Ok?
  {
    if xs == [] then Ok([])
    else match valueAt(xs[0])
      case Err(m) => Err(m)
      case Ok(y) =>
        match SampleCurve(valueAt, xs[1..])
        case Err(m) =>
          ghost var k :| 0 <= k < |xs[1..]| && valueAt(xs[1..][k]) == Err(m) &&
                         forall i :: 0 <= i < k ==> valueAt(xs[1..][i]).Ok?;
          assert valueAt(xs[k + 1]) == Err(m);
          Err(m)
        case Ok(ys) => Ok([y] + ys)
  }
}
