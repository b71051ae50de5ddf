/**
 * Element-wise array arithmetic and the time mean, on flat sequences of
 * reals. A field with `steps` time samples over a grid of `cells` spatial
 * cells is stored time-major: sample t occupies `data[t * cells .. (t + 1) * cells]`.
 */
module Grid {

  /** `s * k`: every element multiplied by `k`. */
  function Scaled(s: seq<real>, k: real): (r: seq<real>)
    ensures |r| == |s|
    ensures forall i :: 0 <= i < |s| ==> r[i] == k * s[i]
  {
    if s == [] then [] else [k * s[0]] + Scaled(s[1..], k)
  }

  /** `s < bound`: the element-wise comparison, as a boolean array. */
  function Below(s: seq<real>, bound: real): (m: seq<bool>)
    ensures |m| == |s|
    ensures forall i :: 0 <= i < |s| ==> (m[i] <==> s[i] < bound)
  {
    if s == [] then [] else [s[0] < bound] + Below(s[1..], bound)
  }

  /** `s >= bound`: the element-wise comparison, as a boolean array. */
  function AtLeast(s: seq<real>, bound: real): (m: seq<bool>)
    ensures |m| == |s|
    ensures forall i :: 0 <= i < |s| ==> (m[i] <==> s[i] >= bound)
  {
    if s == [] then [] else [s[0] >= bound] + AtLeast(s[1..], bound)
  }

  /** `s / d`: every element divided by `d`. */
  function Divided(s: seq<real>, d: real): (r: seq<real>)
    requires d != 0.0
    ensures |r| == |s|
    ensures forall i :: 0 <= i < |s| ==> r[i] == s[i] / d
  {
    if s == [] then [] else [s[0] / d] + Divided(s[1..], d)
  }

  /** The array of `n` copies of `c`. */
  function Constant<T>(n: nat, c: T): seq<T>
  {
    seq(n, _ => c)
  }

  /** `a + b`: the element-wise sum of two arrays of one shape. */
  function Plus(a: seq<real>, b: seq<real>): (r: seq<real>)
    requires |a| == |b|
    ensures |r| == |a|
    ensures forall i :: 0 <= i < |a| ==> r[i] == a[i] + b[i]
  {
    if a == [] then [] else [a[0] + b[0]] + Plus(a[1..], b[1..])
  }

  /** The sum of a sequence of reals. */
  function Sum(s: seq<real>): real
  {
    if s == [] then 0.0 else s[0] + Sum(s[1..])
  }

  /**
   * `n` values make up exactly `steps` consecutive samples of `cells`
   * values each (that is, `n == steps * cells`, see TiledLength).
   */
  predicate Tiled(n: nat, steps: nat, cells: nat)
    decreases steps
  {
    if steps == 0 then n == 0 else cells <= n && Tiled(n - cells, steps - 1, cells)
  }

  /** Tiled lengths are exactly the multiples of the sample size. */
  lemma {:induction false} TiledLength(n: nat, steps: nat, cells: nat)
    ensures Tiled(n, steps, cells) <==> n == steps * cells
    decreases steps
  {
    if steps > 0 {
      assert steps * cells == (steps - 1) * cells + cells;
      if cells <= n {
        TiledLength(n - cells, steps - 1, cells);
      }
    }
  }

  /**
   * The time series of spatial cell `j`: its value in sample 0, then in
   * sample 1, and so on (so element t is `data[t * cells + j]`).
   */
  function SeriesAt(data: seq<real>, steps: nat, cells: nat, j: nat): (series: seq<real>)
    requires Tiled(|data|, steps, cells) && j < cells
    ensures |series| == steps
    decreases steps
  {
    if steps == 0 then []
    else
      [data[j]] + SeriesAt(data[cells..], steps - 1, cells, j)
  }

  /** Element t of cell j's time series is the value at position `t * cells + j`. */
  lemma {:induction false} SeriesAtIndex(data: seq<real>, steps: nat, cells: nat, j: nat, t: nat)
    requires Tiled(|data|, steps, cells) && j < cells && t < steps
    ensures t * cells + j < |data|
    ensures SeriesAt(data, steps, cells, j)[t] == data[t * cells + j]
    decreases steps
  {
    if t > 0 {
      SeriesAtIndex(data[cells..], steps - 1, cells, j, t - 1);
      assert t * cells == (t - 1) * cells + cells;
      assert SeriesAt(data, steps, cells, j)[t] == SeriesAt(data[cells..], steps - 1, cells, j)[t - 1];
      assert data[cells..][(t - 1) * cells + j] == data[cells + (t - 1) * cells + j];
    }
  }

  /** Every value of a cell's time series is a value of the field. */
  lemma {:induction false} SeriesAtValues(data: seq<real>, steps: nat, cells: nat, j: nat)
    requires Tiled(|data|, steps, cells) && j < cells
    ensures forall x :: x in SeriesAt(data, steps, cells, j) ==> x in data
    decreases steps
  {
    if steps > 0 {
      SeriesAtValues(data[cells..], steps - 1, cells, j);
      forall x | x in data[cells..] ensures x in data {
        var i :| 0 <= i < |data[cells..]| && data[cells..][i] == x;
        assert data[cells + i] == x;
      }
    }
  }

  /** The element-wise sum of all samples: one value per spatial cell. */
  function SampleSum(data: seq<real>, steps: nat, cells: nat): (total: seq<real>)
    requires Tiled(|data|, steps, cells)
    ensures |total| == cells
    decreases steps
  {
    if steps == 0 then Constant(cells, 0.0)
    else
      Plus(data[..cells], SampleSum(data[cells..], steps - 1, cells))
  }

  /** Summing the samples cell by cell sums each cell's time series. */
  lemma {:induction false} SampleSumAt(data: seq<real>, steps: nat, cells: nat, j: nat)
    requires Tiled(|data|, steps, cells) && j < cells
    ensures SampleSum(data, steps, cells)[j] == Sum(SeriesAt(data, steps, cells, j))
    decreases steps
  {
    if steps > 0 {
      SampleSumAt(data[cells..], steps - 1, cells, j);
      var series := SeriesAt(data, steps, cells, j);
      assert series[1..] == SeriesAt(data[cells..], steps - 1, cells, j);
    }
  }

  /**
   * The arithmetic mean over the time axis, every sample weighted equally:
   * the value of cell `j` is the mean of that cell's time series.
   */
  function TimeMean(data: seq<real>, steps: nat, cells: nat): (mean: seq<real>)
    requires steps > 0 && Tiled(|data|, steps, cells)
    ensures |mean| == cells
    ensures forall j :: 0 <= j < cells ==>
              mean[j] == Sum(SeriesAt(data, steps, cells, j)) / (steps as real)
  {
    var total := SampleSum(data, steps, cells);
    var mean := Divided(total, steps as real);
    forall j | 0 <= j < cells
      ensures mean[j] == Sum(SeriesAt(data, steps, cells, j)) / (steps as real)
    {
      SampleSumAt(data, steps, cells, j);
    }
    mean
  }

  /** `n` copies of `c` add up to `n * c`. */
  lemma {:induction false} SumConstant(n: nat, c: real)
    ensures Sum(Constant(n, c)) == (n as real) * c
  {
    if n > 0 {
      assert Constant(n, c)[1..] == Constant(n - 1, c);
      SumConstant(n - 1, c);
    }
  }

  /** `n` copies of `c`, summed and divided by `n`, give back `c`. */
  lemma MeanOfCopies(n: nat, c: real)
    requires n > 0
    ensures ((n as real) * c) / (n as real) == c
  {
  }

  /** A field that holds one value everywhere has that value as its time mean. */
  lemma TimeMeanOfConstant(data: seq<real>, steps: nat, cells: nat, c: real)
    requires steps > 0 && Tiled(|data|, steps, cells)
    requires forall i :: 0 <= i < |data| ==> data[i] == c
    ensures TimeMean(data, steps, cells) == Constant(cells, c)
  {
    var mean := TimeMean(data, steps, cells);
    forall j | 0 <= j < cells ensures mean[j] == c {
      var series := SeriesAt(data, steps, cells, j);
      SeriesAtValues(data, steps, cells, j);
      forall t | 0 <= t < steps ensures series[t] == c {
        assert series[t] in series;
      }
      assert series == Constant(steps, c);
      SumConstant(steps, c);
      MeanOfCopies(steps, c);
    }
  }
}
