/** Reference semantics of the windowed aggregates on exact reals. */
module Windows {
  import opened Base
  import opened Frames

  /** The rolling aggregates the indicators use. */
  datatype WindowAgg = Mean | Median | Std

  /** The engine aggregates whose numeric conventions stay abstract:
      `ewm` gives the exponentially weighted mean (for a span) at the last row
      of a series prefix, so it can only look at that row and earlier ones;
      `median` and `std` aggregate the non-null values of one window. */
  datatype Kernels = Kernels(
    ewm: (int, seq<Cell>) -> Cell,
    median: seq<real> -> real,
    std: seq<real> -> real)

  function Sum(xs: seq<real>): real {
    if |xs| == 0 then 0.0 else Sum(xs[..|xs| - 1]) + xs[|xs| - 1]
  }

  /** The non-null numbers of a run of cells, in order. */
  function Reals(cs: seq<Cell>): (xs: seq<real>)
    ensures |xs| <= |cs|
  {
    if |cs| == 0 then []
    else Reals(cs[..|cs| - 1]) + (if cs[|cs| - 1].Num? then [cs[|cs| - 1].x] else [])
  }

  /** The cells of a column of numbers without nulls. */
  function Nums(xs: seq<real>): (cs: seq<Cell>)
    ensures |cs| == |xs|
    ensures forall i :: 0 <= i < |xs| ==> cs[i] == Num(xs[i])
  {
    seq(|xs|, i requires 0 <= i < |xs| => Num(xs[i]))
  }

  /** The last `w` elements, or all of them when there are fewer. */
  function Trailing<T>(xs: seq<T>, w: nat): (t: seq<T>)
    ensures |t| == Min(w, |xs|)
  {
    xs[|xs| - Min(w, |xs|)..]
  }

  /** The arithmetic mean of a non-empty window. */
  function Average(xs: seq<real>): real
    requires |xs| >= 1
  {
    Sum(xs) / (|xs| as real)
  }

  function Aggregate(agg: WindowAgg, K: Kernels, vals: seq<real>): real
    requires |vals| >= 1
  {
    match agg
    case Mean => Average(vals)
    case Median => K.median(vals)
    case Std => K.std(vals)
  }

  /** A rolling aggregate at the last row of a series prefix: the trailing
      window of `w` rows (fewer at the start), null unless it holds at least
      `minPeriods` non-null values. */
  function RollCell(agg: WindowAgg, K: Kernels, w: nat, minPeriods: nat, prefix: seq<Cell>): (c: Cell)
    ensures c.Null? || c.Num?
    ensures c.Num? ==> |Reals(Trailing(prefix, w))| >= minPeriods
    ensures agg == Mean && c.Num? ==> c.x * (|Reals(Trailing(prefix, w))| as real) == Sum(Reals(Trailing(prefix, w)))
  {
    var vals := Reals(Trailing(prefix, w));
    if |vals| < minPeriods || |vals| == 0 then Null else Num(Aggregate(agg, K, vals))
  }

  lemma {:induction false} RealsOfNums(xs: seq<real>)
    ensures Reals(Nums(xs)) == xs
  {
    if |xs| > 0 {
      assert Nums(xs)[..|xs| - 1] == Nums(xs[..|xs| - 1]);
      RealsOfNums(xs[..|xs| - 1]);
    }
  }

  /** With the default minimum periods (the window size) and no nulls, row i
      of a rolling mean is missing for i < w-1 and is otherwise the mean of
      rows i-w+1..i. */
  lemma {:induction false} RollingMeanNoNulls(K: Kernels, xs: seq<real>, w: nat, i: nat)
    requires w >= 1 && i < |xs|
    ensures i + 1 < w ==> RollCell(Mean, K, w, w, Nums(xs)[..i + 1]) == Null
    ensures i + 1 >= w ==>
      RollCell(Mean, K, w, w, Nums(xs)[..i + 1]) == Num(Sum(xs[i + 1 - w..i + 1]) / (w as real))
  {
    var m := Min(w, i + 1);
    var vals := xs[i + 1 - m..i + 1];
    assert Reals(Trailing(Nums(xs)[..i + 1], w)) == vals by {
      assert Trailing(Nums(xs)[..i + 1], w) == Nums(vals);
      RealsOfNums(vals);
    }
    assert |vals| == m;
  }

  /** With the default minimum periods and no nulls, a full window at row
      i aggregates exactly rows i-w+1..i. */
  lemma {:induction false} RollingFullWindow(agg: WindowAgg, K: Kernels, xs: seq<real>, w: nat, i: nat)
    requires w >= 1 && w - 1 <= i < |xs|
    ensures RollCell(agg, K, w, w, Nums(xs)[..i + 1]) == Num(Aggregate(agg, K, xs[i + 1 - w..i + 1]))
  {
    var vals := xs[i + 1 - w..i + 1];
    assert Reals(Trailing(Nums(xs)[..i + 1], w)) == vals by {
      assert Trailing(Nums(xs)[..i + 1], w) == Nums(vals);
      RealsOfNums(vals);
    }
    assert |vals| == w;
  }

  /** The consecutive values a, a+1, ..., a+w-1. */
  function Ramp(a: int, w: nat): (xs: seq<real>)
    ensures |xs| == w
    ensures forall k :: 0 <= k < w ==> xs[k] == (a + k) as real
  {
    seq(w, k requires 0 <= k < w => (a + k) as real)
  }

  lemma {:induction false} SumRamp(a: int, w: nat)
    ensures Sum(Ramp(a, w)) == (w as real) * (a as real) + ((w * (w - 1)) as real) / 2.0
  {
    if w > 0 {
      assert Ramp(a, w)[..w - 1] == Ramp(a, w - 1);
      SumRamp(a, w - 1);
      assert (w * (w - 1)) == ((w - 1) * (w - 2)) + 2 * (w - 1);
    }
  }

  /** On a series whose row i holds i, the rolling mean at row i >= w-1 is
      i - (w-1)/2: the window is centred on its middle row. */
  lemma {:induction false} RollingMeanOfIndexSeries(K: Kernels, n: nat, w: nat, i: nat)
    requires w >= 1 && w - 1 <= i < n
    ensures RollCell(Mean, K, w, w, Nums(Ramp(0, n))[..i + 1]) == Num((i as real) - ((w - 1) as real) / 2.0)
  {
    var a := i + 1 - w;
    var total := Sum(Ramp(0, n)[a..i + 1]);
    assert RollCell(Mean, K, w, w, Nums(Ramp(0, n))[..i + 1]) == Num(total / (w as real)) by {
      RollingMeanNoNulls(K, Ramp(0, n), w, i);
    }
    assert total == (w as real) * (a as real) + ((w * (w - 1)) as real) / 2.0 by {
      RampSlice(n, a, w);
      SumRamp(a, w);
    }
    MeanOfRampSum(i, w, a, total);
  }

  lemma {:induction false} RampSlice(n: nat, a: nat, w: nat)
    requires a + w <= n
    ensures Ramp(0, n)[a..a + w] == Ramp(a, w)
  {
    forall k | 0 <= k < w ensures Ramp(0, n)[a..a + w][k] == Ramp(a, w)[k] {
      assert Ramp(0, n)[a..a + w][k] == Ramp(0, n)[a + k];
    }
  }

  /** The sum of the w integers ending at i, divided by w. */
  lemma {:induction false} MeanOfRampSum(i: nat, w: nat, a: int, total: real)
    requires 1 <= w && a == i + 1 - w
    requires total == (w as real) * (a as real) + ((w * (w - 1)) as real) / 2.0
    ensures total / (w as real) == (i as real) - ((w - 1) as real) / 2.0
  {
    var W := w as real;
    var A := a as real;
    assert ((w * (w - 1)) as real) == W * (W - 1.0);
    assert total == W * (A + (W - 1.0) / 2.0);
    assert A + (W - 1.0) / 2.0 == (i as real) - (W - 1.0) / 2.0;
  }

  predicate SortedReals(xs: seq<real>) {
    forall i, j :: 0 <= i < j < |xs| ==> xs[i] <= xs[j]
  }

  /** What a median must do: the middle element of a sorted window of odd size. */
  ghost predicate MedianPicksMiddle(K: Kernels) {
    forall xs :: SortedReals(xs) && |xs| % 2 == 1 ==> K.median(xs) == xs[|xs| / 2]
  }

  function SquaredDeviations(xs: seq<real>, m: real): real {
    if |xs| == 0 then 0.0
    else SquaredDeviations(xs[..|xs| - 1], m) + (xs[|xs| - 1] - m) * (xs[|xs| - 1] - m)
  }

  /** Sample variance (one delta degree of freedom), the square of the
      engine's rolling standard deviation. */
  function SampleVariance(xs: seq<real>): real
    requires |xs| >= 2
  {
    SquaredDeviations(xs, Average(xs)) / ((|xs| - 1) as real)
  }

  /** What a standard deviation must do: a non-negative square root of the
      sample variance. */
  ghost predicate StdIsSampleStd(K: Kernels) {
    forall xs :: |xs| >= 2 ==> K.std(xs) >= 0.0 && K.std(xs) * K.std(xs) == SampleVariance(xs)
  }
}
