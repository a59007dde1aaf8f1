// The test suite's fixture tables and what the indicator tests expect of
// them: 3000 rows per instrument, where row k holds open = close = volume =
// k, high = k + 1 and low = k - 1; the multi-company table stacks five such
// blocks and adds the company's ticker.
module Fixtures {
  import opened Base
  import opened Frames
  import opened Schemas
  import opened Naming
  import opened Windows
  import opened Exprs
  import opened Semantics
  import opened Plans
  import opened Indicators

  /** Rows per instrument. */
  const Days: nat := 3000

  /** `xs * n`: n copies of xs, one after another. */
  function Copies<T>(xs: seq<T>, n: nat): (ys: seq<T>)
    ensures |ys| == n * |xs|
  {
    if n == 0 then [] else Copies(xs, n - 1) + xs
  }

  /** A Float64 column of `copies` blocks, row k of a block holding k + a. */
  function Price(name: string, a: int, copies: nat): Column {
    Column(name, Float64, Nums(Copies(Ramp(a, Days), copies)))
  }

  /** `ohlcv_df`. */
  function OhlcvDf(): Frame {
    Frame(Days, [Price("open", 0, 1), Price("high", 1, 1), Price("low", -1, 1), Price("close", 0, 1), Price("volume", 0, 1)])
  }

  /** `ohlcv_df.drop("volume")`. */
  function OhlcDf(): Frame {
    Frame(Days, [Price("open", 0, 1), Price("high", 1, 1), Price("low", -1, 1), Price("close", 0, 1)])
  }

  /** n rows holding the text s. */
  function Block(s: string, n: nat): (cs: seq<Cell>)
    ensures |cs| == n
  {
    seq(n, _ => Str(s))
  }

  /** The `ticker` column: one block of rows per company. */
  function Tickers(): Column {
    Column("ticker", Utf8, Block("AAPL", Days) + Block("MSFT", Days) + Block("GOOG", Days) + Block("AMZN", Days) + Block("FB", Days))
  }

  /** `ohlcv_df_multiple_companies`. */
  function MultipleCompaniesDf(): Frame {
    Frame(5 * Days, [Price("open", 0, 5), Price("high", 1, 5), Price("low", -1, 5), Price("close", 0, 5), Price("volume", 0, 5), Tickers()])
  }

  // ---------------------------------------------------------------------
  // The tables themselves.
  // ---------------------------------------------------------------------

  /** The last five rows of every block are k + a for k = 2995..2999. */
  lemma {:induction false} LastFive(a: int, n: nat)
    requires n >= 1
    ensures Copies(Ramp(a, Days), n)[n * Days - 5..] == Ramp(a + Days - 5, 5)
  {
    var last := Ramp(a, Days);
    var ys := Copies(Ramp(a, Days), n);
    assert ys == Copies(last, n - 1) + last;
    assert |Copies(last, n - 1)| == (n - 1) * Days;
    var tail := ys[n * Days - 5..];
    forall t | 0 <= t < 5 ensures tail[t] == Ramp(a + Days - 5, 5)[t] {
      assert tail[t] == last[Days - 5 + t];
    }
  }

  /** The single-block table has one block as its column. */
  lemma {:induction false} OneCopy(xs: seq<real>)
    ensures Copies(xs, 1) == xs
  {
    assert Copies(xs, 0) == [];
  }

  /** A price column holds one number per row. */
  lemma {:induction false} PriceFits(name: string, a: int, n: nat)
    ensures |Price(name, a, n).cells| == n * Days
    ensures forall r :: 0 <= r < |Price(name, a, n).cells| ==> Fits(Float64, Price(name, a, n).cells[r])
  {
  }

  /** A column of the given dtype all of whose cells fit it. */
  predicate ColumnFits(c: Column, n: nat) {
    |c.cells| == n && forall r :: 0 <= r < |c.cells| ==> Fits(c.dtype, c.cells[r])
  }

  /** Columns that each fit, under distinct names, make a well-formed table. */
  lemma {:induction false} WfOfColumns(F: Frame)
    requires forall i :: 0 <= i < |F.columns| ==> ColumnFits(F.columns[i], F.height)
    requires Distinct(Names(F.columns))
    ensures Wf(F)
  {
  }

  /** `ohlcv_df` is well formed, with the OHLCV columns in order. */
  lemma {:induction false} OhlcvDfWellFormed()
    ensures Wf(OhlcvDf()) && Names(OhlcvDf().columns) == Ohlcv
  {
    var F := OhlcvDf();
    SourceColumnsDistinct();
    OneCopy(Ramp(0, Days));
    OneCopy(Ramp(1, Days));
    OneCopy(Ramp(-1, Days));
    assert Names(F.columns) == Ohlcv;
    forall i | 0 <= i < 5 ensures ColumnFits(F.columns[i], F.height) {
      PriceFits(F.columns[i].name, if i == 1 then 1 else if i == 2 then -1 else 0, 1);
    }
    WfOfColumns(F);
  }

  /** `ohlcv_df.drop("volume")` is well formed, with the OHLC columns in order. */
  lemma {:induction false} OhlcDfWellFormed()
    ensures Wf(OhlcDf()) && Names(OhlcDf().columns) == Ohlc
  {
    var F := OhlcDf();
    SourceColumnsDistinct();
    OneCopy(Ramp(0, Days));
    OneCopy(Ramp(1, Days));
    OneCopy(Ramp(-1, Days));
    assert Names(F.columns) == Ohlc;
    forall i | 0 <= i < 4 ensures ColumnFits(F.columns[i], F.height) {
      PriceFits(F.columns[i].name, if i == 1 then 1 else if i == 2 then -1 else 0, 1);
    }
    WfOfColumns(F);
  }

  /** The ticker column holds one text per row. */
  lemma {:induction false} TickersFit()
    ensures ColumnFits(Tickers(), 5 * Days)
  {
    var c := Tickers();
    forall r | 0 <= r < |c.cells| ensures c.cells[r].Str? {
    }
  }

  /** The multi-company table is well formed: OHLCV, then `ticker`. */
  lemma {:induction false} MultipleCompaniesDfWellFormed()
    ensures Wf(MultipleCompaniesDf()) && Names(MultipleCompaniesDf().columns) == Ohlcv + ["ticker"]
  {
    var F := MultipleCompaniesDf();
    SourceColumnsDistinct();
    assert Names(F.columns) == Ohlcv + ["ticker"];
    assert Distinct(Ohlcv + ["ticker"]) by {
      assert forall i :: 0 <= i < 5 ==> Ohlcv[i][0] != 't';
    }
    forall i | 0 <= i < 5 ensures ColumnFits(F.columns[i], F.height) {
      PriceFits(F.columns[i].name, if i == 1 then 1 else if i == 2 then -1 else 0, 5);
    }
    TickersFit();
    WfOfColumns(F);
  }

  // ---------------------------------------------------------------------
  // The last row of a five-row window.
  // ---------------------------------------------------------------------

  /** With no identifier and the default minimum periods, the last row of a
      five-row rolling window over a numeric column aggregates its last five
      values. */
  lemma {:induction false} RollingLastRow(F: Frame, agg: WindowAgg, cols: seq<string>, j: nat, xs: seq<real>, a: int, K: Kernels)
    requires Rectangular(F) && j < |cols| && F.height >= 5
    requires ColumnCells(F, cols[j]) == Nums(xs) && xs[F.height - 5..] == Ramp(a, 5)
    ensures IsWindowed(Rolling(agg, Cols(cols), 5, None))
    ensures WindowedValue(F, Rolling(agg, Cols(cols), 5, None), j, None, F.height - 1, K) == Num(Aggregate(agg, K, Ramp(a, 5)))
  {
    var i := F.height - 1;
    var e := Rolling(agg, Cols(cols), 5, None);
    assert IsWindowed(e);
    assert SeenRows(F, None, i) == AllRows(|Nums(xs)|);
    PickAllRows(Nums(xs));
    assert Nums(xs)[..i + 1] == Nums(xs);
    RollingFullWindow(agg, K, xs, 5, i);
    assert xs[i + 1 - 5..i + 1] == Ramp(a, 5);
  }

  /** The mean of a, a+1, ..., a+4 is a + 2. */
  lemma {:induction false} MeanOfFive(a: int, K: Kernels)
    ensures Aggregate(Mean, K, Ramp(a, 5)) == (a + 2) as real
  {
    SumRamp(a, 5);
  }

  /** So is their median, for a kernel that picks the middle of a sorted
      window. */
  lemma {:induction false} MedianOfFive(a: int, K: Kernels)
    requires MedianPicksMiddle(K)
    ensures Aggregate(Median, K, Ramp(a, 5)) == (a + 2) as real
  {
    assert SortedReals(Ramp(a, 5));
  }

  /** Their squared deviations from a + 2 add up to 4 + 1 + 0 + 1 + 4. */
  lemma {:induction false} SquaredDeviationsOfFive(a: int)
    ensures SquaredDeviations(Ramp(a, 5), (a + 2) as real) == 10.0
  {
    var m := (a + 2) as real;
    forall k: nat | 1 <= k <= 5 ensures Ramp(a, k)[..k - 1] == Ramp(a, k - 1) {
    }
    assert SquaredDeviations(Ramp(a, 0), m) == 0.0;
    assert SquaredDeviations(Ramp(a, 1), m) == 4.0;
    assert SquaredDeviations(Ramp(a, 2), m) == 5.0;
    assert SquaredDeviations(Ramp(a, 3), m) == 5.0;
    assert SquaredDeviations(Ramp(a, 4), m) == 6.0;
  }

  /** Their sample standard deviation is the non-negative square root of
      10 / 4, about 1.58113. */
  lemma {:induction false} StdOfFive(a: int, K: Kernels)
    requires StdIsSampleStd(K)
    ensures Aggregate(Std, K, Ramp(a, 5)) >= 0.0
    ensures Aggregate(Std, K, Ramp(a, 5)) * Aggregate(Std, K, Ramp(a, 5)) == 2.5
  {
    SumRamp(a, 5);
    assert Average(Ramp(a, 5)) == (a + 2) as real;
    SquaredDeviationsOfFive(a);
    assert SampleVariance(Ramp(a, 5)) == 2.5;
  }

  // ---------------------------------------------------------------------
  // What the indicators see of each table.
  // ---------------------------------------------------------------------

  /** Columns all read by the indicator leave nothing to pass through. */
  lemma {:induction false} NothingPassesThrough(cols: seq<Column>, ex: seq<string>)
    requires forall i :: 0 <= i < |cols| ==> cols[i].name in ex
    ensures Passthrough(cols, ex) == []
  {
    var P := Passthrough(cols, ex);
    if |P| > 0 {
      assert P[0] in P;
      PassthroughMembers(cols, ex, P[0]);
      assert false;
    }
  }

  /** The suffix of a period-5 indicator. */
  lemma {:induction false} FiveSuffix(tag: string)
    ensures PeriodSuffix(tag, 5) == "_" + tag + "_5"
  {
    assert NatToString(5) == "5";
  }

  /** A table whose first four columns are Float64 open, high, low, close. */
  predicate OhlcFirst(F: Frame) {
    && |F.columns| >= 4
    && F.columns[0].name == "open" && F.columns[0].dtype == Float64
    && F.columns[1].name == "high" && F.columns[1].dtype == Float64
    && F.columns[2].name == "low" && F.columns[2].dtype == Float64
    && F.columns[3].name == "close" && F.columns[3].dtype == Float64
  }

  /** Such a table passes the OHLC part of the schema check. */
  lemma {:induction false} OhlcFirstFloats(F: Frame)
    requires OhlcFirst(F)
    ensures HasOhlcFloats(SchemaOf(F))
  {
    var S := SchemaOf(F);
    assert S[0] == ("open", Float64) && S[1] == ("high", Float64);
    assert S[2] == ("low", Float64) && S[3] == ("close", Float64);
  }

  /** Without a volume column it validates to OHLC. */
  lemma {:induction false} ValidatesToOhlc(F: Frame)
    requires OhlcFirst(F) && "volume" !in Names(F.columns)
    ensures GetOhlcvColumns(F) == Ok(Ohlc)
  {
    OhlcFirstFloats(F);
  }

  /** With a Float64 volume column fifth it validates to OHLCV. */
  lemma {:induction false} ValidatesToOhlcv(F: Frame)
    requires OhlcFirst(F) && |F.columns| >= 5
    requires F.columns[4].name == "volume" && F.columns[4].dtype == Float64
    ensures GetOhlcvColumns(F) == Ok(Ohlcv)
  {
    OhlcFirstFloats(F);
    assert SchemaOf(F)[4] == ("volume", Float64);
    assert Names(F.columns)[4] == "volume";
  }

  /** A well-formed OHLC table: validates to OHLC, nothing passes through,
      and its close column is what it holds at index 3. */
  lemma {:induction false} OhlcTableSeen(F: Frame, xs: seq<real>)
    requires Wf(F) && OhlcFirst(F) && Names(F.columns) == Ohlc && F.columns[3].cells == Nums(xs)
    ensures GetOhlcvColumns(F) == Ok(Ohlc)
    ensures Passthrough(F.columns, Ohlc) == []
    ensures ColumnCells(F, "close") == Nums(xs)
  {
    ValidatesToOhlc(F);
    NothingPassesThrough(F.columns, Ohlc);
    NamedColumnAt(F, 3, "close");
  }

  /** A well-formed OHLCV table, possibly with a ticker after it: validates
      to OHLCV, and its volume column is what it holds at index 4. */
  lemma {:induction false} OhlcvTableSeen(F: Frame, xs: seq<real>)
    requires Wf(F) && OhlcFirst(F) && |F.columns| >= 5
    requires F.columns[4] == Column("volume", Float64, Nums(xs))
    ensures GetOhlcvColumns(F) == Ok(Ohlcv)
    ensures ColumnCells(F, "volume") == Nums(xs)
  {
    ValidatesToOhlcv(F);
    NamedColumnAt(F, 4, "volume");
  }

  /** A well-formed table of exactly the OHLCV columns: validates to OHLCV,
      nothing passes through, and its volume column is what it holds. */
  lemma {:induction false} OhlcvOnlySeen(F: Frame, xs: seq<real>)
    requires Wf(F) && OhlcFirst(F) && Names(F.columns) == Ohlcv
    requires F.columns[4] == Column("volume", Float64, Nums(xs))
    ensures GetOhlcvColumns(F) == Ok(Ohlcv)
    ensures Passthrough(F.columns, Ohlcv) == []
    ensures ColumnCells(F, "volume") == Nums(xs)
  {
    OhlcvTableSeen(F, xs);
    AllRead(F.columns, Ohlcv);
  }

  /** The table without volume validates to OHLC; nothing passes through;
      its close column ends 2995..2999. */
  lemma {:induction false} OhlcDfSeen()
    ensures Wf(OhlcDf()) && GetOhlcvColumns(OhlcDf()) == Ok(Ohlc)
    ensures Passthrough(OhlcDf().columns, Ohlc) == []
    ensures ColumnCells(OhlcDf(), "close") == Nums(Copies(Ramp(0, Days), 1))
    ensures Copies(Ramp(0, Days), 1)[Days - 5..] == Ramp(Days - 5, 5)
  {
    OhlcDfWellFormed();
    assert OhlcFirst(OhlcDf());
    OhlcTableSeen(OhlcDf(), Copies(Ramp(0, Days), 1));
    LastFive(0, 1);
  }

  /** The table with volume validates to OHLCV; nothing passes through; its
      volume column ends 2995..2999. */
  lemma {:induction false} OhlcvDfSeen()
    ensures Wf(OhlcvDf()) && GetOhlcvColumns(OhlcvDf()) == Ok(Ohlcv)
    ensures Passthrough(OhlcvDf().columns, Ohlcv) == []
    ensures ColumnCells(OhlcvDf(), "volume") == Nums(Copies(Ramp(0, Days), 1))
    ensures Copies(Ramp(0, Days), 1)[Days - 5..] == Ramp(Days - 5, 5)
  {
    OhlcvDfWellFormed();
    assert OhlcFirst(OhlcvDf());
    OhlcvOnlySeen(OhlcvDf(), Copies(Ramp(0, Days), 1));
    LastFive(0, 1);
  }

  /** The multi-company table validates to OHLCV; the ticker passes
      through; its volume column ends 2995..2999. */
  lemma {:induction false} MultipleCompaniesDfSeen()
    ensures Wf(MultipleCompaniesDf()) && GetOhlcvColumns(MultipleCompaniesDf()) == Ok(Ohlcv)
    ensures Passthrough(MultipleCompaniesDf().columns, Ohlcv) == [Tickers()]
    ensures ColumnCells(MultipleCompaniesDf(), "volume") == Nums(Copies(Ramp(0, Days), 5))
    ensures Copies(Ramp(0, Days), 5)[5 * Days - 5..] == Ramp(Days - 5, 5)
  {
    MultipleCompaniesDfWellFormed();
    assert OhlcFirst(MultipleCompaniesDf());
    OhlcvTableSeen(MultipleCompaniesDf(), Copies(Ramp(0, Days), 5));
    TickerPassesThrough(MultipleCompaniesDf().columns);
    LastFive(0, 5);
  }

  /** Columns named exactly `ex` leave nothing to pass through. */
  lemma {:induction false} AllRead(cols: seq<Column>, ex: seq<string>)
    requires Names(cols) == ex
    ensures Passthrough(cols, ex) == []
  {
    NothingPassesThrough(cols, ex);
  }

  /** OHLCV columns then a ticker: only the ticker passes through. */
  lemma {:induction false} TickerPassesThrough(cols: seq<Column>)
    requires |cols| == 6 && Names(cols) == Ohlcv + ["ticker"]
    ensures Passthrough(cols, Ohlcv) == [cols[5]]
  {
    var init := cols[..5];
    assert cols == init + [cols[5]];
    assert forall i :: 0 <= i < 5 ==> init[i].name == Ohlcv[i];
    NothingPassesThrough(init, Ohlcv);
    assert cols[5].name !in Ohlcv by {
      assert cols[5].name == "ticker";
      assert forall i :: 0 <= i < 5 ==> Ohlcv[i][0] != 't';
    }
  }

  // ---------------------------------------------------------------------
  // The last row of each indicator's output.
  // ---------------------------------------------------------------------

  /** `select(pl.last(...)).item()` on column k: its last cell, if it has
      one. */
  function LastOf(out: Frame, k: nat): Option<Cell> {
    if k < |out.columns| && |out.columns[k].cells| >= 1 then Some(out.columns[k].cells[|out.columns[k].cells| - 1])
    else None
  }

  /** Output columns holding a five-row rolling aggregate from column n on,
      with no identifier: the last row of output column n + j aggregates the
      last five values of the j-th read column. */
  lemma {:induction false} WindowedLastRow(F: Frame, out: Frame, n: nat, cols: seq<string>, agg: WindowAgg, j: nat, xs: seq<real>, a: int, K: Kernels)
    requires Rectangular(F) && F.height >= 5 && j < |cols|
    requires IsWindowed(Rolling(agg, Cols(cols), 5, None))
    requires WindowedOutputs(F, out, n, Rolling(agg, Cols(cols), 5, None), None, K)
    requires ColumnCells(F, cols[j]) == Nums(xs) && xs[F.height - 5..] == Ramp(a, 5)
    ensures LastOf(out, n + j) == Some(Num(Aggregate(agg, K, Ramp(a, 5))))
  {
    var e := Rolling(agg, Cols(cols), 5, None);
    var i := F.height - 1;
    assert e.input.names == cols;
    var v := WindowedValue(F, e, j, IdKeys(None), i, K);
    assert n + j < |out.columns| && |out.columns[n + j].cells| == F.height && out.columns[n + j].cells[i] == v;
    RollingLastRow(F, agg, cols, j, xs, a, K);
  }

  /** An `_apply_expr` indicator over a table whose columns it all reads:
      only the suffixed columns, the last row of column j aggregating
      2995..2999. */
  lemma {:induction false} AllReadIndicator(F: Frame, out: Frame, cols: seq<string>, agg: WindowAgg, sfx: string, j: nat, xs: seq<real>, K: Kernels)
    requires Rectangular(F) && F.height >= 5 && j < |cols| && IsWindowed(Rolling(agg, Cols(cols), 5, None))
    requires IndicatorOutputs(F, out, cols, Rolling(agg, Cols(cols), 5, None), None, sfx, K)
    requires Passthrough(F.columns, cols) == []
    requires ColumnCells(F, cols[j]) == Nums(xs) && xs[F.height - 5..] == Ramp(Days - 5, 5)
    ensures out.height == F.height && Names(out.columns) == SuffixedNames(cols, sfx)
    ensures LastOf(out, j) == Some(Num(Aggregate(agg, K, Ramp(Days - 5, 5))))
  {
    AllReadNames(F, out, cols, sfx);
    AllReadLast(F, out, cols, agg, sfx, j, xs, K);
  }

  lemma {:induction false} AllReadNames(F: Frame, out: Frame, cols: seq<string>, sfx: string)
    requires PassthroughThenSuffixed(F, out, cols, sfx) && Passthrough(F.columns, cols) == []
    ensures out.height == F.height && Names(out.columns) == SuffixedNames(cols, sfx)
  {
    assert Names(Passthrough(F.columns, cols)) == [];
  }

  lemma {:induction false} AllReadLast(F: Frame, out: Frame, cols: seq<string>, agg: WindowAgg, sfx: string, j: nat, xs: seq<real>, K: Kernels)
    requires Rectangular(F) && F.height >= 5 && j < |cols| && IsWindowed(Rolling(agg, Cols(cols), 5, None))
    requires WindowedOutputs(F, out, |Passthrough(F.columns, cols)|, Rolling(agg, Cols(cols), 5, None), None, K)
    requires Passthrough(F.columns, cols) == []
    requires ColumnCells(F, cols[j]) == Nums(xs) && xs[F.height - 5..] == Ramp(Days - 5, 5)
    ensures LastOf(out, j) == Some(Num(Aggregate(agg, K, Ramp(Days - 5, 5))))
  {
    var n := |Passthrough(F.columns, cols)|;
    WindowedLastRow(F, out, n, cols, agg, j, xs, Days - 5, K);
  }

  /** An `_apply_expr` indicator over a table shaped like the multi-company
      one, OHLCV then a ticker: the ticker, then the suffixed columns, the
      last row of the volume one aggregating 2995..2999. */
  lemma {:induction false} TickerThenIndicator(F: Frame, out: Frame, agg: WindowAgg, sfx: string, xs: seq<real>, K: Kernels)
    requires Rectangular(F) && F.height >= 5 && IsWindowed(Rolling(agg, Cols(Ohlcv), 5, None))
    requires IndicatorOutputs(F, out, Ohlcv, Rolling(agg, Cols(Ohlcv), 5, None), None, sfx, K)
    requires |Passthrough(F.columns, Ohlcv)| == 1 && Passthrough(F.columns, Ohlcv)[0].name == "ticker"
    requires ColumnCells(F, "volume") == Nums(xs) && xs[F.height - 5..] == Ramp(Days - 5, 5)
    ensures out.height == F.height && Names(out.columns) == ["ticker"] + SuffixedNames(Ohlcv, sfx)
    ensures LastOf(out, 5) == Some(Num(Aggregate(agg, K, Ramp(Days - 5, 5))))
  {
    assert Names(Passthrough(F.columns, Ohlcv)) == ["ticker"];
    assert Ohlcv[4] == "volume";
    WindowedLastRow(F, out, 1, Ohlcv, agg, 4, xs, Days - 5, K);
  }

  /** No OHLCV name starts with `t`. */
  lemma {:induction false} OhlcvInitials()
    ensures forall i :: 0 <= i < |Ohlcv| ==> |Ohlcv[i]| > 0 && Ohlcv[i][0] != 't'
  {
    assert Ohlcv == ["open", "high", "low", "close", "volume"];
  }

  /** With only the ticker passing through, no name starting with another
      letter clashes. */
  lemma {:induction false} TickerNoClash(F: Frame, cols: seq<string>, sfx: string)
    requires |Passthrough(F.columns, cols)| == 1 && Passthrough(F.columns, cols)[0].name == "ticker"
    requires forall i :: 0 <= i < |cols| ==> |cols[i]| > 0 && cols[i][0] != 't'
    ensures NoClash(F, cols, sfx)
  {
    var P := Passthrough(F.columns, cols);
    forall i | 0 <= i < |cols| ensures cols[i] + sfx !in Names(P) {
      assert (cols[i] + sfx)[0] == cols[i][0];
    }
  }

  /** A cell holding the non-negative square root of v. */
  predicate RootOf(c: Option<Cell>, v: real) {
    c.Some? && c.value.Num? && c.value.x >= 0.0 && c.value.x * c.value.x == v
  }

  // ---------------------------------------------------------------------
  // The output names.
  // ---------------------------------------------------------------------

  /** The names the tests list, for a tag spelled out. */
  lemma {:induction false} Spelled(tag: string, sfx: string, o: string, h: string, l: string, c: string, v: string)
    requires sfx == "_" + tag + "_5"
    requires o == "open" + sfx && h == "high" + sfx && l == "low" + sfx && c == "close" + sfx && v == "volume" + sfx
    ensures SuffixedNames(Ohlc, PeriodSuffix(tag, 5)) == [o, h, l, c]
    ensures SuffixedNames(Ohlcv, PeriodSuffix(tag, 5)) == [o, h, l, c, v]
    ensures ["ticker"] + SuffixedNames(Ohlcv, PeriodSuffix(tag, 5)) == ["ticker", o, h, l, c, v]
  {
    FiveSuffix(tag);
    assert Ohlcv == ["open", "high", "low", "close", "volume"];
  }

  lemma {:induction false} SmaNames()
    ensures SuffixedNames(Ohlc, PeriodSuffix(SmaTag, 5)) == ["open_sma_5", "high_sma_5", "low_sma_5", "close_sma_5"]
    ensures SuffixedNames(Ohlcv, PeriodSuffix(SmaTag, 5)) == ["open_sma_5", "high_sma_5", "low_sma_5", "close_sma_5", "volume_sma_5"]
    ensures ["ticker"] + SuffixedNames(Ohlcv, PeriodSuffix(SmaTag, 5))
      == ["ticker", "open_sma_5", "high_sma_5", "low_sma_5", "close_sma_5", "volume_sma_5"]
  {
    Spelled(SmaTag, "_sma_5", "open_sma_5", "high_sma_5", "low_sma_5", "close_sma_5", "volume_sma_5");
  }

  lemma {:induction false} SmmNames()
    ensures SuffixedNames(Ohlc, PeriodSuffix(SmmTag, 5)) == ["open_smm_5", "high_smm_5", "low_smm_5", "close_smm_5"]
    ensures SuffixedNames(Ohlcv, PeriodSuffix(SmmTag, 5)) == ["open_smm_5", "high_smm_5", "low_smm_5", "close_smm_5", "volume_smm_5"]
    ensures ["ticker"] + SuffixedNames(Ohlcv, PeriodSuffix(SmmTag, 5))
      == ["ticker", "open_smm_5", "high_smm_5", "low_smm_5", "close_smm_5", "volume_smm_5"]
  {
    Spelled(SmmTag, "_smm_5", "open_smm_5", "high_smm_5", "low_smm_5", "close_smm_5", "volume_smm_5");
  }

  lemma {:induction false} MsdNames()
    ensures SuffixedNames(Ohlc, PeriodSuffix(MsdTag, 5)) == ["open_msd_5", "high_msd_5", "low_msd_5", "close_msd_5"]
    ensures SuffixedNames(Ohlcv, PeriodSuffix(MsdTag, 5)) == ["open_msd_5", "high_msd_5", "low_msd_5", "close_msd_5", "volume_msd_5"]
    ensures ["ticker"] + SuffixedNames(Ohlcv, PeriodSuffix(MsdTag, 5))
      == ["ticker", "open_msd_5", "high_msd_5", "low_msd_5", "close_msd_5", "volume_msd_5"]
  {
    Spelled(MsdTag, "_msd_5", "open_msd_5", "high_msd_5", "low_msd_5", "close_msd_5", "volume_msd_5");
  }

  // ---------------------------------------------------------------------
  // Each indicator over tables of the fixtures' shapes.
  // ---------------------------------------------------------------------

  /** The last five-row mean over 2995..2999. */
  lemma {:induction false} LastMean(c: Option<Cell>, K: Kernels)
    requires c == Some(Num(Aggregate(Mean, K, Ramp(Days - 5, 5))))
    ensures c == Some(Num(2997.0))
  {
    MeanOfFive(Days - 5, K);
  }

  /** The last five-row median over 2995..2999. */
  lemma {:induction false} LastMedian(c: Option<Cell>, K: Kernels)
    requires MedianPicksMiddle(K) && c == Some(Num(Aggregate(Median, K, Ramp(Days - 5, 5))))
    ensures c == Some(Num(2997.0))
  {
    MedianOfFive(Days - 5, K);
  }

  /** The last five-row standard deviation over 2995..2999. */
  lemma {:induction false} LastStd(c: Option<Cell>, K: Kernels)
    requires StdIsSampleStd(K) && c == Some(Num(Aggregate(Std, K, Ramp(Days - 5, 5))))
    ensures RootOf(c, 2.5)
  {
    StdOfFive(Days - 5, K);
  }

  /** Means selected from column 0 on: the last row of column j is 2997. */
  lemma {:induction false} SelectedLast(F: Frame, out: Frame, cols: seq<string>, j: nat, xs: seq<real>, K: Kernels)
    requires Rectangular(F) && F.height >= 5 && j < |cols| && IsWindowed(Rolling(Mean, Cols(cols), 5, None))
    requires WindowedOutputs(F, out, 0, Rolling(Mean, Cols(cols), 5, None), None, K)
    requires ColumnCells(F, cols[j]) == Nums(xs) && xs[F.height - 5..] == Ramp(Days - 5, 5)
    ensures LastOf(out, j) == Some(Num(2997.0))
  {
    WindowedLastRow(F, out, 0, cols, Mean, j, xs, Days - 5, K);
    assert 0 + j == j;
    LastMean(LastOf(out, j), K);
  }

  /** `simple_moving_average(F, period=5)` as written, over a table whose
      read column j ends 2995..2999. */
  lemma {:induction false} SmaOver(F: Frame, cols: seq<string>, j: nat, xs: seq<real>, K: Kernels)
    requires Rectangular(F) && Distinct(Names(F.columns)) && F.height >= 5
    requires GetOhlcvColumns(F) == Ok(cols) && j < |cols|
    requires ColumnCells(F, cols[j]) == Nums(xs) && xs[F.height - 5..] == Ramp(Days - 5, 5)
    ensures var r := SimpleMovingAverage(F, 5, None, K);
      && r.Ok? && r.value.height == F.height
      && Names(r.value.columns) == SuffixedNames(cols, PeriodSuffix(SmaTag, 5))
      && LastOf(r.value, j) == Some(Num(2997.0))
  {
    var e := Rolling(Mean, Cols(cols), 5, None);
    var r := SimpleMovingAverage(F, 5, None, K);
    assert r.Ok? && WindowedOutputs(F, r.value, 0, e, None, K);
    SelectedLast(F, r.value, cols, j, xs, K);
  }

  /** `simple_moving_average(F, period=5)` as documented, over a table
      shaped like the multi-company one. */
  lemma {:induction false} SmaWithPassthroughOverTickers(F: Frame, xs: seq<real>, K: Kernels)
    requires Rectangular(F) && Distinct(Names(F.columns)) && F.height >= 5
    requires GetOhlcvColumns(F) == Ok(Ohlcv)
    requires |Passthrough(F.columns, Ohlcv)| == 1 && Passthrough(F.columns, Ohlcv)[0].name == "ticker"
    requires ColumnCells(F, "volume") == Nums(xs) && xs[F.height - 5..] == Ramp(Days - 5, 5)
    ensures var r := SimpleMovingAverageWithPassthrough(F, 5, None, K);
      && r.Ok? && r.value.height == F.height
      && Names(r.value.columns) == ["ticker"] + SuffixedNames(Ohlcv, PeriodSuffix(SmaTag, 5))
      && LastOf(r.value, 5) == Some(Num(2997.0))
  {
    var sfx := PeriodSuffix(SmaTag, 5);
    OhlcvInitials();
    TickerNoClash(F, Ohlcv, sfx);
    var e := Rolling(Mean, Cols(Ohlcv), 5, None);
    var r := SimpleMovingAverageWithPassthrough(F, 5, None, K);
    assert r.Ok? && IndicatorOutputs(F, r.value, Ohlcv, e, None, sfx, K);
    TickerThenIndicator(F, r.value, Mean, sfx, xs, K);
    LastMean(LastOf(r.value, 5), K);
  }

  /** `simple_moving_median(F, period=5)` over a table whose columns it all
      reads. */
  lemma {:induction false} SmmOverAllRead(F: Frame, cols: seq<string>, j: nat, xs: seq<real>, K: Kernels)
    requires MedianPicksMiddle(K) && Rectangular(F) && Distinct(Names(F.columns)) && F.height >= 5
    requires GetOhlcvColumns(F) == Ok(cols) && j < |cols| && Passthrough(F.columns, cols) == []
    requires ColumnCells(F, cols[j]) == Nums(xs) && xs[F.height - 5..] == Ramp(Days - 5, 5)
    ensures var r := SimpleMovingMedian(F, 5, None, K);
      && r.Ok? && r.value.height == F.height
      && Names(r.value.columns) == SuffixedNames(cols, PeriodSuffix(SmmTag, 5))
      && LastOf(r.value, j) == Some(Num(2997.0))
  {
    var sfx := PeriodSuffix(SmmTag, 5);
    assert NoClash(F, cols, sfx) by {
      assert Names(Passthrough(F.columns, cols)) == [];
    }
    var e := Rolling(Median, Cols(cols), 5, None);
    var r := SimpleMovingMedian(F, 5, None, K);
    assert r.Ok? && IndicatorOutputs(F, r.value, cols, e, None, sfx, K);
    AllReadIndicator(F, r.value, cols, Median, sfx, j, xs, K);
    LastMedian(LastOf(r.value, j), K);
  }

  /** `simple_moving_median(F, period=5)` over a table shaped like the
      multi-company one. */
  lemma {:induction false} SmmOverTickers(F: Frame, xs: seq<real>, K: Kernels)
    requires MedianPicksMiddle(K) && Rectangular(F) && Distinct(Names(F.columns)) && F.height >= 5
    requires GetOhlcvColumns(F) == Ok(Ohlcv)
    requires |Passthrough(F.columns, Ohlcv)| == 1 && Passthrough(F.columns, Ohlcv)[0].name == "ticker"
    requires ColumnCells(F, "volume") == Nums(xs) && xs[F.height - 5..] == Ramp(Days - 5, 5)
    ensures var r := SimpleMovingMedian(F, 5, None, K);
      && r.Ok? && r.value.height == F.height
      && Names(r.value.columns) == ["ticker"] + SuffixedNames(Ohlcv, PeriodSuffix(SmmTag, 5))
      && LastOf(r.value, 5) == Some(Num(2997.0))
  {
    var sfx := PeriodSuffix(SmmTag, 5);
    OhlcvInitials();
    TickerNoClash(F, Ohlcv, sfx);
    var e := Rolling(Median, Cols(Ohlcv), 5, None);
    var r := SimpleMovingMedian(F, 5, None, K);
    assert r.Ok? && IndicatorOutputs(F, r.value, Ohlcv, e, None, sfx, K);
    TickerThenIndicator(F, r.value, Median, sfx, xs, K);
    LastMedian(LastOf(r.value, 5), K);
  }

  /** `moving_std(F, period=5)` over a table whose columns it all reads. */
  lemma {:induction false} MsdOverAllRead(F: Frame, cols: seq<string>, j: nat, xs: seq<real>, K: Kernels)
    requires StdIsSampleStd(K) && Rectangular(F) && Distinct(Names(F.columns)) && F.height >= 5
    requires GetOhlcvColumns(F) == Ok(cols) && j < |cols| && Passthrough(F.columns, cols) == []
    requires ColumnCells(F, cols[j]) == Nums(xs) && xs[F.height - 5..] == Ramp(Days - 5, 5)
    ensures var r := MovingStd(F, 5, None, K);
      && r.Ok? && r.value.height == F.height
      && Names(r.value.columns) == SuffixedNames(cols, PeriodSuffix(MsdTag, 5))
      && RootOf(LastOf(r.value, j), 2.5)
  {
    var sfx := PeriodSuffix(MsdTag, 5);
    assert NoClash(F, cols, sfx) by {
      assert Names(Passthrough(F.columns, cols)) == [];
    }
    var e := Rolling(Std, Cols(cols), 5, None);
    var r := MovingStd(F, 5, None, K);
    assert r.Ok? && IndicatorOutputs(F, r.value, cols, e, None, sfx, K);
    AllReadIndicator(F, r.value, cols, Std, sfx, j, xs, K);
    LastStd(LastOf(r.value, j), K);
  }

  /** `moving_std(F, period=5)` over a table shaped like the multi-company
      one. */
  lemma {:induction false} MsdOverTickers(F: Frame, xs: seq<real>, K: Kernels)
    requires StdIsSampleStd(K) && Rectangular(F) && Distinct(Names(F.columns)) && F.height >= 5
    requires GetOhlcvColumns(F) == Ok(Ohlcv)
    requires |Passthrough(F.columns, Ohlcv)| == 1 && Passthrough(F.columns, Ohlcv)[0].name == "ticker"
    requires ColumnCells(F, "volume") == Nums(xs) && xs[F.height - 5..] == Ramp(Days - 5, 5)
    ensures var r := MovingStd(F, 5, None, K);
      && r.Ok? && r.value.height == F.height
      && Names(r.value.columns) == ["ticker"] + SuffixedNames(Ohlcv, PeriodSuffix(MsdTag, 5))
      && RootOf(LastOf(r.value, 5), 2.5)
  {
    var sfx := PeriodSuffix(MsdTag, 5);
    OhlcvInitials();
    TickerNoClash(F, Ohlcv, sfx);
    var e := Rolling(Std, Cols(Ohlcv), 5, None);
    var r := MovingStd(F, 5, None, K);
    assert r.Ok? && IndicatorOutputs(F, r.value, Ohlcv, e, None, sfx, K);
    TickerThenIndicator(F, r.value, Std, sfx, xs, K);
    LastStd(LastOf(r.value, 5), K);
  }

  // ---------------------------------------------------------------------
  // The repository's indicator tests, on the fixture tables.
  // ---------------------------------------------------------------------

  /** `simple_moving_average` over the table without volume: 3000 rows, four suffixed
      columns in order, and the last `close` window gives 2997. */
  lemma {:induction false} SmaNoVolume(K: Kernels)
    ensures Wf(OhlcDf())
    ensures var r := SimpleMovingAverage(OhlcDf(), 5, None, K);
      && r.Ok? && r.value.height == 3000
      && Names(r.value.columns) == ["open_sma_5", "high_sma_5", "low_sma_5", "close_sma_5"]
      && LastOf(r.value, 3) == Some(Num(2997.0))
  {
    OhlcDfSeen();
    assert Ohlc[3] == "close";
    SmaOver(OhlcDf(), Ohlc, 3, Copies(Ramp(0, Days), 1), K);
    SmaNames();
  }

  /** `simple_moving_average` over the table with volume: 3000 rows, five suffixed
      columns in order, and the last `volume` window gives 2997. */
  lemma {:induction false} SmaVolume(K: Kernels)
    ensures Wf(OhlcvDf())
    ensures var r := SimpleMovingAverage(OhlcvDf(), 5, None, K);
      && r.Ok? && r.value.height == 3000
      && Names(r.value.columns) == ["open_sma_5", "high_sma_5", "low_sma_5", "close_sma_5", "volume_sma_5"]
      && LastOf(r.value, 4) == Some(Num(2997.0))
  {
    OhlcvDfSeen();
    assert Ohlcv[4] == "volume";
    SmaOver(OhlcvDf(), Ohlcv, 4, Copies(Ramp(0, Days), 1), K);
    SmaNames();
  }

  /** `simple_moving_average` as written over the multi-company table:
      the `ticker` column is dropped, so only the five suffixed columns
      come out; the last `volume` window still gives 2997. */
  lemma {:induction false} SmaMultipleCompaniesAsWritten(K: Kernels)
    ensures Wf(MultipleCompaniesDf())
    ensures var r := SimpleMovingAverage(MultipleCompaniesDf(), 5, None, K);
      && r.Ok? && r.value.height == 15000
      && Names(r.value.columns) == ["open_sma_5", "high_sma_5", "low_sma_5", "close_sma_5", "volume_sma_5"]
      && LastOf(r.value, 4) == Some(Num(2997.0))
  {
    MultipleCompaniesDfSeen();
    assert Ohlcv[4] == "volume";
    SmaOver(MultipleCompaniesDf(), Ohlcv, 4, Copies(Ramp(0, Days), 5), K);
    SmaNames();
  }

  /** `simple_moving_average` as documented over the multi-company table:
      15000 rows, `ticker` first, then the five suffixed columns, and the
      last `volume` window gives 2997. */
  lemma {:induction false} SmaMultipleCompanies(K: Kernels)
    ensures Wf(MultipleCompaniesDf())
    ensures var r := SimpleMovingAverageWithPassthrough(MultipleCompaniesDf(), 5, None, K);
      && r.Ok? && r.value.height == 15000
      && Names(r.value.columns) == ["ticker", "open_sma_5", "high_sma_5", "low_sma_5", "close_sma_5", "volume_sma_5"]
      && LastOf(r.value, 5) == Some(Num(2997.0))
  {
    MultipleCompaniesDfSeen();
    SmaWithPassthroughOverTickers(MultipleCompaniesDf(), Copies(Ramp(0, Days), 5), K);
    SmaNames();
  }

  /** `simple_moving_median` over the table without volume: 3000 rows, four suffixed
      columns in order, and the last `close` window gives 2997. */
  lemma {:induction false} SmmNoVolume(K: Kernels)
    requires MedianPicksMiddle(K)
    ensures Wf(OhlcDf())
    ensures var r := SimpleMovingMedian(OhlcDf(), 5, None, K);
      && r.Ok? && r.value.height == 3000
      && Names(r.value.columns) == ["open_smm_5", "high_smm_5", "low_smm_5", "close_smm_5"]
      && LastOf(r.value, 3) == Some(Num(2997.0))
  {
    OhlcDfSeen();
    assert Ohlc[3] == "close";
    SmmOverAllRead(OhlcDf(), Ohlc, 3, Copies(Ramp(0, Days), 1), K);
    SmmNames();
  }

  /** `simple_moving_median` over the table with volume: 3000 rows, five suffixed
      columns in order, and the last `volume` window gives 2997. */
  lemma {:induction false} SmmVolume(K: Kernels)
    requires MedianPicksMiddle(K)
    ensures Wf(OhlcvDf())
    ensures var r := SimpleMovingMedian(OhlcvDf(), 5, None, K);
      && r.Ok? && r.value.height == 3000
      && Names(r.value.columns) == ["open_smm_5", "high_smm_5", "low_smm_5", "close_smm_5", "volume_smm_5"]
      && LastOf(r.value, 4) == Some(Num(2997.0))
  {
    OhlcvDfSeen();
    assert Ohlcv[4] == "volume";
    SmmOverAllRead(OhlcvDf(), Ohlcv, 4, Copies(Ramp(0, Days), 1), K);
    SmmNames();
  }

  /** `simple_moving_median` over the multi-company table: 15000 rows, `ticker` first,
      then the five suffixed columns, and the last `volume` window gives
      2997. */
  lemma {:induction false} SmmMultipleCompanies(K: Kernels)
    requires MedianPicksMiddle(K)
    ensures Wf(MultipleCompaniesDf())
    ensures var r := SimpleMovingMedian(MultipleCompaniesDf(), 5, None, K);
      && r.Ok? && r.value.height == 15000
      && Names(r.value.columns) == ["ticker", "open_smm_5", "high_smm_5", "low_smm_5", "close_smm_5", "volume_smm_5"]
      && LastOf(r.value, 5) == Some(Num(2997.0))
  {
    MultipleCompaniesDfSeen();
    SmmOverTickers(MultipleCompaniesDf(), Copies(Ramp(0, Days), 5), K);
    SmmNames();
  }

  /** `moving_std` over the table without volume: 3000 rows, four suffixed
      columns in order, and the last `close` window gives a root of 2.5. */
  lemma {:induction false} MsdNoVolume(K: Kernels)
    requires StdIsSampleStd(K)
    ensures Wf(OhlcDf())
    ensures var r := MovingStd(OhlcDf(), 5, None, K);
      && r.Ok? && r.value.height == 3000
      && Names(r.value.columns) == ["open_msd_5", "high_msd_5", "low_msd_5", "close_msd_5"]
      && RootOf(LastOf(r.value, 3), 2.5)
  {
    OhlcDfSeen();
    assert Ohlc[3] == "close";
    MsdOverAllRead(OhlcDf(), Ohlc, 3, Copies(Ramp(0, Days), 1), K);
    MsdNames();
  }

  /** `moving_std` over the table with volume: 3000 rows, five suffixed
      columns in order, and the last `volume` window gives a root of 2.5. */
  lemma {:induction false} MsdVolume(K: Kernels)
    requires StdIsSampleStd(K)
    ensures Wf(OhlcvDf())
    ensures var r := MovingStd(OhlcvDf(), 5, None, K);
      && r.Ok? && r.value.height == 3000
      && Names(r.value.columns) == ["open_msd_5", "high_msd_5", "low_msd_5", "close_msd_5", "volume_msd_5"]
      && RootOf(LastOf(r.value, 4), 2.5)
  {
    OhlcvDfSeen();
    assert Ohlcv[4] == "volume";
    MsdOverAllRead(OhlcvDf(), Ohlcv, 4, Copies(Ramp(0, Days), 1), K);
    MsdNames();
  }

  /** `moving_std` over the multi-company table: 15000 rows, `ticker` first,
      then the five suffixed columns, and the last `volume` window gives
      a root of 2.5. */
  lemma {:induction false} MsdMultipleCompanies(K: Kernels)
    requires StdIsSampleStd(K)
    ensures Wf(MultipleCompaniesDf())
    ensures var r := MovingStd(MultipleCompaniesDf(), 5, None, K);
      && r.Ok? && r.value.height == 15000
      && Names(r.value.columns) == ["ticker", "open_msd_5", "high_msd_5", "low_msd_5", "close_msd_5", "volume_msd_5"]
      && RootOf(LastOf(r.value, 5), 2.5)
  {
    MultipleCompaniesDfSeen();
    MsdOverTickers(MultipleCompaniesDf(), Copies(Ramp(0, Days), 5), K);
    MsdNames();
  }
}
