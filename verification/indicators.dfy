/** The indicator functions: each picks the columns it reads, builds a
    column plan, and runs it with `select` or `with_columns`. Schema errors
    come only from the validator; every other failure is the engine's. */
module Indicators {
  import opened Base
  import opened Frames
  import opened Schemas
  import opened Naming
  import opened Windows
  import opened Exprs
  import opened Plans
  import opened Semantics

  const Ohlc: seq<string> := ["open", "high", "low", "close"]
  const Ohlcv: seq<string> := Ohlc + ["volume"]

  lemma {:induction false} SourceColumnsDistinct()
    ensures Distinct(Ohlc) && Distinct(Ohlcv)
  {
    assert Ohlcv == ["open", "high", "low", "close", "volume"];
    assert Ohlcv[0][0] == 'o' && Ohlcv[1][0] == 'h' && Ohlcv[2][0] == 'l' && Ohlcv[3][0] == 'c' && Ohlcv[4][0] == 'v';
    assert Ohlc == Ohlcv[..4];
  }

  // ---------------------------------------------------------------------
  // Source columns.
  // ---------------------------------------------------------------------

  /** Over a schema with unique names, a validated schema has every column
      it requires, numeric. */
  lemma {:induction false} ValidatedColumnsNumeric(S: seq<Field>, includeVolume: bool)
    requires Distinct(FieldNames(S)) && ValidateIndicatorSchema(S, includeVolume) == Pass
    ensures NumericColumns(S, if includeVolume then Ohlcv else Ohlc)
  {
    var cols := if includeVolume then Ohlcv else Ohlc;
    forall i | 0 <= i < |cols| ensures IndexOf(S, cols[i]) < |S| && IsNumeric(S[IndexOf(S, cols[i])].1) {
      if i < 4 {
        PairInDistinct(S, (cols[i], Float64));
      } else if ("volume", Float64) in S {
        PairInDistinct(S, ("volume", Float64));
      } else {
        PairInDistinct(S, ("volume", Int64));
      }
    }
  }

  /** `_get_ohlcv_columns`: OHLCV when the table has a `volume` column, OHLC
      otherwise, once the schema passes the matching validation. */
  function GetOhlcvColumns(F: Frame): (r: Result<seq<string>>)
    ensures r.Err? <==> ValidateIndicatorSchema(SchemaOf(F), "volume" in Names(F.columns)).Fail?
    ensures r.Err? ==> r.error == SchemaError
    ensures r.Ok? ==> r.value == if "volume" in Names(F.columns) then Ohlcv else Ohlc
    ensures r.Ok? && Distinct(Names(F.columns)) ==> NumericColumns(SchemaOf(F), r.value)
  {
    var includeVolume := "volume" in Names(F.columns);
    var columns := if includeVolume then Ohlcv else Ohlc;
    if ValidateIndicatorSchema(SchemaOf(F), includeVolume).Fail? then Err(SchemaError)
    else
      assert Distinct(Names(F.columns)) ==> NumericColumns(SchemaOf(F), columns) by {
        if Distinct(Names(F.columns)) {
          ValidatedColumnsNumeric(SchemaOf(F), includeVolume);
        }
      }
      Ok(columns)
  }

  /** A `volume` column of a non-numeric dtype fails validation: there is no
      fall-back to the OHLC columns, however valid they are. */
  lemma {:induction false} VolumeOfWrongDtypeRejected(F: Frame)
    requires Distinct(Names(F.columns))
    requires exists k :: 0 <= k < |F.columns| && F.columns[k].name == "volume" && F.columns[k].dtype == Utf8
    ensures GetOhlcvColumns(F) == Err(SchemaError)
  {
    var S := SchemaOf(F);
    var k :| 0 <= k < |F.columns| && F.columns[k].name == "volume" && F.columns[k].dtype == Utf8;
    assert Names(F.columns)[k] == "volume";
    forall i | 0 <= i < |S| && S[i].0 == "volume" ensures S[i].1 != Float64 && S[i].1 != Int64 {
      assert Names(F.columns)[i] == Names(F.columns)[k];
    }
    VolumeMismatchRejected(S);
  }

  // ---------------------------------------------------------------------
  // Grouping by the identifier column and `_apply_expr`.
  // ---------------------------------------------------------------------

  /** The key list of the identifier column, when one is given. */
  function IdKeys(id: Option<string>): Option<seq<string>> {
    if id.Some? then Some([id.value]) else None
  }

  /** The identifier column, when given, is a column of the table. */
  predicate IdPresent(F: Frame, id: Option<string>) {
    id.Some? ==> id.value in Names(F.columns)
  }

  lemma {:induction false} IdKeysPresent(F: Frame, id: Option<string>)
    ensures KeysPresent(SchemaOf(F), IdKeys(id)) <==> IdPresent(F, id)
  {
    if id.Some? {
      assert IdKeys(id).value[0] == id.value;
    }
  }

  /** `_add_identifier_over_to_expr` of the indicators module: a single
      expression is lifted to a list, and every element is grouped by the
      identifier column exactly when one is given. */
  function AddIdentifier(arg: ExprArg, id: Option<string>): (r: seq<Expr>)
    ensures |r| == |Items(arg)|
    ensures id.None? ==> r == Items(arg)
    ensures forall i :: 0 <= i < |r| ==> (r[i].Over? && r[i].input == Items(arg)[i] <==> id.Some?)
    ensures forall i :: 0 <= i < |r| ==> r[i] == Grouped(Items(arg)[i], IdKeys(id))
  {
    AddIdentifierOver(arg, IdKeys(id))
  }

  /** The plan `_apply_expr` selects: every column not read, then each
      expression, grouped by the identifier, with the suffix. */
  function ApplyPlan(cols: seq<string>, arg: ExprArg, id: Option<string>, suffix: string): (es: seq<Expr>)
    ensures |es| == |Items(arg)| + 1 && es[0] == AllExcept(cols)
    ensures forall i :: 0 <= i < |Items(arg)| ==> es[i + 1] == Suffix(Grouped(Items(arg)[i], IdKeys(id)), suffix)
  {
    var grouped := AddIdentifier(arg, id);
    [AllExcept(cols)] + seq(|grouped|, i requires 0 <= i < |grouped| => Suffix(grouped[i], suffix))
  }

  /** `_apply_expr`. */
  function ApplyExpr(F: Frame, cols: seq<string>, arg: ExprArg, id: Option<string>, suffix: string, K: Kernels): (r: Result<Frame>)
    requires Rectangular(F)
    ensures r.Err? ==> r.error != SchemaError
    ensures r.Ok? ==> Rectangular(r.value) && r.value.height == F.height && Distinct(Names(r.value.columns))
  {
    Select(F, ApplyPlan(cols, arg, id, suffix), K)
  }

  /** No read column's suffixed name is already taken by a passthrough column. */
  predicate NoClash(F: Frame, cols: seq<string>, suffix: string) {
    forall i :: 0 <= i < |cols| ==> cols[i] + suffix !in Names(Passthrough(F.columns, cols))
  }

  /** The shape `_apply_expr` promises: the columns not read, unchanged and in
      input order, then one `c + suffix` per read column, at the input height. */
  predicate PassthroughThenSuffixed(F: Frame, out: Frame, cols: seq<string>, suffix: string) {
    var P := Passthrough(F.columns, cols);
    && Rectangular(out) && out.height == F.height
    && |out.columns| == |P| + |cols|
    && out.columns[..|P|] == P
    && Names(out.columns) == Names(P) + SuffixedNames(cols, suffix)
  }

  /** From column `offset` on, output column j holds at every row i the
      windowed aggregate `e` of the j-th column `e` reads, over the rows row i
      sees: rows 0..i, or those of them with row i's identifier. */
  predicate WindowedOutputs(F: Frame, out: Frame, offset: nat, e: Expr, id: Option<string>, K: Kernels)
    requires Rectangular(F) && IsWindowed(e)
  {
    forall j, i :: 0 <= j < |e.input.names| && 0 <= i < F.height ==>
      && offset + j < |out.columns| && |out.columns[offset + j].cells| == F.height
      && out.columns[offset + j].cells[i] == WindowedValue(F, e, j, IdKeys(id), i, K)
  }

  /** The cells of a windowed plan's output column j. */
  lemma {:induction false} WindowedPlanCells(F: Frame, e: Expr, keys: Option<seq<string>>, s: string, j: nat, K: Kernels)
    requires Rectangular(F) && IsWindowed(e)
    requires Resolves(F, Suffix(Grouped(e, keys), s)) && j < Width(F, Suffix(Grouped(e, keys), s))
    ensures j < |e.input.names|
    ensures forall i :: 0 <= i < F.height ==>
      EvalExpr(F, Suffix(Grouped(e, keys), s), K).value[j].cells[i] == WindowedValue(F, e, j, keys, i, K)
  {
    var x := Suffix(Grouped(e, keys), s);
    var all := AllRows(F.height);
    WindowedPlanResolves(SchemaOf(F), e, keys, s);
    assert Values(F, x, all, j, K) == Values(F, Grouped(e, keys), all, j, K);
    forall i | 0 <= i < F.height
      ensures EvalExpr(F, x, K).value[j].cells[i] == WindowedValue(F, e, j, keys, i, K)
    {
      GroupedWindowedAtRow(F, e, keys, j, K, i);
    }
  }

  /** `_apply_expr` with one windowed expression over the read columns
      succeeds exactly when those columns are numeric, the window is
      accepted, the identifier exists and no output name is taken. */
  lemma {:induction false} ApplyWindowedOk(F: Frame, cols: seq<string>, e: Expr, id: Option<string>, s: string, K: Kernels)
    requires Rectangular(F) && Distinct(Names(F.columns)) && Distinct(cols)
    requires (e.Rolling? || e.Ewm?) && e.input == Cols(cols)
    ensures ApplyExpr(F, cols, One(e), id, s, K).Ok?
        <==> NumericColumns(SchemaOf(F), cols) && ParamsOk(e) && IdPresent(F, id) && NoClash(F, cols, s)
  {
    var x := Suffix(Grouped(e, IdKeys(id)), s);
    assert ApplyPlan(cols, One(e), id, s) == [AllExcept(cols), x];
    WindowedPlanResolves(SchemaOf(F), e, IdKeys(id), s);
    IdKeysPresent(F, id);
    if Resolves(F, x) {
      PassthroughPlanNames(F, cols, x, SuffixedNames(cols, s), K);
      PassthroughPlanDistinct(F, cols, s);
    }
  }

  /** The columns of the plan `[all().exclude(cols), e.over(id).suffix(s)]`:
      the passthrough columns, then the windowed ones. */
  lemma {:induction false} WindowedPlanShape(F: Frame, cols: seq<string>, e: Expr, id: Option<string>, s: string, K: Kernels)
    requires Rectangular(F) && Distinct(Names(F.columns))
    requires IsWindowed(e) && e.input == Cols(cols)
    requires Resolves(F, Suffix(Grouped(e, IdKeys(id)), s))
    ensures var out := EvalList(F, [AllExcept(cols), Suffix(Grouped(e, IdKeys(id)), s)], K);
      var P := Passthrough(F.columns, cols);
      && out.Ok?
      && |out.value| == |P| + |cols|
      && out.value[..|P|] == P
      && Names(out.value) == Names(P) + SuffixedNames(cols, s)
      && out.value[|P|..] == EvalExpr(F, Suffix(Grouped(e, IdKeys(id)), s), K).value
  {
    var x := Suffix(Grouped(e, IdKeys(id)), s);
    WindowedPlanResolves(SchemaOf(F), e, IdKeys(id), s);
    PassthroughPlanNames(F, cols, x, SuffixedNames(cols, s), K);
    AllExceptColumns(F, cols, K);
    EvalListPair(F, AllExcept(cols), x, K);
  }

  /** Columns that end with a windowed expression's outputs hold, from
      their offset on, its value at every row. */
  lemma {:induction false} WindowedPlanValues(F: Frame, e: Expr, id: Option<string>, s: string, K: Kernels, out: Frame, n: nat)
    requires Rectangular(F) && IsWindowed(e)
    requires Resolves(F, Suffix(Grouped(e, IdKeys(id)), s))
    requires n <= |out.columns| && out.columns[n..] == EvalExpr(F, Suffix(Grouped(e, IdKeys(id)), s), K).value
    ensures WindowedOutputs(F, out, n, e, id, K)
  {
    assert Width(F, Suffix(Grouped(e, IdKeys(id)), s)) == |e.input.names| by {
      WindowedPlanResolves(SchemaOf(F), e, IdKeys(id), s);
    }
    forall j, i | 0 <= j < |e.input.names| && 0 <= i < F.height
      ensures n + j < |out.columns| && |out.columns[n + j].cells| == F.height
      ensures out.columns[n + j].cells[i] == WindowedValue(F, e, j, IdKeys(id), i, K)
    {
      assert out.columns[n + j] == out.columns[n..][j];
      WindowedPlanCells(F, e, IdKeys(id), s, j, K);
    }
  }

  /** When it succeeds, it gives the passthrough columns unchanged followed
      by the windowed columns, each row computed over the rows it sees. */
  lemma {:induction false} ApplyWindowed(F: Frame, cols: seq<string>, e: Expr, id: Option<string>, s: string, K: Kernels)
    requires Rectangular(F) && Distinct(Names(F.columns)) && Distinct(cols)
    requires (e.Rolling? || e.Ewm?) && e.input == Cols(cols)
    ensures var r := ApplyExpr(F, cols, One(e), id, s, K);
      r.Ok? <==> NumericColumns(SchemaOf(F), cols) && ParamsOk(e) && IdPresent(F, id) && NoClash(F, cols, s)
    ensures var r := ApplyExpr(F, cols, One(e), id, s, K);
      r.Ok? ==> PassthroughThenSuffixed(F, r.value, cols, s)
    ensures var r := ApplyExpr(F, cols, One(e), id, s, K);
      r.Ok? ==> IsWindowed(e) && WindowedOutputs(F, r.value, |Passthrough(F.columns, cols)|, e, id, K)
  {
    ApplyWindowedOk(F, cols, e, id, s, K);
    ApplyWindowedShape(F, cols, e, id, s, K);
    ApplyWindowedValues(F, cols, e, id, s, K);
  }

  /** On success, `_apply_expr` gives the passthrough-then-suffixed shape. */
  lemma {:induction false} ApplyWindowedShape(F: Frame, cols: seq<string>, e: Expr, id: Option<string>, s: string, K: Kernels)
    requires Rectangular(F) && Distinct(Names(F.columns)) && Distinct(cols)
    requires (e.Rolling? || e.Ewm?) && e.input == Cols(cols)
    ensures var r := ApplyExpr(F, cols, One(e), id, s, K);
      r.Ok? ==> PassthroughThenSuffixed(F, r.value, cols, s)
  {
    var r := ApplyExpr(F, cols, One(e), id, s, K);
    if r.Ok? {
      var x := Suffix(Grouped(e, IdKeys(id)), s);
      assert ApplyPlan(cols, One(e), id, s) == [AllExcept(cols), x];
      ApplyWindowedOk(F, cols, e, id, s, K);
      WindowedPlanShape(F, cols, e, id, s, K);
    }
  }

  /** On success, `_apply_expr` gives the windowed values after the
      passthrough columns. */
  lemma {:induction false} ApplyWindowedValues(F: Frame, cols: seq<string>, e: Expr, id: Option<string>, s: string, K: Kernels)
    requires Rectangular(F) && Distinct(Names(F.columns)) && Distinct(cols)
    requires (e.Rolling? || e.Ewm?) && e.input == Cols(cols)
    ensures var r := ApplyExpr(F, cols, One(e), id, s, K);
      r.Ok? ==> IsWindowed(e) && WindowedOutputs(F, r.value, |Passthrough(F.columns, cols)|, e, id, K)
  {
    var r := ApplyExpr(F, cols, One(e), id, s, K);
    if r.Ok? {
      var x := Suffix(Grouped(e, IdKeys(id)), s);
      var plan := [AllExcept(cols), x];
      assert ApplyPlan(cols, One(e), id, s) == plan;
      assert EvalList(F, plan, K).Ok?;
      assert Resolves(F, plan[1]);
      ApplyWindowedOk(F, cols, e, id, s, K);
      WindowedPlanShape(F, cols, e, id, s, K);
      WindowedPlanValues(F, e, id, s, K, r.value, |Passthrough(F.columns, cols)|);
    }
  }

  // ---------------------------------------------------------------------
  // The moving median, moving standard deviation and exponential moving
  // average: `_apply_expr` over the validated columns.
  // ---------------------------------------------------------------------

  /** The value at every row of every output column. */
  predicate IndicatorOutputs(F: Frame, out: Frame, cols: seq<string>, e: Expr, id: Option<string>, suffix: string, K: Kernels)
    requires Rectangular(F) && IsWindowed(e)
  {
    && PassthroughThenSuffixed(F, out, cols, suffix)
    && WindowedOutputs(F, out, |Passthrough(F.columns, cols)|, e, id, K)
  }

  /** `simple_moving_median`; by default a period of 20 and no identifier. */
  function SimpleMovingMedian(F: Frame, period: int := 20, id: Option<string> := None, K: Kernels): (r: Result<Frame>)
    requires Rectangular(F) && Distinct(Names(F.columns))
    ensures r == Err(SchemaError) <==> GetOhlcvColumns(F).Err?
    ensures r.Ok? <==>
      && GetOhlcvColumns(F).Ok? && period >= 1 && IdPresent(F, id)
      && NoClash(F, GetOhlcvColumns(F).value, PeriodSuffix(SmmTag, period))
    ensures r.Ok? ==>
      var cols := GetOhlcvColumns(F).value;
      var e := Rolling(Median, Cols(cols), period, None);
      IsWindowed(e) && IndicatorOutputs(F, r.value, cols, e, id, PeriodSuffix(SmmTag, period), K)
  {
    var cols :- GetOhlcvColumns(F);
    SourceColumnsDistinct();
    var e := Rolling(Median, Cols(cols), period, None);
    ApplyWindowed(F, cols, e, id, PeriodSuffix(SmmTag, period), K);
    ApplyExpr(F, cols, One(e), id, PeriodSuffix(SmmTag, period), K)
  }

  /** `moving_std`; by default a period of 20 and no identifier. */
  function MovingStd(F: Frame, period: int := 20, id: Option<string> := None, K: Kernels): (r: Result<Frame>)
    requires Rectangular(F) && Distinct(Names(F.columns))
    ensures r == Err(SchemaError) <==> GetOhlcvColumns(F).Err?
    ensures r.Ok? <==>
      && GetOhlcvColumns(F).Ok? && period >= 1 && IdPresent(F, id)
      && NoClash(F, GetOhlcvColumns(F).value, PeriodSuffix(MsdTag, period))
    ensures r.Ok? ==>
      var cols := GetOhlcvColumns(F).value;
      var e := Rolling(Std, Cols(cols), period, None);
      IsWindowed(e) && IndicatorOutputs(F, r.value, cols, e, id, PeriodSuffix(MsdTag, period), K)
  {
    var cols :- GetOhlcvColumns(F);
    SourceColumnsDistinct();
    var e := Rolling(Std, Cols(cols), period, None);
    ApplyWindowed(F, cols, e, id, PeriodSuffix(MsdTag, period), K);
    ApplyExpr(F, cols, One(e), id, PeriodSuffix(MsdTag, period), K)
  }

  /** `exponential_moving_average`; by default a period of 20 and no
      identifier. */
  function ExponentialMovingAverage(F: Frame, period: int := 20, id: Option<string> := None, K: Kernels): (r: Result<Frame>)
    requires Rectangular(F) && Distinct(Names(F.columns))
    ensures r == Err(SchemaError) <==> GetOhlcvColumns(F).Err?
    ensures r.Ok? <==>
      && GetOhlcvColumns(F).Ok? && period >= 1 && IdPresent(F, id)
      && NoClash(F, GetOhlcvColumns(F).value, PeriodSuffix(EmaTag, period))
    ensures r.Ok? ==>
      var cols := GetOhlcvColumns(F).value;
      var e := Ewm(Cols(cols), period);
      IsWindowed(e) && IndicatorOutputs(F, r.value, cols, e, id, PeriodSuffix(EmaTag, period), K)
  {
    var cols :- GetOhlcvColumns(F);
    SourceColumnsDistinct();
    var e := Ewm(Cols(cols), period);
    ApplyWindowed(F, cols, e, id, PeriodSuffix(EmaTag, period), K);
    ApplyExpr(F, cols, One(e), id, PeriodSuffix(EmaTag, period), K)
  }

  // ---------------------------------------------------------------------
  // The simple moving average: `ma_expr` selected on its own.
  // ---------------------------------------------------------------------

  /** Element i of `ma_expr` resolves exactly when column i exists and is
      numeric, the window and minimum count are accepted and the key columns
      exist; it then has the single output `c + s`. */
  lemma {:induction false} MaResolvesAt(F: Frame, cols: seq<string>, w: int, mp: Option<int>, over: Option<seq<string>>, s: string, i: nat)
    requires Rectangular(F) && i < |cols|
    ensures var x := MaExpr(cols, w, mp, over, s)[i];
      && (Resolves(F, x) <==> NumericColumns(SchemaOf(F), [cols[i]]) && WindowOk(w, mp) && KeysPresent(SchemaOf(F), over))
      && (Resolves(F, x) ==> Width(F, x) == 1 && Resolve(SchemaOf(F), x).value[0].0 == SuffixedNames(cols, s)[i])
  {
    WindowedPlanResolves(SchemaOf(F), Rolling(Mean, Cols([cols[i]]), w, mp), over, s);
    assert [cols[i]][0] == cols[i];
  }

  /** The `ma_expr` plan resolves exactly when the columns are numeric and,
      when there is at least one, the window and minimum count are accepted
      and the key columns exist; each element then has the single output
      `c + s`. */
  lemma {:induction false} MaPlanResolves(F: Frame, cols: seq<string>, w: int, mp: Option<int>, over: Option<seq<string>>, s: string)
    requires Rectangular(F)
    ensures var es := MaExpr(cols, w, mp, over, s);
      (forall i :: 0 <= i < |es| ==> Resolves(F, es[i]))
        <==> NumericColumns(SchemaOf(F), cols) && (|cols| > 0 ==> WindowOk(w, mp) && KeysPresent(SchemaOf(F), over))
    ensures var es := MaExpr(cols, w, mp, over, s);
      forall i :: 0 <= i < |es| && Resolves(F, es[i]) ==>
        Width(F, es[i]) == 1 && Resolve(SchemaOf(F), es[i]).value[0].0 == SuffixedNames(cols, s)[i]
  {
    var S := SchemaOf(F);
    var es := MaExpr(cols, w, mp, over, s);
    NumericColumnsEach(S, cols);
    forall i | 0 <= i < |cols|
      ensures Resolves(F, es[i]) <==> NumericColumns(S, [cols[i]]) && WindowOk(w, mp) && KeysPresent(S, over)
      ensures Resolves(F, es[i]) ==> Width(F, es[i]) == 1 && Resolve(S, es[i]).value[0].0 == SuffixedNames(cols, s)[i]
    {
      MaResolvesAt(F, cols, w, mp, over, s, i);
    }
    if |cols| > 0 && forall i :: 0 <= i < |es| ==> Resolves(F, es[i]) {
      assert Resolves(F, es[0]);
    }
  }

  /** Suffixed names are distinct exactly when the names are. */
  lemma {:induction false} SuffixedNamesDistinctIff(cols: seq<string>, s: string)
    ensures Distinct(SuffixedNames(cols, s)) <==> Distinct(cols)
  {
    if Distinct(cols) {
      SuffixedNamesDistinct(cols, s);
    } else {
      var a, b :| 0 <= a < b < |cols| && cols[a] == cols[b];
      assert SuffixedNames(cols, s)[a] == SuffixedNames(cols, s)[b];
    }
  }

  /** `select(ma_expr(...))` succeeds exactly when the columns are distinct
      and numeric and, when there is at least one, the window and minimum
      count are accepted and the key columns exist. */
  lemma {:induction false} MaSelectOk(F: Frame, cols: seq<string>, w: int, mp: Option<int>, over: Option<seq<string>>, s: string, K: Kernels)
    requires Rectangular(F)
    ensures Select(F, MaExpr(cols, w, mp, over, s), K).Ok?
        <==> Distinct(cols) && NumericColumns(SchemaOf(F), cols) && (|cols| > 0 ==> WindowOk(w, mp) && KeysPresent(SchemaOf(F), over))
  {
    var es := MaExpr(cols, w, mp, over, s);
    MaPlanResolves(F, cols, w, mp, over, s);
    if NumericColumns(SchemaOf(F), cols) && (|cols| > 0 ==> WindowOk(w, mp) && KeysPresent(SchemaOf(F), over)) {
      SinglesNames(F, es, SuffixedNames(cols, s), K);
      SuffixedNamesDistinctIff(cols, s);
    } else {
      var j :| 0 <= j < |es| && !Resolves(F, es[j]);
      assert !EvalList(F, es, K).Ok?;
    }
  }

  /** Row i of the output of element j of `ma_expr` is the windowed mean of
      column j over the rows row i sees. */
  lemma {:induction false} MaSelectCell(F: Frame, cols: seq<string>, w: int, mp: Option<int>, over: Option<seq<string>>, s: string, K: Kernels, j: nat, i: nat)
    requires Rectangular(F) && j < |cols| && i < F.height
    requires Resolves(F, MaExpr(cols, w, mp, over, s)[j])
    ensures IsWindowed(Rolling(Mean, Cols(cols), w, mp))
    ensures |EvalExpr(F, MaExpr(cols, w, mp, over, s)[j], K).value| > 0
    ensures EvalExpr(F, MaExpr(cols, w, mp, over, s)[j], K).value[0].cells[i]
      == WindowedValue(F, Rolling(Mean, Cols(cols), w, mp), j, over, i, K)
  {
    var e := Rolling(Mean, Cols(cols), w, mp);
    var ej := Rolling(Mean, Cols([cols[j]]), w, mp);
    MaResolvesAt(F, cols, w, mp, over, s, j);
    WindowedPlanCells(F, ej, over, s, 0, K);
    assert [cols[j]][0] == cols[j];
    assert WindowedValue(F, ej, 0, over, i, K) == WindowedValue(F, e, j, over, i, K);
  }

  /** `select(ma_expr(...))`: on success, exactly the columns `c + s`, in
      order, column j holding at every row the rolling mean of column j, with
      the given window and minimum count, over the rows that row sees: all
      rows up to it, or those of them that share its key values. */
  lemma {:induction false} MaSelect(F: Frame, cols: seq<string>, w: int, mp: Option<int>, over: Option<seq<string>>, s: string, K: Kernels)
    requires Rectangular(F)
    ensures var r := Select(F, MaExpr(cols, w, mp, over, s), K);
      r.Ok? <==> Distinct(cols) && NumericColumns(SchemaOf(F), cols) && (|cols| > 0 ==> WindowOk(w, mp) && KeysPresent(SchemaOf(F), over))
    ensures var r := Select(F, MaExpr(cols, w, mp, over, s), K);
      r.Ok? ==> r.value.height == F.height && |r.value.columns| == |cols| && Names(r.value.columns) == SuffixedNames(cols, s)
    ensures var r := Select(F, MaExpr(cols, w, mp, over, s), K);
      var e := Rolling(Mean, Cols(cols), w, mp);
      r.Ok? && |cols| > 0 ==> IsWindowed(e) && forall j, i :: 0 <= j < |cols| && 0 <= i < F.height ==>
        |r.value.columns[j].cells| == F.height && r.value.columns[j].cells[i] == WindowedValue(F, e, j, over, i, K)
  {
    MaSelectOk(F, cols, w, mp, over, s, K);
    var es := MaExpr(cols, w, mp, over, s);
    var r := Select(F, es, K);
    if r.Ok? {
      MaPlanResolves(F, cols, w, mp, over, s);
      SinglesNames(F, es, SuffixedNames(cols, s), K);
      var out := r.value.columns;
      var e := Rolling(Mean, Cols(cols), w, mp);
      forall j, i | 0 <= j < |cols| && 0 <= i < F.height
        ensures |out[j].cells| == F.height && out[j].cells[i] == WindowedValue(F, e, j, over, i, K)
      {
        MaSelectCell(F, cols, w, mp, over, s, K, j, i);
      }
    }
  }

  /** With its defaults (no minimum count, no grouping, the empty suffix),
      `ma_expr` keeps every column's name: selecting it succeeds under the
      same condition and gives the read columns' own names. */
  lemma {:induction false} MaDefaultKeepsNames(F: Frame, cols: seq<string>, w: int, K: Kernels)
    requires Rectangular(F)
    ensures Select(F, MaExpr(cols, w), K).Ok? <==> Distinct(cols) && NumericColumns(SchemaOf(F), cols) && (|cols| > 0 ==> w >= 1)
    ensures Select(F, MaExpr(cols, w), K).Ok? ==> Names(Select(F, MaExpr(cols, w), K).value.columns) == cols
  {
    MaSelect(F, cols, w, None, None, "", K);
    assert SuffixedNames(cols, "") == cols by {
      forall i | 0 <= i < |cols| ensures SuffixedNames(cols, "")[i] == cols[i] {
        assert cols[i] + "" == cols[i];
      }
    }
  }

  /** `simple_moving_average` as written: the schema check, then only the
      rolling means `c_sma_P`; the columns it does not read are dropped. By
      default a period of 20 and no identifier. */
  function SimpleMovingAverage(F: Frame, period: int := 20, id: Option<string> := None, K: Kernels): (r: Result<Frame>)
    requires Rectangular(F) && Distinct(Names(F.columns))
    ensures r == Err(SchemaError) <==> GetOhlcvColumns(F).Err?
    ensures r.Ok? <==> GetOhlcvColumns(F).Ok? && period >= 1 && IdPresent(F, id)
    ensures r.Ok? ==>
      var cols := GetOhlcvColumns(F).value;
      var e := Rolling(Mean, Cols(cols), period, None);
      && Rectangular(r.value) && r.value.height == F.height
      && Names(r.value.columns) == SuffixedNames(cols, PeriodSuffix(SmaTag, period))
      && IsWindowed(e) && WindowedOutputs(F, r.value, 0, e, id, K)
  {
    var cols :- GetOhlcvColumns(F);
    SourceColumnsDistinct();
    IdKeysPresent(F, id);
    MaSelect(F, cols, period, None, IdKeys(id), PeriodSuffix(SmaTag, period), K);
    Select(F, MaExpr(cols, period, None, IdKeys(id), PeriodSuffix(SmaTag, period)), K)
  }

  /** `simple_moving_average` as its documentation describes it: the other
      columns returned as given, ahead of the rolling means, as the other
      indicators do. */
  function SimpleMovingAverageWithPassthrough(F: Frame, period: int := 20, id: Option<string> := None, K: Kernels): (r: Result<Frame>)
    requires Rectangular(F) && Distinct(Names(F.columns))
    ensures r == Err(SchemaError) <==> GetOhlcvColumns(F).Err?
    ensures r.Ok? <==>
      && GetOhlcvColumns(F).Ok? && period >= 1 && IdPresent(F, id)
      && NoClash(F, GetOhlcvColumns(F).value, PeriodSuffix(SmaTag, period))
    ensures r.Ok? ==>
      var cols := GetOhlcvColumns(F).value;
      var e := Rolling(Mean, Cols(cols), period, None);
      IsWindowed(e) && IndicatorOutputs(F, r.value, cols, e, id, PeriodSuffix(SmaTag, period), K)
  {
    var cols :- GetOhlcvColumns(F);
    SourceColumnsDistinct();
    var e := Rolling(Mean, Cols(cols), period, None);
    ApplyWindowed(F, cols, e, id, PeriodSuffix(SmaTag, period), K);
    ApplyExpr(F, cols, One(e), id, PeriodSuffix(SmaTag, period), K)
  }

  /** The function as written returns the documented result with the
      passthrough columns cut off: same names and cells from there on, and
      one column short for every column it does not read. */
  lemma {:induction false} SmaDropsPassthrough(F: Frame, period: int, id: Option<string>, K: Kernels)
    requires Rectangular(F) && Distinct(Names(F.columns))
    requires SimpleMovingAverageWithPassthrough(F, period, id, K).Ok?
    ensures SimpleMovingAverage(F, period, id, K).Ok?
    ensures var P := Passthrough(F.columns, GetOhlcvColumns(F).value);
      CutOff(SimpleMovingAverage(F, period, id, K).value, SimpleMovingAverageWithPassthrough(F, period, id, K).value, |P|)
  {
    var cols := GetOhlcvColumns(F).value;
    var sfx := PeriodSuffix(SmaTag, period);
    var e := Rolling(Mean, Cols(cols), period, None);
    var P := Passthrough(F.columns, cols);
    var A := SimpleMovingAverage(F, period, id, K).value;
    var B := SimpleMovingAverageWithPassthrough(F, period, id, K).value;
    CutOffNames(F, cols, sfx, A, B);
    CutOffWindowed(F, e, id, A, B, |P|, K);
  }

  /** `A` is `B` without its first `offset` columns, as far as names and
      cells go. */
  predicate CutOff(A: Frame, B: Frame, offset: nat) {
    && |A.columns| + offset == |B.columns|
    && Names(A.columns) == Names(B.columns)[offset..]
    && forall j :: 0 <= j < |A.columns| ==> A.columns[j].cells == B.columns[offset + j].cells
  }

  /** Two outputs holding the same windowed aggregate, one from column 0 and
      one from column n on, with the same names from there, are one cut off
      from the other. */
  lemma {:induction false} CutOffWindowed(F: Frame, e: Expr, id: Option<string>, A: Frame, B: Frame, n: nat, K: Kernels)
    requires Rectangular(F) && IsWindowed(e) && |A.columns| == |e.input.names|
    requires Rectangular(A) && A.height == F.height && Rectangular(B) && B.height == F.height
    requires |A.columns| + n == |B.columns| && Names(A.columns) == Names(B.columns)[n..]
    requires WindowedOutputs(F, A, 0, e, id, K) && WindowedOutputs(F, B, n, e, id, K)
    ensures CutOff(A, B, n)
  {
    forall j | 0 <= j < |A.columns| ensures A.columns[j].cells == B.columns[n + j].cells {
      SameWindowedColumn(F, A, B, e, id, K, n, j);
    }
  }

  /** The suffixed names alone are the passthrough-then-suffixed names with
      the passthrough cut off. */
  lemma {:induction false} CutOffNames(F: Frame, cols: seq<string>, sfx: string, A: Frame, B: Frame)
    requires Names(A.columns) == SuffixedNames(cols, sfx) && PassthroughThenSuffixed(F, B, cols, sfx)
    ensures |A.columns| + |Passthrough(F.columns, cols)| == |B.columns|
    ensures Names(A.columns) == Names(B.columns)[|Passthrough(F.columns, cols)|..]
  {
    var P := Passthrough(F.columns, cols);
    assert Names(B.columns)[|P|..] == (Names(P) + SuffixedNames(cols, sfx))[|Names(P)|..];
  }

  /** Two outputs holding the same windowed aggregate, at offsets 0 and n,
      agree column by column. */
  lemma {:induction false} SameWindowedColumn(F: Frame, A: Frame, B: Frame, e: Expr, id: Option<string>, K: Kernels, n: nat, j: nat)
    requires Rectangular(F) && IsWindowed(e) && j < |e.input.names|
    requires Rectangular(A) && A.height == F.height && j < |A.columns|
    requires Rectangular(B) && B.height == F.height && n + j < |B.columns|
    requires WindowedOutputs(F, A, 0, e, id, K) && WindowedOutputs(F, B, n, e, id, K)
    ensures A.columns[j].cells == B.columns[n + j].cells
  {
    forall i | 0 <= i < F.height ensures A.columns[j].cells[i] == B.columns[n + j].cells[i] {
      var v := WindowedValue(F, e, j, IdKeys(id), i, K);
      assert A.columns[0 + j].cells[i] == v;
      assert B.columns[n + j].cells[i] == v;
    }
  }

  // ---------------------------------------------------------------------
  // The typical price: `with_columns` of one arithmetic expression.
  // ---------------------------------------------------------------------

  const TypicalPriceName := "typical_price"
  const TypicalInputs: seq<string> := ["high", "low", "close"]

  /** `((high + low + close) / 3).alias("typical_price")`. */
  function TypicalPriceExpr(): Expr {
    Alias(DivBy(Binary(Plus, Binary(Plus, Cols(["high"]), Cols(["low"])), Cols(["close"])), 3.0), TypicalPriceName)
  }

  /** The typical price of one row: the mean of its high, low and close,
      missing when any of the three is missing. */
  function TypicalCell(h: Cell, l: Cell, c: Cell): (t: Cell)
    ensures t.Num? <==> h.Num? && l.Num? && c.Num?
    ensures t.Num? ==> 3.0 * t.x == h.x + l.x + c.x
  {
    if h.Num? && l.Num? && c.Num? then Num((h.x + l.x + c.x) / 3.0) else Null
  }

  /** `e` resolves to one numeric column. */
  predicate NumericSingle(S: seq<Field>, e: Expr) {
    Resolve(S, e).Ok? && |Resolve(S, e).value| == 1 && IsNumeric(Resolve(S, e).value[0].1)
  }

  /** A single column is a numeric single exactly when it exists and is numeric. */
  lemma {:induction false} ColumnSingle(S: seq<Field>, n: string)
    ensures NumericSingle(S, Cols([n])) <==> IndexOf(S, n) < |S| && IsNumeric(S[IndexOf(S, n)].1)
  {
    assert [n][0] == n;
  }

  /** Arithmetic on two expressions resolves exactly when both are numeric
      singles, and then is one itself. */
  lemma {:induction false} BinaryResolves(S: seq<Field>, op: BinOp, l: Expr, r: Expr)
    ensures Resolve(S, Binary(op, l, r)).Ok? <==> NumericSingle(S, l) && NumericSingle(S, r)
    ensures Resolve(S, Binary(op, l, r)).Ok? ==> NumericSingle(S, Binary(op, l, r))
  {
  }

  /** Division by a constant keeps a numeric single a numeric single. */
  lemma {:induction false} DivByResolves(S: seq<Field>, inner: Expr, d: NonZeroReal)
    ensures Resolve(S, DivBy(inner, d)).Ok? <==> Resolve(S, inner).Ok? && AllNumeric(Resolve(S, inner).value)
    ensures NumericSingle(S, inner) ==> NumericSingle(S, DivBy(inner, d))
  {
  }

  /** An alias resolves exactly when its input is one column, and renames it. */
  lemma {:induction false} AliasResolves(S: seq<Field>, inner: Expr, n: string)
    ensures Resolve(S, Alias(inner, n)).Ok? <==> Resolve(S, inner).Ok? && |Resolve(S, inner).value| == 1
    ensures Resolve(S, Alias(inner, n)).Ok? ==>
      |Resolve(S, Alias(inner, n)).value| == 1 && Resolve(S, Alias(inner, n)).value[0].0 == n
  {
  }

  /** Three columns are numeric exactly when each of them is. */
  lemma {:induction false} NumericColumnsThree(S: seq<Field>, a: string, b: string, c: string)
    ensures NumericColumns(S, [a, b, c]) <==>
      NumericSingle(S, Cols([a])) && NumericSingle(S, Cols([b])) && NumericSingle(S, Cols([c]))
  {
    ColumnSingle(S, a);
    ColumnSingle(S, b);
    ColumnSingle(S, c);
    var cols := [a, b, c];
    assert cols[0] == a && cols[1] == b && cols[2] == c;
    if NumericSingle(S, Cols([a])) && NumericSingle(S, Cols([b])) && NumericSingle(S, Cols([c])) {
      forall i | 0 <= i < 3 ensures IndexOf(S, cols[i]) < |S| && IsNumeric(S[IndexOf(S, cols[i])].1) {
        if i == 0 {
        } else if i == 1 {
        } else {
          assert cols[i] == c;
        }
      }
    }
  }

  /** The expression resolves exactly when high, low and close are numeric
      columns, whatever their numeric dtype, to one column `typical_price`. */
  lemma {:induction false} TypicalPriceResolves(S: seq<Field>)
    ensures Resolve(S, TypicalPriceExpr()).Ok? <==> NumericColumns(S, TypicalInputs)
    ensures Resolve(S, TypicalPriceExpr()).Ok? ==>
      |Resolve(S, TypicalPriceExpr()).value| == 1 && Resolve(S, TypicalPriceExpr()).value[0].0 == TypicalPriceName
  {
    var h, l, c := Cols(["high"]), Cols(["low"]), Cols(["close"]);
    var hl := Binary(Plus, h, l);
    var hlc := Binary(Plus, hl, c);
    var mean := DivBy(hlc, 3.0);
    assert TypicalPriceExpr() == Alias(mean, TypicalPriceName);
    BinaryResolves(S, Plus, h, l);
    BinaryResolves(S, Plus, hl, c);
    DivByResolves(S, hlc, 3.0);
    AliasResolves(S, mean, TypicalPriceName);
    NumericColumnsThree(S, "high", "low", "close");
    assert Resolve(S, mean).Ok? <==> NumericSingle(S, hlc);
  }

  /** Row i of the expression is the typical price of row i. */
  lemma {:induction false} TypicalPriceValues(F: Frame, K: Kernels, i: nat)
    requires Rectangular(F) && Resolves(F, TypicalPriceExpr()) && i < F.height
    ensures Width(F, TypicalPriceExpr()) == 1
    ensures Values(F, TypicalPriceExpr(), AllRows(F.height), 0, K)[i]
      == TypicalCell(ColumnCells(F, "high")[i], ColumnCells(F, "low")[i], ColumnCells(F, "close")[i])
  {
    TypicalPriceResolves(SchemaOf(F));
    var all := AllRows(F.height);
    var hl := Binary(Plus, Cols(["high"]), Cols(["low"]));
    var hlc := Binary(Plus, hl, Cols(["close"]));
    var h := ColumnCells(F, "high")[i];
    var l := ColumnCells(F, "low")[i];
    var c := ColumnCells(F, "close")[i];
    ColumnAt(F, "high", all, K, i);
    ColumnAt(F, "low", all, K, i);
    ColumnAt(F, "close", all, K, i);
    BinaryAt(F, Plus, Cols(["high"]), Cols(["low"]), all, K, i);
    BinaryAt(F, Plus, hl, Cols(["close"]), all, K, i);
    DivByAt(F, hlc, 3.0, all, 0, K, i);
    AliasAt(F, DivBy(hlc, 3.0), TypicalPriceName, all, 0, K, i);
  }

  /** `typical_price`: no schema check; the table with the typical price put
      in place of a `typical_price` column or, when there is none, appended;
      every other column unchanged. */
  function TypicalPrice(F: Frame, K: Kernels): (r: Result<Frame>)
    requires Rectangular(F)
    ensures r.Err? ==> r.error != SchemaError
    ensures r.Ok? <==> NumericColumns(SchemaOf(F), TypicalInputs)
    ensures r.Ok? ==>
      var k := IndexOf(SchemaOf(F), TypicalPriceName);
      && r.value.height == F.height
      && |r.value.columns| == (if k < |F.columns| then |F.columns| else |F.columns| + 1)
      && (forall t :: 0 <= t < |F.columns| && t != k ==> r.value.columns[t] == F.columns[t])
      && r.value.columns[k].name == TypicalPriceName
      && |r.value.columns[k].cells| == F.height
      && forall i :: 0 <= i < F.height ==>
           r.value.columns[k].cells[i] == TypicalCell(ColumnCells(F, "high")[i], ColumnCells(F, "low")[i], ColumnCells(F, "close")[i])
  {
    TypicalPriceResolves(SchemaOf(F));
    if Resolves(F, TypicalPriceExpr()) then
      EvalListOne(F, TypicalPriceExpr(), K);
      var tp := EvalExpr(F, TypicalPriceExpr(), K).value[0];
      assert EvalList(F, [TypicalPriceExpr()], K).value == [tp];
      assert Upsert(F.columns, [tp]) == Put(F.columns, tp) by {
        assert [tp][1..] == [];
      }
      assert forall i :: 0 <= i < F.height ==>
        tp.cells[i] == TypicalCell(ColumnCells(F, "high")[i], ColumnCells(F, "low")[i], ColumnCells(F, "close")[i]) by {
        forall i | 0 <= i < F.height
          ensures tp.cells[i] == TypicalCell(ColumnCells(F, "high")[i], ColumnCells(F, "low")[i], ColumnCells(F, "close")[i])
        {
          TypicalPriceValues(F, K, i);
        }
      }
      WithColumns(F, [TypicalPriceExpr()], K)
    else
      WithColumns(F, [TypicalPriceExpr()], K)
  }

  // ---------------------------------------------------------------------
  // MACD: `_apply_expr` of one difference of EWMs per OHLC column, then
  // `with_columns` of the EWM of each of those lines. The lemmas are stated
  // for any list of read columns; `macd` reads the OHLC columns.
  // ---------------------------------------------------------------------

  /** The MACD line of one column: its slow EWM minus its fast EWM. */
  function MacdLine(c: string, fast: int, slow: int): Expr {
    Binary(Minus, Ewm(Cols([c]), slow), Ewm(Cols([c]), fast))
  }

  function MacdLines(cols: seq<string>, fast: int, slow: int): (es: seq<Expr>)
    ensures |es| == |cols|
    ensures forall j :: 0 <= j < |cols| ==> es[j] == MacdLine(cols[j], fast, slow)
  {
    seq(|cols|, j requires 0 <= j < |cols| => MacdLine(cols[j], fast, slow))
  }

  /** The signal line of one column: the EWM of its MACD line column. */
  function SignalLine(c: string, suffix: string, signal: int): Expr {
    Ewm(Cols([c + suffix]), signal)
  }

  /** The second stage: each signal line, grouped by the identifier,
      suffixed `_signal`. */
  function SignalPlan(cols: seq<string>, suffix: string, signal: int, id: Option<string>): (es: seq<Expr>)
    ensures |es| == |cols|
    ensures forall j :: 0 <= j < |cols| ==> es[j] == Suffix(Grouped(SignalLine(cols[j], suffix, signal), IdKeys(id)), SignalSuffix)
  {
    var ewms := seq(|cols|, j requires 0 <= j < |cols| => SignalLine(cols[j], suffix, signal));
    var grouped := AddIdentifier(Many(ewms), id);
    seq(|grouped|, j requires 0 <= j < |grouped| => Suffix(grouped[j], SignalSuffix))
  }

  /** The first stage of `macd` over the read columns `cols`: `_apply_expr`
      of the line expressions with the suffix `sfx`. */
  function MacdStage(F: Frame, cols: seq<string>, fast: int, slow: int, id: Option<string>, sfx: string, K: Kernels): (r: Result<Frame>)
    requires Rectangular(F)
    ensures r.Err? ==> r.error != SchemaError
    ensures r.Ok? ==> Rectangular(r.value) && r.value.height == F.height && Distinct(Names(r.value.columns))
  {
    ApplyExpr(F, cols, Many(MacdLines(cols, fast, slow)), id, sfx, K)
  }

  /** Both stages of `macd` over the read columns `cols` and the line suffix
      `sfx`: the lines replace the read columns, then the signal lines are
      added with `with_columns`. */
  function MacdOn(F: Frame, cols: seq<string>, fast: int, slow: int, signal: int, id: Option<string>, sfx: string, K: Kernels): (r: Result<Frame>)
    requires Rectangular(F)
    ensures r.Err? ==> r.error != SchemaError
  {
    var out :- MacdStage(F, cols, fast, slow, id, sfx, K);
    WithColumns(out, SignalPlan(cols, sfx, signal, id), K)
  }

  /** `macd`: no schema check; the OHLC columns are replaced by their MACD
      lines `c + "_macd_{fast}_{slow}"`, and the signal lines are then added.
      By default the spans are 12, 26 and 9, with no identifier. */
  function Macd(F: Frame, fast: int := 12, slow: int := 26, signal: int := 9, id: Option<string> := None, K: Kernels): (r: Result<Frame>)
    requires Rectangular(F)
  {
    MacdOn(F, Ohlc, fast, slow, signal, id, MacdSuffix(fast, slow), K)
  }

  /** The value of the MACD line of column c at row i: the slow EWM minus the
      fast EWM of c over the rows row i sees. */
  function LineValue(F: Frame, c: string, fast: int, slow: int, keys: Option<seq<string>>, i: nat, K: Kernels): Cell
    requires Rectangular(F) && i < F.height
  {
    var seen := Pick(ColumnCells(F, c), SeenRows(F, keys, i));
    Combine(Minus, K.ewm(slow, seen), K.ewm(fast, seen))
  }

  /** An EWM of one column is a numeric single exactly when the column is
      numeric and the span accepted; it keeps the column's name. */
  lemma {:induction false} EwmSingle(S: seq<Field>, c: string, span: int)
    ensures NumericSingle(S, Ewm(Cols([c]), span)) <==> NumericColumns(S, [c]) && span >= 1
    ensures Resolve(S, Ewm(Cols([c]), span)).Ok? ==>
      |Resolve(S, Ewm(Cols([c]), span)).value| == 1 && Resolve(S, Ewm(Cols([c]), span)).value[0].0 == c
  {
    WindowedInnerResolves(S, Ewm(Cols([c]), span));
    assert [c][0] == c;
  }

  /** A MACD line, grouped or not, suffixed, resolves exactly when its column
      is numeric, both spans are accepted and the keys exist, to one numeric
      column `c + suffix`. */
  lemma {:induction false} MacdLineResolves(S: seq<Field>, c: string, fast: int, slow: int, keys: Option<seq<string>>, s: string)
    ensures Resolve(S, Suffix(Grouped(MacdLine(c, fast, slow), keys), s)).Ok?
        <==> NumericColumns(S, [c]) && fast >= 1 && slow >= 1 && KeysPresent(S, keys)
    ensures Resolve(S, Suffix(Grouped(MacdLine(c, fast, slow), keys), s)).Ok? ==>
      var fs := Resolve(S, Suffix(Grouped(MacdLine(c, fast, slow), keys), s)).value;
      |fs| == 1 && fs[0].0 == c + s && IsNumeric(fs[0].1)
  {
    EwmSingle(S, c, slow);
    EwmSingle(S, c, fast);
    BinaryResolves(S, Minus, Ewm(Cols([c]), slow), Ewm(Cols([c]), fast));
    GroupedResolves(S, MacdLine(c, fast, slow), keys);
  }

  /** At the last row of a context, an ungrouped MACD line is the slow EWM
      minus the fast EWM of its column over the whole context. */
  lemma {:induction false} LineAtLast(F: Frame, c: string, fast: int, slow: int, rows: seq<nat>, K: Kernels)
    requires Rectangular(F) && InRange(rows, F.height) && |rows| >= 1
    requires Resolves(F, MacdLine(c, fast, slow))
    ensures Values(F, MacdLine(c, fast, slow), rows, 0, K)[|rows| - 1]
      == Combine(Minus, K.ewm(slow, Pick(ColumnCells(F, c), rows)), K.ewm(fast, Pick(ColumnCells(F, c), rows)))
  {
    var es, ef := Ewm(Cols([c]), slow), Ewm(Cols([c]), fast);
    var last := |rows| - 1;
    BinaryResolves(SchemaOf(F), Minus, es, ef);
    EwmSingle(SchemaOf(F), c, slow);
    EwmSingle(SchemaOf(F), c, fast);
    assert Values(F, MacdLine(c, fast, slow), rows, 0, K)[last] == Combine(Minus, Values(F, es, rows, 0, K)[last], Values(F, ef, rows, 0, K)[last]);
    WindowedAt(F, es, rows, 0, K, last);
    WindowedAt(F, ef, rows, 0, K, last);
    assert rows[..last + 1] == rows;
    assert [c][0] == c;
  }

  /** Row i of a MACD line column is the line value at row i. */
  lemma {:induction false} MacdLineCells(F: Frame, c: string, fast: int, slow: int, keys: Option<seq<string>>, s: string, K: Kernels, i: nat)
    requires Rectangular(F) && i < F.height
    requires Resolves(F, Suffix(Grouped(MacdLine(c, fast, slow), keys), s))
    ensures EvalExpr(F, Suffix(Grouped(MacdLine(c, fast, slow), keys), s), K).Ok?
    ensures |EvalExpr(F, Suffix(Grouped(MacdLine(c, fast, slow), keys), s), K).value| == 1
    ensures EvalExpr(F, Suffix(Grouped(MacdLine(c, fast, slow), keys), s), K).value[0].cells[i]
      == LineValue(F, c, fast, slow, keys, i, K)
  {
    var line := MacdLine(c, fast, slow);
    MacdLineResolves(SchemaOf(F), c, fast, slow, keys, s);
    GroupedResolves(SchemaOf(F), line, keys);
    var all := AllRows(F.height);
    assert Values(F, Suffix(Grouped(line, keys), s), all, 0, K) == Values(F, Grouped(line, keys), all, 0, K);
    GroupedAtRow(F, line, keys, 0, K, i);
    LineAtLast(F, c, fast, slow, SeenRows(F, keys, i), K);
  }

  /** The line expressions of the first stage, grouped and suffixed. */
  function LinePlan(cols: seq<string>, fast: int, slow: int, id: Option<string>, sfx: string): (xs: seq<Expr>)
    ensures |xs| == |cols|
    ensures forall j :: 0 <= j < |cols| ==> xs[j] == Suffix(Grouped(MacdLine(cols[j], fast, slow), IdKeys(id)), sfx)
  {
    seq(|cols|, j requires 0 <= j < |cols| => Suffix(Grouped(MacdLine(cols[j], fast, slow), IdKeys(id)), sfx))
  }

  /** The plan of the first stage is the passthrough, then the line expressions. */
  lemma {:induction false} LinePlanApplied(cols: seq<string>, fast: int, slow: int, id: Option<string>, sfx: string)
    ensures ApplyPlan(cols, Many(MacdLines(cols, fast, slow)), id, sfx) == [AllExcept(cols)] + LinePlan(cols, fast, slow, id, sfx)
  {
    var plan := ApplyPlan(cols, Many(MacdLines(cols, fast, slow)), id, sfx);
    var xs := LinePlan(cols, fast, slow, id, sfx);
    assert plan[1..] == xs;
    assert plan == [AllExcept(cols)] + plan[1..];
  }

  /** The line expressions resolve exactly when the columns are numeric,
      both spans are accepted and the identifier exists; each gives one
      numeric column `c + suffix`. */
  lemma {:induction false} LinePlanResolves(F: Frame, cols: seq<string>, fast: int, slow: int, id: Option<string>, sfx: string)
    requires Rectangular(F) && |cols| > 0
    ensures (forall j :: 0 <= j < |cols| ==> Resolves(F, LinePlan(cols, fast, slow, id, sfx)[j]))
        <==> NumericColumns(SchemaOf(F), cols) && fast >= 1 && slow >= 1 && IdPresent(F, id)
    ensures forall j :: 0 <= j < |cols| && Resolves(F, LinePlan(cols, fast, slow, id, sfx)[j]) ==>
      && Width(F, LinePlan(cols, fast, slow, id, sfx)[j]) == 1
      && Resolve(SchemaOf(F), LinePlan(cols, fast, slow, id, sfx)[j]).value[0].0 == SuffixedNames(cols, sfx)[j]
      && IsNumeric(Resolve(SchemaOf(F), LinePlan(cols, fast, slow, id, sfx)[j]).value[0].1)
  {
    var S := SchemaOf(F);
    var xs := LinePlan(cols, fast, slow, id, sfx);
    IdKeysPresent(F, id);
    NumericColumnsEach(S, cols);
    forall j | 0 <= j < |cols|
      ensures Resolves(F, xs[j]) <==> NumericColumns(S, [cols[j]]) && fast >= 1 && slow >= 1 && KeysPresent(S, IdKeys(id))
      ensures Resolves(F, xs[j]) ==>
        Width(F, xs[j]) == 1 && Resolve(S, xs[j]).value[0].0 == SuffixedNames(cols, sfx)[j]
        && IsNumeric(Resolve(S, xs[j]).value[0].1)
    {
      LineResolvesAt(F, cols, fast, slow, id, sfx, j);
    }
    if forall j :: 0 <= j < |cols| ==> Resolves(F, xs[j]) {
      assert Resolves(F, xs[0]);
    }
  }

  lemma {:induction false} LineResolvesAt(F: Frame, cols: seq<string>, fast: int, slow: int, id: Option<string>, sfx: string, j: nat)
    requires Rectangular(F) && j < |cols|
    ensures var x := LinePlan(cols, fast, slow, id, sfx)[j];
      && (Resolves(F, x) <==> NumericColumns(SchemaOf(F), [cols[j]]) && fast >= 1 && slow >= 1 && KeysPresent(SchemaOf(F), IdKeys(id)))
      && (Resolves(F, x) ==>
            Width(F, x) == 1 && Resolve(SchemaOf(F), x).value[0].0 == SuffixedNames(cols, sfx)[j]
            && IsNumeric(Resolve(SchemaOf(F), x).value[0].1))
  {
    MacdLineResolves(SchemaOf(F), cols[j], fast, slow, IdKeys(id), sfx);
  }

  /** Listed columns are numeric exactly when each of them is. */
  lemma {:induction false} NumericColumnsEach(S: seq<Field>, cols: seq<string>)
    ensures NumericColumns(S, cols) <==> forall j :: 0 <= j < |cols| ==> NumericColumns(S, [cols[j]])
  {
    forall j | 0 <= j < |cols| ensures [cols[j]][0] == cols[j] {
    }
  }

  /** The first stage of `macd` succeeds exactly when the read columns are
      numeric, both spans are accepted, the identifier exists and no line
      name is taken by a passthrough column. */
  lemma {:induction false} MacdStageOk(F: Frame, cols: seq<string>, fast: int, slow: int, id: Option<string>, sfx: string, K: Kernels)
    requires Rectangular(F) && Distinct(Names(F.columns)) && Distinct(cols) && |cols| > 0
    ensures MacdStage(F, cols, fast, slow, id, sfx, K).Ok?
        <==> NumericColumns(SchemaOf(F), cols) && fast >= 1 && slow >= 1 && IdPresent(F, id)
             && NoClash(F, cols, sfx)
  {
    var xs := LinePlan(cols, fast, slow, id, sfx);
    var plan := [AllExcept(cols)] + xs;
    LinePlanApplied(cols, fast, slow, id, sfx);
    LinePlanResolves(F, cols, fast, slow, id, sfx);
    if forall j :: 0 <= j < |xs| ==> Resolves(F, xs[j]) {
      PassthroughThenSingles(F, cols, xs, SuffixedNames(cols, sfx), K);
      PassthroughPlanDistinct(F, cols, sfx);
    } else {
      var j :| 0 <= j < |xs| && !Resolves(F, xs[j]);
      assert xs[j] == plan[j + 1];
      assert !EvalList(F, plan, K).Ok?;
    }
  }

  /** The first-stage plan, once every line resolves: the passthrough
      columns, then one numeric line column per read column. */
  lemma {:induction false} LineStageList(F: Frame, cols: seq<string>, fast: int, slow: int, id: Option<string>, sfx: string, K: Kernels)
    requires Rectangular(F) && Distinct(Names(F.columns)) && |cols| > 0
    requires forall j :: 0 <= j < |cols| ==> Resolves(F, LinePlan(cols, fast, slow, id, sfx)[j])
    ensures var xs := LinePlan(cols, fast, slow, id, sfx);
      var L := EvalList(F, [AllExcept(cols)] + xs, K);
      var P := Passthrough(F.columns, cols);
      && L.Ok?
      && |L.value| == |P| + |cols|
      && L.value[..|P|] == P
      && Names(L.value) == Names(P) + SuffixedNames(cols, sfx)
      && forall j :: 0 <= j < |cols| ==>
           Resolves(F, xs[j]) && Width(F, xs[j]) == 1 && L.value[|P| + j] == EvalExpr(F, xs[j], K).value[0]
  {
    var xs := LinePlan(cols, fast, slow, id, sfx);
    LinePlanResolves(F, cols, fast, slow, id, sfx);
    PassthroughThenSingles(F, cols, xs, SuffixedNames(cols, sfx), K);
  }

  /** The line columns of the first-stage plan are numeric. */
  lemma {:induction false} LineStageNumeric(F: Frame, cols: seq<string>, fast: int, slow: int, id: Option<string>, sfx: string, K: Kernels)
    requires Rectangular(F) && Distinct(Names(F.columns)) && |cols| > 0
    requires forall j :: 0 <= j < |cols| ==> Resolves(F, LinePlan(cols, fast, slow, id, sfx)[j])
    ensures var L := EvalList(F, [AllExcept(cols)] + LinePlan(cols, fast, slow, id, sfx), K);
      var n := |Passthrough(F.columns, cols)|;
      && L.Ok? && n + |cols| <= |L.value|
      && forall k :: n <= k < n + |cols| ==> IsNumeric(L.value[k].dtype)
  {
    LinePlanResolves(F, cols, fast, slow, id, sfx);
    PassthroughThenNumericSingles(F, cols, LinePlan(cols, fast, slow, id, sfx), SuffixedNames(cols, sfx), K);
  }

  /** The first stage, once it succeeds, is the passthrough-then-singles plan. */
  lemma {:induction false} MacdStageColumns(F: Frame, cols: seq<string>, fast: int, slow: int, id: Option<string>, sfx: string, K: Kernels)
    requires Rectangular(F) && Distinct(Names(F.columns)) && |cols| > 0
    requires MacdStage(F, cols, fast, slow, id, sfx, K).Ok?
    ensures var xs := LinePlan(cols, fast, slow, id, sfx);
      MacdStage(F, cols, fast, slow, id, sfx, K).value.columns == EvalList(F, [AllExcept(cols)] + xs, K).value
    ensures forall j :: 0 <= j < |cols| ==> Resolves(F, LinePlan(cols, fast, slow, id, sfx)[j])
  {
    var xs := LinePlan(cols, fast, slow, id, sfx);
    var plan := [AllExcept(cols)] + xs;
    LinePlanApplied(cols, fast, slow, id, sfx);
    forall j | 0 <= j < |cols| ensures Resolves(F, xs[j]) {
      assert xs[j] == plan[j + 1];
    }
  }

  /** After the first stage: the passthrough columns, then one numeric MACD
      line column `c + suffix` per read column. */
  lemma {:induction false} MacdStageShape(F: Frame, cols: seq<string>, fast: int, slow: int, id: Option<string>, sfx: string, K: Kernels)
    requires Rectangular(F) && Distinct(Names(F.columns)) && |cols| > 0
    requires MacdStage(F, cols, fast, slow, id, sfx, K).Ok?
    ensures PassthroughThenSuffixed(F, MacdStage(F, cols, fast, slow, id, sfx, K).value, cols, sfx)
    ensures var out := MacdStage(F, cols, fast, slow, id, sfx, K).value;
      var n := |Passthrough(F.columns, cols)|;
      n + |cols| <= |out.columns| && forall k :: n <= k < n + |cols| ==> IsNumeric(out.columns[k].dtype)
  {
    MacdStageColumns(F, cols, fast, slow, id, sfx, K);
    LineStageList(F, cols, fast, slow, id, sfx, K);
    LineStageNumeric(F, cols, fast, slow, id, sfx, K);
  }

  /** A column holding, at every row, the MACD line value of column c. */
  predicate LineColumn(F: Frame, col: Column, c: string, fast: int, slow: int, keys: Option<seq<string>>, K: Kernels)
    requires Rectangular(F)
  {
    && |col.cells| == F.height
    && forall i :: 0 <= i < F.height ==> col.cells[i] == LineValue(F, c, fast, slow, keys, i, K)
  }

  /** The MACD line columns, from column `|P|` on, one per read column. */
  predicate LineOutputs(F: Frame, out: Frame, cols: seq<string>, fast: int, slow: int, id: Option<string>, K: Kernels)
    requires Rectangular(F)
  {
    var n := |Passthrough(F.columns, cols)|;
    && n + |cols| <= |out.columns|
    && forall j :: 0 <= j < |cols| ==> LineColumn(F, out.columns[n + j], cols[j], fast, slow, IdKeys(id), K)
  }

  /** After the first stage, row i of the line of column c is the slow EWM
      minus the fast EWM of c over the rows row i sees. */
  lemma {:induction false} MacdStageValues(F: Frame, cols: seq<string>, fast: int, slow: int, id: Option<string>, sfx: string, K: Kernels)
    requires Rectangular(F) && Distinct(Names(F.columns)) && |cols| > 0
    requires MacdStage(F, cols, fast, slow, id, sfx, K).Ok?
    ensures LineOutputs(F, MacdStage(F, cols, fast, slow, id, sfx, K).value, cols, fast, slow, id, K)
  {
    MacdStageColumns(F, cols, fast, slow, id, sfx, K);
    LineStageList(F, cols, fast, slow, id, sfx, K);
    LineColumnsValues(F, MacdStage(F, cols, fast, slow, id, sfx, K).value, cols, fast, slow, id, sfx, K);
  }

  /** Columns holding the outputs of the line expressions hold the line values. */
  lemma {:induction false} LineColumnsValues(F: Frame, out: Frame, cols: seq<string>, fast: int, slow: int, id: Option<string>, sfx: string, K: Kernels)
    requires Rectangular(F)
    requires var n := |Passthrough(F.columns, cols)|;
      var xs := LinePlan(cols, fast, slow, id, sfx);
      && n + |cols| <= |out.columns|
      && forall j :: 0 <= j < |cols| ==> Resolves(F, xs[j]) && Width(F, xs[j]) == 1 && out.columns[n + j] == EvalExpr(F, xs[j], K).value[0]
    ensures LineOutputs(F, out, cols, fast, slow, id, K)
  {
    forall j | 0 <= j < |cols|
      ensures LineColumn(F, out.columns[|Passthrough(F.columns, cols)| + j], cols[j], fast, slow, IdKeys(id), K)
    {
      LineColumnAtIndex(F, out, cols, fast, slow, id, sfx, K, |Passthrough(F.columns, cols)|, j);
    }
  }

  /** The output of the line expression of `cols[j]`, sitting at `n + j`,
      holds the line values of `cols[j]`. */
  lemma {:induction false} LineColumnAtIndex(F: Frame, out: Frame, cols: seq<string>, fast: int, slow: int, id: Option<string>, sfx: string, K: Kernels, n: nat, j: nat)
    requires Rectangular(F) && j < |cols| && n + j < |out.columns|
    requires Resolves(F, LinePlan(cols, fast, slow, id, sfx)[j]) && Width(F, LinePlan(cols, fast, slow, id, sfx)[j]) == 1
    requires out.columns[n + j] == EvalExpr(F, LinePlan(cols, fast, slow, id, sfx)[j], K).value[0]
    ensures LineColumn(F, out.columns[n + j], cols[j], fast, slow, IdKeys(id), K)
  {
    forall i | 0 <= i < F.height ensures out.columns[n + j].cells[i] == LineValue(F, cols[j], fast, slow, IdKeys(id), i, K) {
      MacdLineCells(F, cols[j], fast, slow, IdKeys(id), sfx, K, i);
    }
  }

  /** What the second stage relies on from the first: the passthrough
      columns, then the numeric line columns `c + suffix`, all names distinct. */
  predicate StageOneFacts(F: Frame, out: Frame, cols: seq<string>, suffix: string) {
    var n := |Passthrough(F.columns, cols)|;
    && PassthroughThenSuffixed(F, out, cols, suffix)
    && Distinct(Names(out.columns))
    && forall k :: n <= k < n + |cols| ==> IsNumeric(out.columns[k].dtype)
  }

  /** A numeric column of a table with distinct names is found by its name,
      and reads as numeric. */
  lemma {:induction false} LineColumnAt(out: Frame, k: nat, name: string)
    requires Rectangular(out) && Distinct(Names(out.columns))
    requires k < |out.columns| && out.columns[k].name == name && IsNumeric(out.columns[k].dtype)
    ensures IndexOf(SchemaOf(out), name) == k
    ensures NumericColumns(SchemaOf(out), [name])
    ensures ColumnCells(out, name) == out.columns[k].cells
  {
    NamedColumnAt(out, k, name);
    NumericColumnOne(SchemaOf(out), name);
  }

  /** One column is numeric when the field it names is. */
  lemma {:induction false} NumericColumnOne(S: seq<Field>, name: string)
    requires IndexOf(S, name) < |S| && IsNumeric(S[IndexOf(S, name)].1)
    ensures NumericColumns(S, [name])
  {
    assert [name][0] == name;
  }

  /** The column at position `|P| + j` of the first stage's output is named
      `cols[j] + suffix`. */
  lemma {:induction false} LineNameAt(F: Frame, out: Frame, cols: seq<string>, suffix: string, j: nat)
    requires PassthroughThenSuffixed(F, out, cols, suffix) && j < |cols|
    ensures |Passthrough(F.columns, cols)| + j < |out.columns|
    ensures out.columns[|Passthrough(F.columns, cols)| + j].name == cols[j] + suffix
  {
    var n := |Passthrough(F.columns, cols)|;
    var names := Names(out.columns);
    assert names == Names(Passthrough(F.columns, cols)) + SuffixedNames(cols, suffix);
    assert names[n + j] == SuffixedNames(cols, suffix)[j];
  }

  /** In a table with distinct names, a column is found by its name. */
  lemma {:induction false} NamedColumnAt(out: Frame, k: nat, name: string)
    requires Rectangular(out) && Distinct(Names(out.columns))
    requires k < |out.columns| && out.columns[k].name == name
    ensures IndexOf(SchemaOf(out), name) == k
    ensures SchemaOf(out)[k].1 == out.columns[k].dtype
    ensures ColumnCells(out, name) == out.columns[k].cells
  {
    IndexOfDistinct(SchemaOf(out), k);
  }

  /** A signal expression resolves exactly when the span is accepted and the
      identifier is a column of the first stage's output. */
  lemma {:induction false} SignalResolves(F: Frame, out: Frame, cols: seq<string>, suffix: string, signal: int, id: Option<string>, j: nat)
    requires StageOneFacts(F, out, cols, suffix) && j < |cols|
    ensures Resolves(out, SignalPlan(cols, suffix, signal, id)[j]) <==> signal >= 1 && IdPresent(out, id)
    ensures Resolves(out, SignalPlan(cols, suffix, signal, id)[j]) ==>
      && Width(out, SignalPlan(cols, suffix, signal, id)[j]) == 1
      && Resolve(SchemaOf(out), SignalPlan(cols, suffix, signal, id)[j]).value[0].0 == cols[j] + suffix + SignalSuffix
  {
    var line := SignalLine(cols[j], suffix, signal);
    LineNameAt(F, out, cols, suffix, j);
    LineColumnAt(out, |Passthrough(F.columns, cols)| + j, cols[j] + suffix);
    IdKeysPresent(out, id);
    WindowedPlanResolves(SchemaOf(out), line, IdKeys(id), SignalSuffix);
    assert [cols[j] + suffix][0] == cols[j] + suffix;
  }

  /** The second stage succeeds exactly when the span is accepted and the
      identifier survived the first stage; it yields one column
      `c + suffix + "_signal"` per read column. */
  lemma {:induction false} SignalStageOk(F: Frame, out: Frame, cols: seq<string>, suffix: string, signal: int, id: Option<string>, K: Kernels)
    requires StageOneFacts(F, out, cols, suffix) && Distinct(cols) && |cols| > 0
    ensures WithColumns(out, SignalPlan(cols, suffix, signal, id), K).Ok? <==> signal >= 1 && IdPresent(out, id)
    ensures signal >= 1 && IdPresent(out, id) ==>
      var sigs := SignalPlan(cols, suffix, signal, id);
      var E := EvalList(out, sigs, K);
      && E.Ok? && |E.value| == |cols|
      && Names(E.value) == SuffixedNames(SuffixedNames(cols, suffix), SignalSuffix)
      && forall j :: 0 <= j < |cols| ==> Resolves(out, sigs[j]) && Width(out, sigs[j]) == 1 && E.value[j] == EvalExpr(out, sigs[j], K).value[0]
  {
    var sigs := SignalPlan(cols, suffix, signal, id);
    forall j | 0 <= j < |cols|
      ensures Resolves(out, sigs[j]) <==> signal >= 1 && IdPresent(out, id)
      ensures Resolves(out, sigs[j]) ==> Width(out, sigs[j]) == 1 && Resolve(SchemaOf(out), sigs[j]).value[0].0 == cols[j] + suffix + SignalSuffix
    {
      SignalResolves(F, out, cols, suffix, signal, id, j);
    }
    if signal >= 1 && IdPresent(out, id) {
      EvalListSingles(out, sigs, K);
      var E := EvalList(out, sigs, K).value;
      assert Names(E) == SuffixedNames(SuffixedNames(cols, suffix), SignalSuffix);
      SuffixedNamesDistinct(cols, suffix);
      SuffixedNamesDistinct(SuffixedNames(cols, suffix), SignalSuffix);
    } else {
      assert !Resolves(out, sigs[0]);
    }
  }

  /** The first stage keeps each passthrough column, so grouping by a
      passthrough identifier sees the same rows before and after it. */
  lemma {:induction false} SeenRowsKept(F: Frame, out: Frame, cols: seq<string>, suffix: string, id: Option<string>, i: nat)
    requires Rectangular(F) && Distinct(Names(F.columns)) && StageOneFacts(F, out, cols, suffix) && i < F.height
    requires id.Some? ==> id.value in Names(Passthrough(F.columns, cols))
    ensures SeenRows(out, IdKeys(id), i) == SeenRows(F, IdKeys(id), i)
  {
    if id.Some? {
      var keys := [id.value];
      ColumnCellsKept(F, out, cols, id.value);
      forall r | 0 <= r < F.height ensures RowKeys(out, keys)[r] == RowKeys(F, keys)[r] {
        assert RowKeys(out, keys)[r] == [ColumnCells(out, id.value)[r]];
        assert RowKeys(F, keys)[r] == [ColumnCells(F, id.value)[r]];
      }
      assert RowKeys(out, keys) == RowKeys(F, keys);
    }
  }

  /** Row i of signal column j is the EWM of line column j over the rows row
      i sees. */
  lemma {:induction false} SignalCells(F: Frame, out: Frame, cols: seq<string>, suffix: string, signal: int, id: Option<string>, K: Kernels, j: nat, i: nat)
    requires Rectangular(F) && Distinct(Names(F.columns)) && StageOneFacts(F, out, cols, suffix)
    requires j < |cols| && i < F.height
    requires Resolves(out, SignalPlan(cols, suffix, signal, id)[j])
    requires id.Some? ==> id.value in Names(Passthrough(F.columns, cols))
    ensures |Passthrough(F.columns, cols)| + j < |out.columns|
    ensures |EvalExpr(out, SignalPlan(cols, suffix, signal, id)[j], K).value| == 1
    ensures EvalExpr(out, SignalPlan(cols, suffix, signal, id)[j], K).value[0].cells[i]
      == K.ewm(signal, Pick(out.columns[|Passthrough(F.columns, cols)| + j].cells, SeenRows(F, IdKeys(id), i)))
  {
    SignalResolves(F, out, cols, suffix, signal, id, j);
    LineNameAt(F, out, cols, suffix, j);
    SeenRowsKept(F, out, cols, suffix, id, i);
    SignalCellAt(F, out, cols[j], suffix, signal, id, K, |Passthrough(F.columns, cols)| + j, i);
  }

  /** Row i of the signal column of the line column at position k is the EWM
      of that line over the rows row i sees. */
  lemma {:induction false} SignalCellAt(F: Frame, out: Frame, c: string, suffix: string, signal: int, id: Option<string>, K: Kernels, k: nat, i: nat)
    requires Rectangular(F) && Rectangular(out) && Distinct(Names(out.columns))
    requires k < |out.columns| && out.columns[k].name == c + suffix && IsNumeric(out.columns[k].dtype)
    requires i < F.height == out.height
    requires Resolves(out, Suffix(Grouped(SignalLine(c, suffix, signal), IdKeys(id)), SignalSuffix))
    requires Width(out, Suffix(Grouped(SignalLine(c, suffix, signal), IdKeys(id)), SignalSuffix)) == 1
    requires SeenRows(out, IdKeys(id), i) == SeenRows(F, IdKeys(id), i)
    ensures |EvalExpr(out, Suffix(Grouped(SignalLine(c, suffix, signal), IdKeys(id)), SignalSuffix), K).value| == 1
    ensures EvalExpr(out, Suffix(Grouped(SignalLine(c, suffix, signal), IdKeys(id)), SignalSuffix), K).value[0].cells[i]
      == K.ewm(signal, Pick(out.columns[k].cells, SeenRows(F, IdKeys(id), i)))
  {
    var line := SignalLine(c, suffix, signal);
    LineColumnAt(out, k, c + suffix);
    WindowedPlanCells(out, line, IdKeys(id), SignalSuffix, 0, K);
    assert line.input.names[0] == c + suffix;
  }

  // ---------------------------------------------------------------------
  // MACD, both stages.
  // ---------------------------------------------------------------------

  /** No read column is named like a line column. */
  predicate LinesAreNew(cols: seq<string>, sfx: string) {
    forall i, k :: 0 <= i < |cols| && 0 <= k < |cols| ==> cols[i] != cols[k] + sfx
  }

  /** No signal column is named like a line column. */
  predicate SignalsAreNew(cols: seq<string>, sfx: string) {
    forall i, k :: 0 <= i < |cols| && 0 <= k < |cols| ==> cols[i] + sfx + SignalSuffix != cols[k] + sfx
  }

  /** No passthrough column is named like a signal column. */
  predicate SignalsFresh(F: Frame, cols: seq<string>, sfx: string) {
    forall i :: 0 <= i < |cols| ==> cols[i] + sfx + SignalSuffix !in Names(Passthrough(F.columns, cols))
  }

  /** What the two stages need: numeric read columns, accepted spans, an
      identifier that exists and is not a read column (the first stage
      replaces those, and the second groups by it), and no passthrough
      column named like a line. */
  predicate MacdAccepts(F: Frame, cols: seq<string>, fast: int, slow: int, signal: int, id: Option<string>, sfx: string) {
    && NumericColumns(SchemaOf(F), cols) && fast >= 1 && slow >= 1 && signal >= 1
    && IdPresent(F, id) && (id.Some? ==> id.value !in cols)
    && NoClash(F, cols, sfx)
  }

  /** The OHLC names are 3 to 5 characters long and the MACD suffix at least
      6, so no two of the read, line and signal names coincide. */
  lemma {:induction false} OhlcMacdNames(fast: int, slow: int)
    ensures LinesAreNew(Ohlc, MacdSuffix(fast, slow)) && SignalsAreNew(Ohlc, MacdSuffix(fast, slow))
  {
    var sfx := MacdSuffix(fast, slow);
    assert |sfx| >= 6;
    assert |SignalSuffix| == 7;
    assert forall i :: 0 <= i < |Ohlc| ==> 3 <= |Ohlc[i]| <= 5;
  }

  /** After the first stage, the identifier is still a column exactly when
      it is not one of the read columns. */
  lemma {:induction false} IdAfterFirstStage(F: Frame, out: Frame, cols: seq<string>, sfx: string, id: Option<string>)
    requires PassthroughThenSuffixed(F, out, cols, sfx) && IdPresent(F, id) && LinesAreNew(cols, sfx)
    ensures IdPresent(out, id) <==> (id.Some? ==> id.value !in cols)
    ensures IdPresent(out, id) ==> (id.Some? ==> id.value in Names(Passthrough(F.columns, cols)))
  {
    if id.Some? {
      var name := id.value;
      var P := Passthrough(F.columns, cols);
      PassthroughNames(F.columns, cols, name);
      assert Names(out.columns) == Names(P) + SuffixedNames(cols, sfx);
      if name in cols {
        assert name !in SuffixedNames(cols, sfx);
      }
    }
  }

  /** The first stage's output, once it succeeds, has what the second stage
      relies on. */
  lemma {:induction false} StageOne(F: Frame, cols: seq<string>, fast: int, slow: int, id: Option<string>, sfx: string, K: Kernels)
    requires Rectangular(F) && Distinct(Names(F.columns)) && |cols| > 0
    requires MacdStage(F, cols, fast, slow, id, sfx, K).Ok?
    ensures StageOneFacts(F, MacdStage(F, cols, fast, slow, id, sfx, K).value, cols, sfx)
  {
    MacdStageShape(F, cols, fast, slow, id, sfx, K);
  }

  /** Both stages succeed exactly when the input is accepted. */
  lemma {:induction false} MacdOnOk(F: Frame, cols: seq<string>, fast: int, slow: int, signal: int, id: Option<string>, sfx: string, K: Kernels)
    requires Rectangular(F) && Distinct(Names(F.columns)) && Distinct(cols) && |cols| > 0 && LinesAreNew(cols, sfx)
    ensures MacdOn(F, cols, fast, slow, signal, id, sfx, K).Ok? <==> MacdAccepts(F, cols, fast, slow, signal, id, sfx)
  {
    MacdStageOk(F, cols, fast, slow, id, sfx, K);
    var st := MacdStage(F, cols, fast, slow, id, sfx, K);
    if st.Ok? {
      var out := st.value;
      StageOne(F, cols, fast, slow, id, sfx, K);
      assert MacdOn(F, cols, fast, slow, signal, id, sfx, K) == WithColumns(out, SignalPlan(cols, sfx, signal, id), K);
      SignalStageOk(F, out, cols, sfx, signal, id, K);
      IdAfterFirstStage(F, out, cols, sfx, id);
    }
  }

  /** The signal outputs, as the second stage computes them. */
  function Signals(out: Frame, cols: seq<string>, sfx: string, signal: int, id: Option<string>, K: Kernels): Result<seq<Column>>
    requires Rectangular(out)
  {
    EvalList(out, SignalPlan(cols, sfx, signal, id), K)
  }

  /** Once both stages succeed and no passthrough column is named like a
      signal, the second stage appends the signal outputs to the first
      stage's output. */
  lemma {:induction false} MacdOnColumns(F: Frame, cols: seq<string>, fast: int, slow: int, signal: int, id: Option<string>, sfx: string, K: Kernels)
    requires Rectangular(F) && Distinct(Names(F.columns)) && Distinct(cols) && |cols| > 0
    requires SignalsAreNew(cols, sfx) && SignalsFresh(F, cols, sfx)
    requires MacdOn(F, cols, fast, slow, signal, id, sfx, K).Ok?
    ensures MacdStage(F, cols, fast, slow, id, sfx, K).Ok?
    ensures var out := MacdStage(F, cols, fast, slow, id, sfx, K).value;
      var E := Signals(out, cols, sfx, signal, id, K);
      var r := MacdOn(F, cols, fast, slow, signal, id, sfx, K).value;
      && StageOneFacts(F, out, cols, sfx)
      && E.Ok? && |E.value| == |cols|
      && r.height == F.height && r.columns == out.columns + E.value
      && r.columns[..|Passthrough(F.columns, cols)|] == Passthrough(F.columns, cols)
      && Names(r.columns) == Names(Passthrough(F.columns, cols)) + SuffixedNames(cols, sfx) + SuffixedNames(SuffixedNames(cols, sfx), SignalSuffix)
  {
    var out := MacdStage(F, cols, fast, slow, id, sfx, K).value;
    StageOne(F, cols, fast, slow, id, sfx, K);
    var E := Signals(out, cols, sfx, signal, id, K);
    assert MacdOn(F, cols, fast, slow, signal, id, sfx, K).value == Frame(out.height, Upsert(out.columns, E.value));
    SignalStageOk(F, out, cols, sfx, signal, id, K);
    UpsertAppends(F, out, cols, sfx, E.value);
  }

  /** Once both stages succeed and no passthrough column is named like a
      signal: the passthrough columns, the line columns `c + sfx`, then the
      signal columns `c + sfx + "_signal"`, at the input height. */
  lemma {:induction false} MacdOnShape(F: Frame, cols: seq<string>, fast: int, slow: int, signal: int, id: Option<string>, sfx: string, K: Kernels)
    requires Rectangular(F) && Distinct(Names(F.columns)) && Distinct(cols) && |cols| > 0
    requires SignalsAreNew(cols, sfx) && SignalsFresh(F, cols, sfx)
    requires MacdOn(F, cols, fast, slow, signal, id, sfx, K).Ok?
    ensures var r := MacdOn(F, cols, fast, slow, signal, id, sfx, K).value;
      var P := Passthrough(F.columns, cols);
      && r.height == F.height
      && |r.columns| == |P| + 2 * |cols|
      && r.columns[..|P|] == P
      && Names(r.columns) == Names(P) + SuffixedNames(cols, sfx) + SuffixedNames(SuffixedNames(cols, sfx), SignalSuffix)
  {
    MacdOnColumns(F, cols, fast, slow, signal, id, sfx, K);
  }

  /** A column holding, at every row, the EWM of a line column over the rows
      that row sees. */
  predicate SignalColumn(F: Frame, col: Column, line: Column, signal: int, keys: Option<seq<string>>, K: Kernels)
    requires Rectangular(F)
  {
    && |col.cells| == F.height && |line.cells| == F.height
    && forall i :: 0 <= i < F.height ==> col.cells[i] == K.ewm(signal, Pick(line.cells, SeenRows(F, keys, i)))
  }

  /** Each signal column is the EWM of the line column at the same place. */
  predicate SignalColumns(F: Frame, signals: seq<Column>, lines: seq<Column>, signal: int, keys: Option<seq<string>>, K: Kernels)
    requires Rectangular(F)
  {
    && |signals| == |lines|
    && forall j :: 0 <= j < |signals| ==> SignalColumn(F, signals[j], lines[j], signal, keys, K)
  }

  /** The signal columns, after the line columns, one per read column. */
  predicate SignalOutputs(F: Frame, out: Frame, cols: seq<string>, signal: int, id: Option<string>, K: Kernels)
    requires Rectangular(F)
  {
    var n := |Passthrough(F.columns, cols)|;
    && n + 2 * |cols| <= |out.columns|
    && SignalColumns(F, out.columns[n + |cols|..n + 2 * |cols|], out.columns[n..n + |cols|], signal, IdKeys(id), K)
  }

  /** Once both stages succeed: each line column holds the slow EWM minus the
      fast EWM of its read column, and each signal column holds the EWM of
      its line column, each over the rows a row sees (its instrument's rows
      up to it when an identifier is given). */
  lemma {:induction false} MacdOnValues(F: Frame, cols: seq<string>, fast: int, slow: int, signal: int, id: Option<string>, sfx: string, K: Kernels)
    requires Rectangular(F) && Distinct(Names(F.columns)) && Distinct(cols) && |cols| > 0
    requires LinesAreNew(cols, sfx) && SignalsAreNew(cols, sfx) && SignalsFresh(F, cols, sfx)
    requires MacdOn(F, cols, fast, slow, signal, id, sfx, K).Ok?
    ensures LineOutputs(F, MacdOn(F, cols, fast, slow, signal, id, sfx, K).value, cols, fast, slow, id, K)
    ensures SignalOutputs(F, MacdOn(F, cols, fast, slow, signal, id, sfx, K).value, cols, signal, id, K)
  {
    var r := MacdOn(F, cols, fast, slow, signal, id, sfx, K).value;
    var out := MacdStage(F, cols, fast, slow, id, sfx, K).value;
    MacdOnColumns(F, cols, fast, slow, signal, id, sfx, K);
    var E := Signals(out, cols, sfx, signal, id, K).value;
    assert r.columns[..|out.columns|] == out.columns;
    assert LineOutputs(F, out, cols, fast, slow, id, K) by {
      MacdStageValues(F, cols, fast, slow, id, sfx, K);
    }
    LineOutputsKept(F, out, r, cols, fast, slow, id, K);
    assert signal >= 1 && IdPresent(out, id) && (id.Some? ==> id.value in Names(Passthrough(F.columns, cols))) by {
      MacdOnOk(F, cols, fast, slow, signal, id, sfx, K);
      IdAfterFirstStage(F, out, cols, sfx, id);
    }
    SignalStageOk(F, out, cols, sfx, signal, id, K);
    forall j | 0 <= j < |cols| ensures SignalEvaluated(out, cols, sfx, signal, id, K, E, j) { }
    SignalColumnsOf(F, out, r, cols, sfx, signal, id, K, E);
  }

  /** The j-th signal expression resolves to one column, and `E[j]` is its
      value. */
  predicate SignalEvaluated(out: Frame, cols: seq<string>, sfx: string, signal: int, id: Option<string>, K: Kernels, E: seq<Column>, j: nat)
    requires Rectangular(out) && j < |cols| && j < |E|
  {
    var x := SignalPlan(cols, sfx, signal, id)[j];
    Resolves(out, x) && Width(out, x) == 1 && E[j] == EvalExpr(out, x, K).value[0]
  }

  /** Signal outputs appended after the first stage's output hold the EWM of
      the line columns. */
  lemma {:induction false} SignalColumnsOf(F: Frame, out: Frame, r: Frame, cols: seq<string>, sfx: string, signal: int, id: Option<string>, K: Kernels, E: seq<Column>)
    requires Rectangular(F) && Distinct(Names(F.columns)) && StageOneFacts(F, out, cols, sfx)
    requires id.Some? ==> id.value in Names(Passthrough(F.columns, cols))
    requires |E| == |cols| && r.columns == out.columns + E
    requires forall j :: 0 <= j < |cols| ==> SignalEvaluated(out, cols, sfx, signal, id, K, E, j)
    ensures SignalOutputs(F, r, cols, signal, id, K)
  {
    var n := |Passthrough(F.columns, cols)|;
    assert |out.columns| == n + |cols|;
    AllSignalColumns(F, out, cols, sfx, signal, id, K, E);
    SignalOutputsAppended(F, out, r, cols, signal, id, K, E);
  }

  /** Signal columns appended right after the line columns sit where
      `SignalOutputs` looks for them. */
  lemma {:induction false} SignalOutputsAppended(F: Frame, out: Frame, r: Frame, cols: seq<string>, signal: int, id: Option<string>, K: Kernels, E: seq<Column>)
    requires Rectangular(F)
    requires |out.columns| == |Passthrough(F.columns, cols)| + |cols| && |E| == |cols| && r.columns == out.columns + E
    requires forall j :: 0 <= j < |E| ==> SignalColumn(F, E[j], out.columns[|Passthrough(F.columns, cols)| + j], signal, IdKeys(id), K)
    ensures SignalOutputs(F, r, cols, signal, id, K)
  {
    SignalsAfterLines(F, out.columns, E, |Passthrough(F.columns, cols)|, signal, IdKeys(id), K);
  }

  /** Columns `E` appended to `C`, whose last `|E|` columns are the lines
      they are built from, pair up with those lines. */
  lemma {:induction false} SignalsAfterLines(F: Frame, C: seq<Column>, E: seq<Column>, n: nat, signal: int, keys: Option<seq<string>>, K: Kernels)
    requires Rectangular(F) && n + |E| == |C|
    requires forall j :: 0 <= j < |E| ==> SignalColumn(F, E[j], C[n + j], signal, keys, K)
    ensures SignalColumns(F, (C + E)[n + |E|..n + 2 * |E|], (C + E)[n..n + |E|], signal, keys, K)
  {
    var lines := (C + E)[n..n + |E|];
    assert (C + E)[n + |E|..n + 2 * |E|] == E;
    forall j | 0 <= j < |E| ensures SignalColumn(F, E[j], lines[j], signal, keys, K) {
      assert lines[j] == C[n + j];
    }
  }

  /** Every signal output is the EWM of the line column it is built from. */
  lemma {:induction false} AllSignalColumns(F: Frame, out: Frame, cols: seq<string>, sfx: string, signal: int, id: Option<string>, K: Kernels, E: seq<Column>)
    requires Rectangular(F) && Distinct(Names(F.columns)) && StageOneFacts(F, out, cols, sfx)
    requires id.Some? ==> id.value in Names(Passthrough(F.columns, cols))
    requires |E| == |cols|
    requires forall j :: 0 <= j < |cols| ==> SignalEvaluated(out, cols, sfx, signal, id, K, E, j)
    ensures |Passthrough(F.columns, cols)| + |cols| <= |out.columns|
    ensures forall j :: 0 <= j < |E| ==> SignalColumn(F, E[j], out.columns[|Passthrough(F.columns, cols)| + j], signal, IdKeys(id), K)
  {
    forall j | 0 <= j < |E|
      ensures SignalColumn(F, E[j], out.columns[|Passthrough(F.columns, cols)| + j], signal, IdKeys(id), K)
    {
      SignalColumnOf(F, out, cols, sfx, signal, id, K, E, j);
    }
  }

  /** One signal output holds, at every row, the EWM of its line column over
      the rows that row sees. */
  lemma {:induction false} SignalColumnOf(F: Frame, out: Frame, cols: seq<string>, sfx: string, signal: int, id: Option<string>, K: Kernels, E: seq<Column>, j: nat)
    requires Rectangular(F) && Distinct(Names(F.columns)) && StageOneFacts(F, out, cols, sfx)
    requires id.Some? ==> id.value in Names(Passthrough(F.columns, cols))
    requires j < |cols| && j < |E| && SignalEvaluated(out, cols, sfx, signal, id, K, E, j)
    ensures |Passthrough(F.columns, cols)| + j < |out.columns|
    ensures SignalColumn(F, E[j], out.columns[|Passthrough(F.columns, cols)| + j], signal, IdKeys(id), K)
  {
    var n := |Passthrough(F.columns, cols)|;
    var e := E[j];
    assert |e.cells| == F.height;
    forall i | 0 <= i < F.height
      ensures e.cells[i] == K.ewm(signal, Pick(out.columns[n + j].cells, SeenRows(F, IdKeys(id), i)))
    {
      SignalCells(F, out, cols, sfx, signal, id, K, j, i);
    }
  }

  /** Line columns stay where they are when columns are appended. */
  lemma {:induction false} LineOutputsKept(F: Frame, out: Frame, r: Frame, cols: seq<string>, fast: int, slow: int, id: Option<string>, K: Kernels)
    requires Rectangular(F) && LineOutputs(F, out, cols, fast, slow, id, K)
    requires |out.columns| <= |r.columns| && r.columns[..|out.columns|] == out.columns
    ensures LineOutputs(F, r, cols, fast, slow, id, K)
  {
    var n := |Passthrough(F.columns, cols)|;
    forall j | 0 <= j < |cols| ensures LineColumn(F, r.columns[n + j], cols[j], fast, slow, IdKeys(id), K) {
      PrefixAt(out.columns, r.columns, n + j);
    }
  }

  /** A sequence that starts with another agrees with it at every position
      of the shorter one. */
  lemma {:induction false} PrefixAt<T>(A: seq<T>, B: seq<T>, k: nat)
    requires |A| <= |B| && B[..|A|] == A && k < |A|
    ensures B[k] == A[k]
  {
    assert B[..|A|][k] == B[k];
  }

  /** The signal columns are fresh in the first stage's output, so
      `with_columns` appends them. */
  lemma {:induction false} UpsertAppends(F: Frame, out: Frame, cols: seq<string>, sfx: string, E: seq<Column>)
    requires StageOneFacts(F, out, cols, sfx) && SignalsAreNew(cols, sfx) && SignalsFresh(F, cols, sfx)
    requires Names(E) == SuffixedNames(SuffixedNames(cols, sfx), SignalSuffix) && Distinct(Names(E))
    ensures Upsert(out.columns, E) == out.columns + E
    ensures var P := Passthrough(F.columns, cols);
      && (out.columns + E)[..|P|] == P
      && Names(out.columns + E) == Names(P) + SuffixedNames(cols, sfx) + SuffixedNames(SuffixedNames(cols, sfx), SignalSuffix)
  {
    var P := Passthrough(F.columns, cols);
    assert Names(out.columns) == Names(P) + SuffixedNames(cols, sfx);
    forall k | 0 <= k < |E| ensures E[k].name !in Names(out.columns) {
      assert E[k].name == Names(E)[k] == cols[k] + sfx + SignalSuffix;
    }
    UpsertFresh(out.columns, E);
    assert (out.columns + E)[..|P|] == out.columns[..|P|];
    NamesAppend(out.columns, E);
  }

  /** `macd` succeeds exactly when the OHLC columns are numeric, the three
      spans are accepted, the identifier exists and is not an OHLC column,
      and no other column is named like a MACD line. */
  lemma {:induction false} MacdOk(F: Frame, fast: int, slow: int, signal: int, id: Option<string>, K: Kernels)
    requires Rectangular(F) && Distinct(Names(F.columns))
    ensures Macd(F, fast, slow, signal, id, K).Ok? <==> MacdAccepts(F, Ohlc, fast, slow, signal, id, MacdSuffix(fast, slow))
  {
    SourceColumnsDistinct();
    OhlcMacdNames(fast, slow);
    MacdOnOk(F, Ohlc, fast, slow, signal, id, MacdSuffix(fast, slow), K);
  }

  /** The table `macd` returns, when no other column is named like a signal:
      the non-OHLC columns unchanged, then `c + "_macd_{fast}_{slow}"` for
      each OHLC column c, then the same names with `_signal`. */
  lemma {:induction false} MacdShape(F: Frame, fast: int, slow: int, signal: int, id: Option<string>, K: Kernels)
    requires Rectangular(F) && Distinct(Names(F.columns))
    requires SignalsFresh(F, Ohlc, MacdSuffix(fast, slow))
    requires Macd(F, fast, slow, signal, id, K).Ok?
    ensures var r := Macd(F, fast, slow, signal, id, K).value;
      var P := Passthrough(F.columns, Ohlc);
      var lines := SuffixedNames(Ohlc, MacdSuffix(fast, slow));
      && r.height == F.height
      && |r.columns| == |P| + 8
      && r.columns[..|P|] == P
      && Names(r.columns) == Names(P) + lines + SuffixedNames(lines, SignalSuffix)
  {
    SourceColumnsDistinct();
    OhlcMacdNames(fast, slow);
    MacdOnShape(F, Ohlc, fast, slow, signal, id, MacdSuffix(fast, slow), K);
  }

  /** The values `macd` returns: each MACD line is the slow EWM minus the
      fast EWM of its OHLC column, and each signal line the EWM of its MACD
      line, over each instrument's rows when an identifier is given. */
  lemma {:induction false} MacdValues(F: Frame, fast: int, slow: int, signal: int, id: Option<string>, K: Kernels)
    requires Rectangular(F) && Distinct(Names(F.columns))
    requires SignalsFresh(F, Ohlc, MacdSuffix(fast, slow))
    requires Macd(F, fast, slow, signal, id, K).Ok?
    ensures LineOutputs(F, Macd(F, fast, slow, signal, id, K).value, Ohlc, fast, slow, id, K)
    ensures SignalOutputs(F, Macd(F, fast, slow, signal, id, K).value, Ohlc, signal, id, K)
  {
    SourceColumnsDistinct();
    OhlcMacdNames(fast, slow);
    MacdOnValues(F, Ohlc, fast, slow, signal, id, MacdSuffix(fast, slow), K);
  }
}
