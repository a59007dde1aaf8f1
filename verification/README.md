# finta-polars: schema validation, column plans and windowed aggregates

This project models the part of finta-polars that is the library's own
logic rather than the polars engine's:

- **The schema validator** (`finta_polars/schemas.py`). A table's
  column→dtype mapping is accepted when it contains one of the reference
  mappings:
  - OHLC as `Float64`;
  - with volume required, OHLCV with `volume` as `Float64` or `Int64`.

  The mapping is a `seq<Field>` of (name, dtype) pairs. `validate_indicator_schema`
  either passes or fails with `SchemaError`.
- **The column plans** (`finta_polars/expressions.py`, `finta_polars/indicators.py`).
  They settle, from the input columns:
  - which columns an indicator reads: OHLC, or OHLCV when `volume` is present;
  - how the outputs are named: `c + "_sma_<period>"` and so on, with the
    period printed in decimal;
  - which columns pass through, and in what order;
  - whether every expression is partitioned by the identifier column.

  The engine's expressions are an `Expr` datatype:
  - `pl.col`;
  - `pl.all().exclude`;
  - `rolling_*`;
  - `ewm_mean`;
  - `+` and `-`;
  - division by a constant;
  - `.over`, `.suffix` and `.alias`.

  `Resolve` resolves an expression against a schema: output names and
  dtypes, or the engine's error. `select` and `with_columns` are
  `Exprs.Select` and `Exprs.WithColumns`.
- **Reference semantics of the windowed aggregates, on exact reals.**
  `Values` gives an expression's cells over a context of rows.
  - A rolling aggregate at a row looks at the trailing `window` rows of the
    context. It is null until `min_periods` non-null values are present;
    `min_periods` defaults to the window.
  - `.over(keys)` evaluates its input on the rows that share the row's key,
    in their original order.
  - The rolling mean is concrete.
  - The EWM, rolling median and rolling standard deviation are the fields of
    a `Kernels` record. Every lemma takes that record as a parameter, so
    nothing is assumed about the engine's numeric conventions except where a
    lemma's `requires` says so.

Each indicator is a function on a `Frame` returning `Result<Frame>`:
- `simple_moving_average`, `simple_moving_median`, `moving_std`,
  `exponential_moving_average`, `typical_price` and `macd`.
- The contracts state when each one succeeds.
- For the rolling and EWM indicators built on one windowed expression
  (`simple_moving_median`, `moving_std`, `exponential_moving_average` and
  the documented `simple_moving_average`), they state the exact output
  column list and the value of every output cell. The list is the
  passthrough columns first, in input order, then the suffixed columns in
  OHLCV order. The cells are expressed through the reference semantics.
  The as-written `simple_moving_average` returns the suffixed columns only.
- `typical_price` has a different shape: every input column stays in place,
  and `typical_price` is appended or, when present, replaced (see the
  `Indicators.TypicalPrice` row).
- For `macd`, the column list and the cells are stated for tables that have
  no column ending in `_signal` (see the `Indicators.MacdShape` and
  `Indicators.MacdValues` rows).
- Every parameter the source defaults has the same default here:
  - period 20;
  - MACD spans 12, 26 and 9;
  - no identifier;
  - no minimum count, grouping or suffix in `ma_expr`;
  - volume not required by the validator.

The repository's tests are restated as lemmas on the fixture tables of
`tests/conftest.py`:
- 3000 rows with `close[i] = i`;
- the same rows five times over, with a `ticker` column.

One point where the library's documentation and its code disagree; the
model follows the code:
- **Passthrough.** The docstring of `simple_moving_average`
  (finta_polars/indicators.py:108-110) says other columns are returned as
  they were given. The test at tests/test_indicators.py:33-44 expects the
  `ticker` column back as well. The function's `select` drops them (see
  Findings).

Modules, one per component:

| module | contents |
|---|---|
| `Base` | options, results, errors |
| `Frames` | dtypes, cells, columns, frames |
| `Schemas` | the validator |
| `Naming` | decimal printing of periods; suffixes |
| `Windows` | rolling kernels on reals |
| `Groups` | the rows of one key |
| `Exprs` | expressions, resolution, values, `select` and `with_columns` |
| `Semantics` | per-group and causal behaviour of values |
| `Plans` | passthrough selection and plan shapes |
| `Indicators` | the indicator functions |
| `Fixtures` | the test tables and test scenarios |

## Model

| member | source | states |
|---|---|---|
| `Schemas.CheckSchemas` | finta_polars/schemas.py:56-72 | the loop with its early `break` returns true exactly when some expected mapping has all its (name, dtype) pairs in the schema |
| `Schemas.ValidateIndicatorSchema` | finta_polars/schemas.py:29-53 | passes, or fails with `SchemaError` and nothing else. Without volume it passes iff `open`, `high`, `low` and `close` are all present as `Float64`. With volume it additionally needs `volume` as `Float64` or `Int64` |
| `Schemas.VolumeSchemaSplit` | finta_polars/schemas.py:11-20 | containing a volume reference mapping means containing the OHLC pairs and the one `volume` pair |
| `Schemas.CheckOrderIrrelevant` | finta_polars/schemas.py:67-72 | reordering the expected mappings never changes the verdict |
| `Schemas.SupersetStaysAccepted` | finta_polars/schemas.py:69 | adding columns to an accepted schema keeps it accepted: the check is a subset check, not equality |
| `Schemas.VolumeAcceptedImpliesBaseAccepted` | finta_polars/schemas.py:5-20 | a schema accepted with volume required is accepted without it |
| `Schemas.OhlcColumnMismatchRejected` | finta_polars/schemas.py:69 | if an OHLC column is absent or has any dtype other than `Float64`, validation fails with `SchemaError`: a wrong dtype fails the same way as a missing column |
| `Schemas.VolumeMismatchRejected` | finta_polars/schemas.py:19-20 | with volume required, a `volume` that is missing or neither `Float64` nor `Int64` fails with `SchemaError` |
| `Schemas.SchemaTestCases` | tests/test_schemas.py:8-66 | these four schemas: the OHLC floats pass; with an `Int64` volume they pass with volume required; without `open` they fail; OHLC alone fails when volume is required |
| `Exprs.AddIdentifierOver` | finta_polars/expressions.py:4-13 | a single expression becomes a one-element list. The length is preserved. Without keys the list is unchanged; with keys, element i is element i partitioned by exactly those keys |
| `Exprs.MaExpr` | finta_polars/expressions.py:16-38 | one expression per input column, in order. Element i is the rolling mean of `columns[i]` alone, with the given window and minimum count. It is partitioned by the grouping columns iff they are given, and carries the given suffix |
| `Indicators.MaResolvesAt` | finta_polars/expressions.py:32-37 | element i of the plan, for any minimum count and keys, resolves iff column i is numeric, the window and minimum count are valid and the keys exist; it then has the single output `columns[i] + suffix` |
| `Indicators.SuffixedNamesDistinctIff` | finta_polars/expressions.py:37 | appending the same suffix to every name keeps the names distinct exactly when they were distinct |
| `Indicators.MaSelectCell` | finta_polars/expressions.py:32-36 | row i of element j's output is the rolling mean of column j, with the given window and minimum count, over the rows row i sees under the given keys |
| `Indicators.MaPlanResolves` | finta_polars/expressions.py:16-37 | for any minimum count and any grouping keys, every element of the rolling-mean plan resolves iff every column exists and is numeric and, when there is at least one column, the window and minimum count are valid and the keys exist. Output i is then a single column named `columns[i] + suffix` |
| `Indicators.MaSelectOk` | finta_polars/expressions.py:16-38 | selecting the plan succeeds iff, in addition, the column names are distinct: a repeated column gives two outputs with the same name |
| `Indicators.MaSelect` | finta_polars/expressions.py:16-38 | on success the selection keeps the row count and yields exactly the suffixed names. Column j at row i is the rolling mean, with the given window and minimum count, of column j over the rows row i sees under the given keys (all earlier rows when ungrouped) |
| `Indicators.MaDefaultKeepsNames` | finta_polars/expressions.py:16-21 | with the defaults (no minimum count, no grouping, empty suffix) the plan selects successfully iff the columns are distinct and numeric and, when there is at least one column, the window is at least 1, and the output names are the input names unchanged |
| `Windows.RollingMeanNoNulls` | finta_polars/expressions.py:33 | with the default minimum periods, rows before `w - 1` are null. Row `i >= w - 1` is the mean of rows `i - w + 1 .. i` |
| `Windows.RollingFullWindow` | finta_polars/expressions.py:33 | for any of the three aggregates, a full trailing window of non-null values gives the aggregate of exactly those `w` values |
| `Windows.RollingMeanOfIndexSeries` | tests/conftest.py:9-13 | on the series `0, 1, 2, ...` the rolling mean at row `i >= w - 1` is `i - (w - 1) / 2` |
| `Groups.GroupRowsMembers` | finta_polars/expressions.py:12 | a row is in a key's group iff it is in the context and carries that key |
| `Groups.GroupPosition` | finta_polars/expressions.py:12 | the row at position p sits in its key's group at the position given by the number of earlier rows with that key. The group's rows up to it are exactly the group of the context up to p, in the original order |
| `Semantics.OverIsPerGroup` | finta_polars/expressions.py:12 | `e.over(keys)` at row i equals `e` computed on that row's group alone, taken at the row's position in the group. This is computing per group and re-interleaving |
| `Semantics.NoCrossGroupLeakage` | finta_polars/expressions.py:12 | two tables that agree on every row with row i's key give the same `over` value at row i, whatever the other groups hold |
| `Semantics.Causal` | finta_polars/expressions.py:33 | an expression's value at a row depends only on that row and the ones before it |
| `Semantics.GroupedWindowedAtRow` | finta_polars/expressions.py:11-12 | a windowed expression, partitioned or not, is at row i the kernel applied to the column's cells at the rows row i sees. Those rows are all rows up to i, or only the ones with row i's key |
| `Semantics.OverAtRow` | finta_polars/expressions.py:12 | `over` at row i is the inner expression evaluated on the rows row i sees, taken at its last row |
| `Indicators.SourceColumnsDistinct` | finta_polars/indicators.py:13-14 | the OHLC and OHLCV lists have no repeated name |
| `Indicators.GetOhlcvColumns` | finta_polars/indicators.py:41-56 | fails with `SchemaError` exactly when validation fails, volume being required iff a `volume` column exists. Otherwise it returns OHLCV iff `volume` is present, else OHLC, and those columns are numeric |
| `Indicators.ValidatedColumnsNumeric` | finta_polars/indicators.py:50-56 | once validation passes, every column the indicator will read resolves to a numeric dtype |
| `Indicators.VolumeOfWrongDtypeRejected` | finta_polars/indicators.py:50-52 | a text `volume` column makes every OHLCV indicator fail with `SchemaError`, because its presence switches on the volume check |
| `Indicators.AddIdentifier` | finta_polars/indicators.py:59-68 | one expression per input. Each one is partitioned by `[identifier]` iff an identifier is given, and is left unchanged otherwise |
| `Indicators.ApplyWindowed` | finta_polars/indicators.py:71-85 | `_apply_expr` with a windowed expression succeeds iff the read columns are numeric, the parameters are accepted, the identifier exists and no passthrough column is named like an output. The output is then the passthrough columns in input order, followed by `c + suffix` for each read column, holding the windowed values |
| `Plans.AllExceptColumns` | finta_polars/indicators.py:83 | `pl.all().exclude(cols)` yields exactly the input columns not in `cols`, in order and unchanged |
| `Plans.PassthroughMembers` | finta_polars/indicators.py:83 | a column passes through iff it is an input column whose name is not read |
| `Plans.ColumnCellsKept` | finta_polars/indicators.py:82-85 | a passthrough column holds the same cells in the output as in the input |
| `Plans.PassthroughPlanDistinct` | finta_polars/indicators.py:82-85 | the passthrough names followed by the suffixed names are all distinct iff no read column's suffixed name is already the name of a passthrough column |
| `Indicators.SimpleMovingAverage` | finta_polars/indicators.py:89-115 | fails with `SchemaError` iff validation fails. It succeeds iff validation passes, the period is at least 1 and the identifier exists. The output has the input's height and exactly the columns `c + "_sma_<period>"`, no passthrough, each holding the rolling mean over the rows a row sees |
| `Indicators.SimpleMovingAverageWithPassthrough` | finta_polars/indicators.py:107-110 | the documented SMA: passthrough columns first, then the `_sma_<period>` columns with the rolling means. It succeeds under the same conditions as the other indicators |
| `Indicators.SmaDropsPassthrough` | finta_polars/indicators.py:112-115 | whenever the documented SMA succeeds, the SMA as written succeeds. Its output is the documented output with the passthrough columns cut off |
| `Indicators.SimpleMovingMedian` | finta_polars/indicators.py:119-145 | errors, success condition, column list and cells as for the documented SMA, with suffix `_smm_<period>` and the median kernel |
| `Indicators.MovingStd` | finta_polars/indicators.py:149-175 | the same, with suffix `_msd_<period>` and the standard-deviation kernel |
| `Indicators.ExponentialMovingAverage` | finta_polars/indicators.py:179-205 | the same, with suffix `_ema_<period>`; each cell is the EWM kernel over the rows the row sees |
| `Indicators.TypicalPriceResolves` | finta_polars/indicators.py:222-224 | the typical-price expression resolves iff `high`, `low` and `close` are numeric columns. It then gives one column named `typical_price` |
| `Indicators.TypicalCell` | finta_polars/indicators.py:223 | a typical-price cell is a number iff all three inputs are, and then three times it is `high + low + close` |
| `Indicators.TypicalPrice` | finta_polars/indicators.py:209-225 | succeeds iff `high`, `low` and `close` are numeric, with no schema validation. Every input column is kept in place. `typical_price` is appended, or replaced where it already exists, and holds `(high + low + close) / 3` at every row |
| `Indicators.MacdOk` | finta_polars/indicators.py:302-339 | `macd` succeeds iff the OHLC columns are numeric, the three spans are at least 1, the identifier exists and is not an OHLC column, and no passthrough column is named like a MACD line. Volume is never validated |
| `Indicators.MacdShape` | finta_polars/indicators.py:329-339 | the output keeps the height. It has the passthrough columns (including `volume`), then the four `c_macd_F_S` lines, then the four `c_macd_F_S_signal` columns |
| `Indicators.MacdValues` | finta_polars/indicators.py:331-339 | each line is EWM(slow) minus EWM(fast) of its OHLC column. Each signal is the EWM(signal) of its line column. Both are taken over the rows a row sees, per identifier when one is given |
| `Indicators.MacdOnOk` | finta_polars/indicators.py:329-339 | for any read columns and suffix, the two-stage plan succeeds exactly under `MacdAccepts` |
| `Indicators.IdAfterFirstStage` | finta_polars/indicators.py:335-337 | after the line stage the identifier is still a column iff it was not one of the read columns: the second stage can only re-partition by a passthrough column |
| `Indicators.SeenRowsKept` | finta_polars/indicators.py:336-337 | re-partitioning the first stage's output by the identifier sees the same rows as partitioning the input |
| `Indicators.SignalCells` | finta_polars/indicators.py:336-338 | a signal cell is the EWM(signal) of its line column over the rows the row sees in the input |
| `Indicators.OhlcMacdNames` | finta_polars/indicators.py:329-338 | no OHLC name is a MACD line name, and no signal name is a line name |
| `Naming.ParseIntToString` | finta_polars/indicators.py:142 | the decimal text of the period in an f-string reads back as the same integer, negative periods included |
| `Naming.PeriodSuffixInjective` | finta_polars/indicators.py:142 | different periods give different `_<tag>_<period>` suffixes |
| `Naming.MacdSuffixInjective` | finta_polars/indicators.py:329 | `_macd_<fast>_<slow>` determines both spans |
| `Naming.ConcreteSuffixes` | finta_polars/indicators.py:114 | period 5 gives `_sma_5`, period 20 gives `_msd_20`, and spans 12 and 26 give `_macd_12_26` |
| `Fixtures.OhlcvDfWellFormed` | tests/conftest.py:5-15 | the 3000-row fixture is a well-formed table whose columns are exactly the OHLCV list |
| `Fixtures.MultipleCompaniesDfWellFormed` | tests/conftest.py:18-33 | the 15000-row fixture is well-formed, with the OHLCV columns followed by `ticker` |
| `Fixtures.MeanOfFive` | tests/test_indicators.py:16 | the mean of five consecutive integers is the middle one |
| `Fixtures.StdOfFive` | tests/test_indicators.py:86 | for a sample standard deviation, five consecutive integers give the non-negative root of 2.5 |
| `Fixtures.SmaNoVolume` | tests/test_indicators.py:12-17 | SMA(5) on the table without volume: 3000 rows, the four `_sma_5` columns in order, last `close_sma_5` equal to 2997 |
| `Fixtures.SmaVolume` | tests/test_indicators.py:20-30 | SMA(5) on the OHLCV table: 3000 rows, the five `_sma_5` columns, last `volume_sma_5` equal to 2997 |
| `Fixtures.SmaMultipleCompaniesAsWritten` | tests/test_indicators.py:33-44 | SMA(5) as written on the multi-company table: 15000 rows and the five `_sma_5` columns, without the `ticker` the test expects. The last `volume_sma_5` is 2997 |
| `Fixtures.SmaMultipleCompanies` | tests/test_indicators.py:33-44 | the documented SMA(5) on the multi-company table: 15000 rows, `ticker` then the five `_sma_5` columns, last `volume_sma_5` equal to 2997 |
| `Fixtures.SmmNoVolume` | tests/test_indicators.py:47-52 | SMM(5) without volume: 3000 rows, the four `_smm_5` columns, last `close_smm_5` equal to 2997 for a median that picks the middle of an odd sorted window |
| `Fixtures.SmmVolume` | tests/test_indicators.py:55-65 | SMM(5) with volume: 3000 rows, the five `_smm_5` columns, last `volume_smm_5` equal to 2997 |
| `Fixtures.SmmMultipleCompanies` | tests/test_indicators.py:68-79 | SMM(5) on the multi-company table: 15000 rows, `ticker` then the five `_smm_5` columns, last `volume_smm_5` equal to 2997 |
| `Fixtures.MsdNoVolume` | tests/test_indicators.py:82-87 | MSD(5) without volume: 3000 rows, the four `_msd_5` columns. The last `close_msd_5` is the non-negative root of 2.5 for a sample standard deviation |
| `Fixtures.MsdVolume` | tests/test_indicators.py:90-100 | MSD(5) with volume: 3000 rows, the five `_msd_5` columns, last `volume_msd_5` equal to the root of 2.5 |
| `Fixtures.MsdMultipleCompanies` | tests/test_indicators.py:103-114 | MSD(5) on the multi-company table: 15000 rows, `ticker` then the five `_msd_5` columns, last `volume_msd_5` equal to the root of 2.5 |

## Left out

- `make_lazy` (finta_polars/indicators.py:17-38) converts eager frames to lazy ones. `.collect()` and query optimisation have no observable effect on the columns or values, so tables are modelled as plain values.
- `vwap`, `rsi` and `bbands` (finta_polars/indicators.py:228-298) have `...` as their bodies, so there is no behaviour to model.
- Floating point. All arithmetic is on exact reals.
  - The MSD tests' `1.58113` within a tolerance of `1e-4` is stated as the exact non-negative root of 2.5.
  - Float32 columns are given Float32 results, and everything else Float64, but no rounding is modelled.
- `Fixtures.SmmNoVolume`, `Fixtures.SmmVolume`, `Fixtures.SmmMultipleCompanies`: the engine's median is a parameter. These hold for any median that returns the middle element of a sorted window of odd length; the even-length convention is not modelled.
- `Fixtures.MsdNoVolume`, `Fixtures.MsdVolume`, `Fixtures.MsdMultipleCompanies`: the engine's standard deviation is a parameter. These hold for any kernel that returns the non-negative square root of the sample variance.
- Indicators.TypicalPrice: integer (`Int64`, `Int32`) `high`, `low` and `close` are summed as exact numbers. The engine sums them in the integer dtype, which wraps on overflow, before dividing by 3; that wrap-around is not modelled.
- The EWM kernel stays abstract, because its `adjust` and bias conventions live inside polars. The EMA and MACD contracts say which rows each EWM is taken over, not its value.
- The polars resolution errors are one error kind each:
  - a missing column;
  - a duplicate output name;
  - a parameter the engine rejects (window or span below 1, `min_periods` outside `1..window`);
  - a non-numeric input.

  They are kept apart from `SchemaError`; their message texts are not modelled. The text of the `PolarsSchemaError` message is not modelled either.
- The indicator functions require a rectangular frame with distinct column names, which is what a polars frame always is. The schema is then a sequence of (name, dtype) pairs standing for the `dict`.
- Only the dtypes `Float64`, `Float32`, `Int64`, `Int32` and `Utf8` are modelled.
- `expressions.py`'s `_add_identifier_over_to_expr` takes one key or a list of keys; both are modelled as a list. The `indicators.py` copy takes a single identifier, which becomes a one-key list.
- `Indicators.MacdShape`, `Indicators.MacdValues`: stated only when no passthrough column already carries a `_signal` name. Such a column would be overwritten in place by `with_columns` rather than appended; the success condition (`Indicators.MacdOk`) covers that case as well.
- The benchmark files, `noxfile.py` and the comparisons against `finta` are timing scripts and environment setup, not library behaviour.
- Multi-threaded execution inside the engine is not modelled; results are defined row by row.

## Findings

| source | as written | input that shows it | evidently intended | confidence | as-written member | corrected member |
|---|---|---|---|---|---|---|
| finta_polars/indicators.py:112-115 | `simple_moving_average` selects only the suffixed moving-average columns, so every non-OHLCV column is dropped | the multi-company fixture: the output has the five `_sma_5` columns and no `ticker` (`Fixtures.SmaMultipleCompaniesAsWritten`). The test at tests/test_indicators.py:33-44 expects six columns with `ticker` first. `Indicators.SmaDropsPassthrough` shows the output is always the documented output with the passthrough columns cut off | other columns are returned as they were given, as the docstring (lines 108-110) says and as the other indicators do through `_apply_expr`; `Fixtures.SmaMultipleCompanies` gives the test's six columns | high; not executed | `Indicators.SimpleMovingAverage` | `Indicators.SimpleMovingAverageWithPassthrough` |
