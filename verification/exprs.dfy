/** Column expressions (the engine's expression language, restricted to what
    the indicators build), their static resolution against a schema, and
    their row values. */
module Exprs {
  import opened Base
  import opened Frames
  import opened Windows
  import opened Groups

  datatype BinOp = Plus | Minus

  type NonZeroReal = r: real | r != 0.0 witness 1.0

  datatype Expr =
    | Cols(names: seq<string>)                  // pl.col(name) or pl.col([names])
    | AllExcept(excluded: seq<string>)          // pl.all().exclude(names)
    | Rolling(agg: WindowAgg, input: Expr, window: int, minPeriods: Option<int>)
    | Ewm(input: Expr, span: int)               // .ewm_mean(span=...)
    | Binary(op: BinOp, left: Expr, right: Expr)
    | DivBy(input: Expr, divisor: NonZeroReal)
    | Over(input: Expr, keys: seq<string>)      // .over(keys)
    | Suffix(input: Expr, suffix: string)       // .suffix(s)
    | Alias(input: Expr, name: string)          // .alias(name)

  /** A single expression or a list of them, as the helpers accept either. */
  datatype ExprArg = One(e: Expr) | Many(es: seq<Expr>)

  function Items(arg: ExprArg): seq<Expr> {
    match arg
    case One(e) => [e]
    case Many(es) => es
  }

  // ---------------------------------------------------------------------
  // Static resolution: output names and dtypes, or the engine's error.
  // ---------------------------------------------------------------------

  /** Looks up each name; the first missing one is reported. */
  function ResolveNames(S: seq<Field>, ns: seq<string>): (r: Result<seq<Field>>)
    ensures r.Ok? <==> forall j :: 0 <= j < |ns| ==> ns[j] in FieldNames(S)
    ensures r.Ok? ==> |r.value| == |ns|
    ensures r.Ok? ==> forall j :: 0 <= j < |ns| ==> r.value[j] == S[IndexOf(S, ns[j])]
    ensures r.Err? ==> r.error.ColumnNotFound? && r.error.name in ns && r.error.name !in FieldNames(S)
  {
    if |ns| == 0 then Ok([])
    else
      var k := IndexOf(S, ns[0]);
      if k == |S| then Err(ColumnNotFound(ns[0]))
      else
        var rest := ResolveNames(S, ns[1..]);
        if rest.Err? then rest else Ok([S[k]] + rest.value)
  }

  /** The fields whose name is not excluded, in schema order. */
  function Keep(S: seq<Field>, ex: seq<string>): (r: seq<Field>)
    ensures |r| <= |S|
    ensures forall j :: 0 <= j < |r| ==> r[j] in S && r[j].0 !in ex
  {
    if |S| == 0 then []
    else Keep(S[..|S| - 1], ex) + (if S[|S| - 1].0 !in ex then [S[|S| - 1]] else [])
  }

  predicate AllNumeric(fs: seq<Field>) {
    forall j :: 0 <= j < |fs| ==> IsNumeric(fs[j].1)
  }

  function Floats(fs: seq<Field>): (r: seq<Field>)
    ensures |r| == |fs|
    ensures forall j :: 0 <= j < |fs| ==> r[j] == (fs[j].0, FloatOf(fs[j].1))
  {
    seq(|fs|, j requires 0 <= j < |fs| => (fs[j].0, FloatOf(fs[j].1)))
  }

  function Suffixed(fs: seq<Field>, s: string): (r: seq<Field>)
    ensures |r| == |fs|
    ensures forall j :: 0 <= j < |fs| ==> r[j] == (fs[j].0 + s, fs[j].1)
  {
    seq(|fs|, j requires 0 <= j < |fs| => (fs[j].0 + s, fs[j].1))
  }

  /** Window parameters the engine accepts: a positive window and, when
      given, a minimum period count between 1 and the window. */
  predicate WindowOk(w: int, minPeriods: Option<int>) {
    w >= 1 && (minPeriods.Some? ==> 1 <= minPeriods.value <= w)
  }

  function Resolve(S: seq<Field>, e: Expr): (r: Result<seq<Field>>)
    ensures r.Err? ==> r.error != SchemaError
    decreases e
  {
    match e
    case Cols(ns) => ResolveNames(S, ns)
    case AllExcept(ex) => Ok(Keep(S, ex))
    case Rolling(_, inner, w, mp) =>
      var fs :- Resolve(S, inner);
      if !WindowOk(w, mp) then Err(EngineRejects)
      else if !AllNumeric(fs) then Err(InvalidOperation)
      else Ok(Floats(fs))
    case Ewm(inner, span) =>
      var fs :- Resolve(S, inner);
      if span < 1 then Err(EngineRejects)
      else if !AllNumeric(fs) then Err(InvalidOperation)
      else Ok(Floats(fs))
    case Binary(_, l, r) =>
      var a :- Resolve(S, l);
      var b :- Resolve(S, r);
      if |a| != 1 || |b| != 1 then Err(EngineRejects)
      else if !IsNumeric(a[0].1) || !IsNumeric(b[0].1) then Err(InvalidOperation)
      else Ok([(a[0].0, Supertype(a[0].1, b[0].1))])
    case DivBy(inner, _) =>
      var fs :- Resolve(S, inner);
      if !AllNumeric(fs) then Err(InvalidOperation) else Ok(Floats(fs))
    case Over(inner, keys) =>
      var ks :- ResolveNames(S, keys);
      Resolve(S, inner)
    case Suffix(inner, s) =>
      var fs :- Resolve(S, inner);
      Ok(Suffixed(fs, s))
    case Alias(inner, n) =>
      var fs :- Resolve(S, inner);
      if |fs| != 1 then Err(EngineRejects) else Ok([(n, fs[0].1)])
  }

  predicate Resolves(F: Frame, e: Expr) {
    Resolve(SchemaOf(F), e).Ok?
  }

  function Width(F: Frame, e: Expr): nat
    requires Resolves(F, e)
  {
    |Resolve(SchemaOf(F), e).value|
  }

  // ---------------------------------------------------------------------
  // Row values. `ctx` is the sequence of rows the expression sees, in
  // order: every row of the table at top level, one group's rows inside
  // `over`. Window kernels look at the prefix of `ctx` ending at a row.
  // ---------------------------------------------------------------------

  /** The grouping key of every row: its cells in the key columns. */
  function RowKeys(F: Frame, keys: seq<string>): (rk: seq<seq<Cell>>)
    requires Rectangular(F)
    ensures |rk| == F.height
  {
    seq(F.height, r requires 0 <= r < F.height =>
      seq(|keys|, t requires 0 <= t < |keys| => ColumnCells(F, keys[t])[r]))
  }

  /** A window size as the kernels take it; accepted windows are positive. */
  function NatOf(w: int): nat { if w < 0 then 0 else w }

  function Combine(op: BinOp, a: Cell, b: Cell): Cell {
    if a.Num? && b.Num? then
      (match op case Plus => Num(a.x + b.x) case Minus => Num(a.x - b.x))
    else Null
  }

  function Divide(a: Cell, d: NonZeroReal): Cell {
    if a.Num? then Num(a.x / d) else Null
  }

  function Values(F: Frame, e: Expr, ctx: seq<nat>, j: nat, K: Kernels): (cs: seq<Cell>)
    requires Rectangular(F) && InRange(ctx, F.height)
    ensures |cs| == |ctx|
    decreases e, 0
  {
    match e
    case Cols(ns) => if j < |ns| then Pick(ColumnCells(F, ns[j]), ctx) else seq(|ctx|, _ => Null)
    case AllExcept(ex) =>
      var kept := Keep(SchemaOf(F), ex);
      if j < |kept| then Pick(ColumnCells(F, kept[j].0), ctx) else seq(|ctx|, _ => Null)
    case Rolling(agg, inner, w, mp) =>
      var v := Values(F, inner, ctx, j, K);
      var m := if mp.Some? then mp.value else w;
      seq(|ctx|, p requires 0 <= p < |ctx| => RollCell(agg, K, NatOf(w), NatOf(m), v[..p + 1]))
    case Ewm(inner, span) =>
      var v := Values(F, inner, ctx, j, K);
      seq(|ctx|, p requires 0 <= p < |ctx| => K.ewm(span, v[..p + 1]))
    case Binary(op, l, r) =>
      var a := Values(F, l, ctx, 0, K);
      var b := Values(F, r, ctx, 0, K);
      seq(|ctx|, p requires 0 <= p < |ctx| => Combine(op, a[p], b[p]))
    case DivBy(inner, d) =>
      var v := Values(F, inner, ctx, j, K);
      seq(|ctx|, p requires 0 <= p < |ctx| => Divide(v[p], d))
    case Over(inner, keys) =>
      seq(|ctx|, p requires 0 <= p < |ctx| => OverCell(F, inner, keys, ctx, p, j, K))
    case Suffix(inner, _) => Values(F, inner, ctx, j, K)
    case Alias(inner, _) => Values(F, inner, ctx, 0, K)
  }

  /** The value of a grouped expression at ctx[p]: the inner expression
      evaluated on the rows of ctx sharing ctx[p]'s key, read at ctx[p]'s
      position among them. */
  function OverCell(F: Frame, inner: Expr, keys: seq<string>, ctx: seq<nat>, p: nat, j: nat, K: Kernels): Cell
    requires Rectangular(F) && InRange(ctx, F.height) && p < |ctx|
    decreases inner, 1
  {
    var rk := RowKeys(F, keys);
    var k := rk[ctx[p]];
    var g := GroupRows(rk, ctx, k);
    var q := |GroupRows(rk, ctx[..p], k)|;
    GroupPosition(rk, ctx, p);
    Values(F, inner, g, j, K)[q]
  }

  // ---------------------------------------------------------------------
  // Query operations.
  // ---------------------------------------------------------------------

  /** The output columns of one expression over the whole table. */
  function EvalExpr(F: Frame, e: Expr, K: Kernels): (r: Result<seq<Column>>)
    requires Rectangular(F)
    ensures r.Ok? <==> Resolves(F, e)
    ensures r.Ok? ==> |r.value| == Width(F, e)
    ensures r.Ok? ==> forall j :: 0 <= j < |r.value| ==>
      && (r.value[j].name, r.value[j].dtype) == Resolve(SchemaOf(F), e).value[j]
      && |r.value[j].cells| == F.height
    ensures r.Err? ==> r.error != SchemaError
  {
    var fs :- Resolve(SchemaOf(F), e);
    Ok(seq(|fs|, j requires 0 <= j < |fs| => Column(fs[j].0, fs[j].1, Values(F, e, AllRows(F.height), j, K))))
  }

  /** The output columns of a list of expressions, in order; the first
      failing expression decides the error. */
  function EvalList(F: Frame, es: seq<Expr>, K: Kernels): (r: Result<seq<Column>>)
    requires Rectangular(F)
    ensures r.Ok? <==> forall i :: 0 <= i < |es| ==> Resolves(F, es[i])
    ensures r.Ok? ==> forall j :: 0 <= j < |r.value| ==> |r.value[j].cells| == F.height
    ensures r.Err? ==> r.error != SchemaError
  {
    if |es| == 0 then Ok([])
    else
      var first :- EvalExpr(F, es[0], K);
      var rest :- EvalList(F, es[1..], K);
      assert forall i :: 1 <= i < |es| ==> es[i] == es[1..][i - 1];
      Ok(first + rest)
  }

  /** `df.select(exprs)`: exactly the expressions' outputs, same height; two
      outputs with one name are an error. */
  function Select(F: Frame, es: seq<Expr>, K: Kernels): (r: Result<Frame>)
    requires Rectangular(F)
    ensures r.Ok? ==> Rectangular(r.value) && r.value.height == F.height
    ensures r.Ok? ==> Distinct(Names(r.value.columns))
    ensures r.Ok? <==> EvalList(F, es, K).Ok? && Distinct(Names(EvalList(F, es, K).value))
    ensures r.Ok? ==> r.value.columns == EvalList(F, es, K).value
    ensures r.Err? ==> r.error != SchemaError
  {
    var cols :- EvalList(F, es, K);
    if !Distinct(Names(cols)) then Err(DuplicateColumn) else Ok(Frame(F.height, cols))
  }

  /** Puts one column in place of the column of the same name, or at the end
      when there is none. */
  function Put(base: seq<Column>, c: Column): (r: seq<Column>)
    ensures c.name in Names(base) ==> |r| == |base|
    ensures c.name !in Names(base) ==> r == base + [c]
    ensures forall i :: 0 <= i < |base| ==> r[i] == (if base[i].name == c.name && IndexOf(Fields(base), c.name) == i then c else base[i])
  {
    var k := IndexOf(Fields(base), c.name);
    if k < |base| then base[k := c] else base + [c]
  }

  function Upsert(base: seq<Column>, news: seq<Column>): (r: seq<Column>)
    ensures |r| >= |base|
    decreases |news|
  {
    if |news| == 0 then base else Upsert(Put(base, news[0]), news[1..])
  }

  /** `df.with_columns(exprs)`: the outputs replace same-named columns in
      place and the others are appended, in order. */
  function WithColumns(F: Frame, es: seq<Expr>, K: Kernels): (r: Result<Frame>)
    requires Rectangular(F)
    ensures r.Ok? <==> EvalList(F, es, K).Ok? && Distinct(Names(EvalList(F, es, K).value))
    ensures r.Ok? ==> r.value == Frame(F.height, Upsert(F.columns, EvalList(F, es, K).value))
    ensures r.Err? ==> r.error != SchemaError
  {
    var cols :- EvalList(F, es, K);
    if !Distinct(Names(cols)) then Err(DuplicateColumn) else Ok(Frame(F.height, Upsert(F.columns, cols)))
  }

  /** The expression grouped by the key columns when they are given. */
  function Grouped(e: Expr, keys: Option<seq<string>>): Expr {
    if keys.Some? then Over(e, keys.value) else e
  }

  // ---------------------------------------------------------------------
  // The plan builders of the expressions module.
  // ---------------------------------------------------------------------

  /** `_add_identifier_over_to_expr`: a single expression becomes a
      one-element list, and every element is grouped by the key columns when
      they are given. */
  function AddIdentifierOver(arg: ExprArg, over: Option<seq<string>>): (r: seq<Expr>)
    ensures |r| == |Items(arg)|
    ensures arg.One? ==> |r| == 1
    ensures over.None? ==> r == Items(arg)
    ensures over.Some? ==> forall i :: 0 <= i < |r| ==>
      r[i].Over? && r[i].keys == over.value && r[i].input == Items(arg)[i]
  {
    var es := Items(arg);
    if over.None? then es
    else seq(|es|, i requires 0 <= i < |es| => Over(es[i], over.value))
  }

  /** `ma_expr`: one rolling mean per column, in column order, grouped when
      `over` is given, named `c + suffix`. Element i reads `columns[i]` alone
      as a rolling mean with the given window and minimum count. By default
      there is no minimum count, no grouping and no suffix. */
  function MaExpr(columns: seq<string>, window: int, minPeriods: Option<int> := None, over: Option<seq<string>> := None, suffix: string := ""): (r: seq<Expr>)
    ensures |r| == |columns|
    ensures forall i :: 0 <= i < |r| ==>
      r[i] == Suffix(Grouped(Rolling(Mean, Cols([columns[i]]), window, minPeriods), over), suffix)
    ensures forall i :: 0 <= i < |r| ==> (r[i].input.Over? <==> over.Some?)
  {
    var rolled := seq(|columns|, i requires 0 <= i < |columns| => Rolling(Mean, Cols([columns[i]]), window, minPeriods));
    var grouped := AddIdentifierOver(Many(rolled), over);
    assert forall i :: 0 <= i < |grouped| ==> (grouped[i].Over? <==> over.Some?);
    seq(|grouped|, i requires 0 <= i < |grouped| => Suffix(grouped[i], suffix))
  }
}
