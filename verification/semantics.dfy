/** What the row values of the plans mean: grouped evaluation is per-group
    evaluation re-interleaved, and a windowed column reads exactly the earlier
    rows of its own group. */
module Semantics {
  import opened Base
  import opened Frames
  import opened Windows
  import opened Groups
  import opened Exprs

  lemma {:induction false} RowKeysRestrict(F: Frame, g: seq<nat>, keys: seq<string>)
    requires Rectangular(F) && InRange(g, F.height)
    ensures RowKeys(Restrict(F, g), keys) == Pick(RowKeys(F, keys), g)
  {
    var R := Restrict(F, g);
    forall t | 0 <= t < |keys| {
      ColumnCellsRestrict(F, g, keys[t]);
    }
    forall x | 0 <= x < |g| ensures RowKeys(R, keys)[x] == RowKeys(F, keys)[g[x]] {
      assert forall t :: 0 <= t < |keys| ==> ColumnCells(R, keys[t])[x] == ColumnCells(F, keys[t])[g[x]];
    }
  }

  /** Evaluating on the sub-table of the rows `g` is evaluating on the
      original table with those rows as the context. */
  lemma {:induction false} ValuesRestrict(F: Frame, g: seq<nat>, e: Expr, c: seq<nat>, j: nat, K: Kernels)
    requires Rectangular(F) && InRange(g, F.height) && InRange(c, |g|)
    requires Resolves(F, e) && j < Width(F, e)
    ensures InRange(Pick(g, c), F.height)
    ensures Resolves(Restrict(F, g), e) && Width(Restrict(F, g), e) == Width(F, e)
    ensures Values(Restrict(F, g), e, c, j, K) == Values(F, e, Pick(g, c), j, K)
    decreases e, 0
  {
    var R := Restrict(F, g);
    var gc := Pick(g, c);
    match e
    case Cols(ns) =>
      ColumnCellsRestrict(F, g, ns[j]);
      PickPick(ColumnCells(F, ns[j]), g, c);
    case AllExcept(ex) =>
      var name := Keep(SchemaOf(F), ex)[j].0;
      ColumnCellsRestrict(F, g, name);
      PickPick(ColumnCells(F, name), g, c);
    case Rolling(agg, inner, w, mp) =>
      ValuesRestrict(F, g, inner, c, j, K);
    case Ewm(inner, span) =>
      ValuesRestrict(F, g, inner, c, j, K);
    case Binary(op, l, r) =>
      ValuesRestrict(F, g, l, c, 0, K);
      ValuesRestrict(F, g, r, c, 0, K);
    case DivBy(inner, d) =>
      ValuesRestrict(F, g, inner, c, j, K);
    case Suffix(inner, _) =>
      ValuesRestrict(F, g, inner, c, j, K);
    case Alias(inner, _) =>
      ValuesRestrict(F, g, inner, c, 0, K);
    case Over(inner, keys) =>
      OverValuesRestrict(F, g, inner, keys, c, j, K);
  }

  /** The grouped case of `ValuesRestrict`, cell by cell. */
  lemma {:induction false} OverValuesRestrict(F: Frame, g: seq<nat>, inner: Expr, keys: seq<string>, c: seq<nat>, j: nat, K: Kernels)
    requires Rectangular(F) && InRange(g, F.height) && InRange(c, |g|)
    requires Resolves(F, inner) && j < Width(F, inner)
    ensures InRange(Pick(g, c), F.height)
    ensures Values(Restrict(F, g), Over(inner, keys), c, j, K) == Values(F, Over(inner, keys), Pick(g, c), j, K)
    decreases inner, 2
  {
    var R := Restrict(F, g);
    var gc := Pick(g, c);
    forall p | 0 <= p < |c|
      ensures OverCell(R, inner, keys, c, p, j, K) == OverCell(F, inner, keys, gc, p, j, K)
    {
      OverCellRestrict(F, g, inner, keys, c, p, j, K);
    }
  }

  /** The group of c[p] in the sub-table, mapped back through `g`, is the
      group of the mapped row, and it sits at the same position. */
  lemma {:induction false} GroupOfRestrictedRow(F: Frame, g: seq<nat>, keys: seq<string>, c: seq<nat>, p: nat)
    requires Rectangular(F) && InRange(g, F.height) && InRange(c, |g|) && p < |c|
    ensures InRange(Pick(g, c), F.height)
    ensures var rkR := RowKeys(Restrict(F, g), keys);
      var rkF := RowKeys(F, keys);
      var gc := Pick(g, c);
      && rkR[c[p]] == rkF[gc[p]]
      && InRange(GroupRows(rkR, c, rkR[c[p]]), |g|)
      && Pick(g, GroupRows(rkR, c, rkR[c[p]])) == GroupRows(rkF, gc, rkF[gc[p]])
      && |GroupRows(rkR, c[..p], rkR[c[p]])| == |GroupRows(rkF, gc[..p], rkF[gc[p]])|
  {
    var rkF := RowKeys(F, keys);
    var gc := Pick(g, c);
    RowKeysRestrict(F, g, keys);
    var k := rkF[gc[p]];
    GroupRowsPick(rkF, g, c, k);
    GroupRowsPick(rkF, g, c[..p], k);
    assert gc[..p] == Pick(g, c[..p]);
  }

  lemma {:induction false} OverCellRestrict(F: Frame, g: seq<nat>, inner: Expr, keys: seq<string>, c: seq<nat>, p: nat, j: nat, K: Kernels)
    requires Rectangular(F) && InRange(g, F.height) && InRange(c, |g|) && p < |c|
    requires Resolves(F, inner) && j < Width(F, inner)
    ensures InRange(Pick(g, c), F.height)
    ensures Resolves(Restrict(F, g), inner) && Width(Restrict(F, g), inner) == Width(F, inner)
    ensures OverCell(Restrict(F, g), inner, keys, c, p, j, K) == OverCell(F, inner, keys, Pick(g, c), p, j, K)
    decreases inner, 1
  {
    var R := Restrict(F, g);
    var gc := Pick(g, c);
    var rkR, rkF := RowKeys(R, keys), RowKeys(F, keys);
    GroupOfRestrictedRow(F, g, keys, c, p);
    var k := rkR[c[p]];
    var gR, gF := GroupRows(rkR, c, k), GroupRows(rkF, gc, k);
    var qR, qF := |GroupRows(rkR, c[..p], k)|, |GroupRows(rkF, gc[..p], k)|;
    assert qR == qF;
    assert Pick(g, gR) == gF;
    GroupPosition(rkR, c, p);
    GroupPosition(rkF, gc, p);
    ValuesRestrict(F, g, inner, gR, j, K);
    assert Values(R, inner, gR, j, K) == Values(F, inner, gF, j, K);
    assert OverCell(R, inner, keys, c, p, j, K) == Values(R, inner, gR, j, K)[qR];
    assert OverCell(F, inner, keys, gc, p, j, K) == Values(F, inner, gF, j, K)[qF];
  }

  /** The grouped value at row i is the inner expression computed on the
      sub-table of i's group alone, read at i's position in that group:
      computing per group and re-interleaving gives the grouped result. */
  lemma {:induction false} OverIsPerGroup(F: Frame, inner: Expr, keys: seq<string>, j: nat, K: Kernels, i: nat)
    requires Rectangular(F) && i < F.height
    requires Resolves(F, Over(inner, keys)) && j < Width(F, Over(inner, keys))
    ensures var rk := RowKeys(F, keys);
      var G := GroupRows(rk, AllRows(F.height), rk[i]);
      var q := |GroupRows(rk, AllRows(i), rk[i])|;
      && q < |G| && G[q] == i
      && Resolves(Restrict(F, G), inner) && j < Width(Restrict(F, G), inner)
      && Values(F, Over(inner, keys), AllRows(F.height), j, K)[i]
         == Values(Restrict(F, G), inner, AllRows(|G|), j, K)[q]
  {
    var n := F.height;
    var rk := RowKeys(F, keys);
    var G := GroupRows(rk, AllRows(n), rk[i]);
    assert AllRows(n)[..i] == AllRows(i);
    GroupPosition(rk, AllRows(n), i);
    ValuesRestrict(F, G, inner, AllRows(|G|), j, K);
    PickAllRows(G);
  }

  /** No leakage across groups: two tables with the same schema and keys whose
      cells agree on the rows of one group give the same grouped values on
      those rows, whatever the other groups hold. */
  lemma {:induction false} NoCrossGroupLeakage(F1: Frame, F2: Frame, inner: Expr, keys: seq<string>, j: nat, K: Kernels, i: nat)
    requires Rectangular(F1) && Rectangular(F2) && F1.height == F2.height && i < F1.height
    requires SchemaOf(F1) == SchemaOf(F2)
    requires RowKeys(F1, keys) == RowKeys(F2, keys)
    requires forall t, r :: 0 <= t < |F1.columns| && 0 <= r < F1.height && RowKeys(F1, keys)[r] == RowKeys(F1, keys)[i]
               ==> F1.columns[t].cells[r] == F2.columns[t].cells[r]
    requires Resolves(F1, Over(inner, keys)) && j < Width(F1, Over(inner, keys))
    ensures Values(F1, Over(inner, keys), AllRows(F1.height), j, K)[i]
         == Values(F2, Over(inner, keys), AllRows(F2.height), j, K)[i]
  {
    var rk := RowKeys(F1, keys);
    var G := GroupRows(rk, AllRows(F1.height), rk[i]);
    OverIsPerGroup(F1, inner, keys, j, K, i);
    OverIsPerGroup(F2, inner, keys, j, K, i);
    RestrictAgree(F1, F2, G);
  }

  /** Two tables that agree on some rows have the same sub-table of those rows. */
  lemma {:induction false} RestrictAgree(F1: Frame, F2: Frame, G: seq<nat>)
    requires Rectangular(F1) && Rectangular(F2) && F1.height == F2.height
    requires SchemaOf(F1) == SchemaOf(F2) && InRange(G, F1.height)
    requires forall t, p :: 0 <= t < |F1.columns| && 0 <= p < |G| ==> F1.columns[t].cells[G[p]] == F2.columns[t].cells[G[p]]
    ensures Restrict(F1, G) == Restrict(F2, G)
  {
    var R1, R2 := Restrict(F1, G), Restrict(F2, G);
    assert |F1.columns| == |F2.columns|;
    forall t | 0 <= t < |F1.columns| ensures R1.columns[t] == R2.columns[t] {
      assert SchemaOf(F1)[t] == SchemaOf(F2)[t];
      assert Pick(F1.columns[t].cells, G) == Pick(F2.columns[t].cells, G);
    }
  }

  // ---------------------------------------------------------------------
  // Windowed columns: a rolling aggregate or an EWM of listed columns.
  // ---------------------------------------------------------------------

  predicate IsWindowed(e: Expr) {
    && (e.Rolling? || e.Ewm?)
    && e.input.Cols?
    && (e.Rolling? ==> WindowOk(e.window, e.minPeriods))
  }

  /** The value a windowed expression gives at the last row of a series prefix. */
  function KernelAt(K: Kernels, e: Expr, prefix: seq<Cell>): Cell
    requires IsWindowed(e)
  {
    if e.Rolling? then
      var m := if e.minPeriods.Some? then e.minPeriods.value else e.window;
      RollCell(e.agg, K, NatOf(e.window), NatOf(m), prefix)
    else K.ewm(e.span, prefix)
  }

  lemma {:induction false} WindowedAt(F: Frame, e: Expr, ctx: seq<nat>, j: nat, K: Kernels, p: nat)
    requires Rectangular(F) && InRange(ctx, F.height) && p < |ctx|
    requires IsWindowed(e) && Resolves(F, e) && j < Width(F, e)
    ensures j < |e.input.names|
    ensures Values(F, e, ctx, j, K)[p] == KernelAt(K, e, Pick(ColumnCells(F, e.input.names[j]), ctx[..p + 1]))
  {
    InputWidth(F, e);
    InputPrefix(F, e.input, ctx, j, K, p);
    if e.Rolling? {
      RollingCellAt(F, e.agg, e.input, e.window, e.minPeriods, ctx, j, K, p);
    } else {
      EwmCellAt(F, e.input, e.span, ctx, j, K, p);
    }
  }

  /** A rolling aggregate at position p aggregates its input up to p. */
  lemma {:induction false} RollingCellAt(F: Frame, agg: WindowAgg, input: Expr, w: int, mp: Option<int>, ctx: seq<nat>, j: nat, K: Kernels, p: nat)
    requires Rectangular(F) && InRange(ctx, F.height) && p < |ctx|
    ensures var m := if mp.Some? then mp.value else w;
      Values(F, Rolling(agg, input, w, mp), ctx, j, K)[p] == RollCell(agg, K, NatOf(w), NatOf(m), Values(F, input, ctx, j, K)[..p + 1])
  {
  }

  /** An EWM at position p smooths its input up to p. */
  lemma {:induction false} EwmCellAt(F: Frame, input: Expr, span: int, ctx: seq<nat>, j: nat, K: Kernels, p: nat)
    requires Rectangular(F) && InRange(ctx, F.height) && p < |ctx|
    ensures Values(F, Ewm(input, span), ctx, j, K)[p] == K.ewm(span, Values(F, input, ctx, j, K)[..p + 1])
  {
  }

  /** A windowed expression has one output per input column. */
  lemma {:induction false} InputWidth(F: Frame, e: Expr)
    requires (e.Rolling? || e.Ewm?) && Resolves(F, e)
    ensures Resolves(F, e.input) && Width(F, e.input) == Width(F, e)
  {
  }

  /** The values of listed columns, up to position p, are their cells at those rows. */
  lemma {:induction false} InputPrefix(F: Frame, input: Expr, ctx: seq<nat>, j: nat, K: Kernels, p: nat)
    requires Rectangular(F) && InRange(ctx, F.height) && p < |ctx|
    requires input.Cols? && Resolves(F, input) && j < Width(F, input)
    ensures j < |input.names|
    ensures Values(F, input, ctx, j, K)[..p + 1] == Pick(ColumnCells(F, input.names[j]), ctx[..p + 1])
  {
  }

  /** Ungrouped, row i of a windowed column reads rows 0..i of its column. */
  lemma {:induction false} WindowedColumnAtRow(F: Frame, e: Expr, j: nat, K: Kernels, i: nat)
    requires Rectangular(F) && i < F.height
    requires IsWindowed(e) && Resolves(F, e) && j < Width(F, e)
    ensures j < |e.input.names|
    ensures Values(F, e, AllRows(F.height), j, K)[i] == KernelAt(K, e, ColumnCells(F, e.input.names[j])[..i + 1])
  {
    WindowedAt(F, e, AllRows(F.height), j, K, i);
    PickRowsPrefix(ColumnCells(F, e.input.names[j]), i + 1);
  }

  // ---------------------------------------------------------------------
  // No look-ahead: what a row sees.
  // ---------------------------------------------------------------------

  /** A row's value never depends on the rows after it in its context. */
  lemma {:induction false} Causal(F: Frame, e: Expr, ctx: seq<nat>, p: nat, j: nat, K: Kernels)
    requires Rectangular(F) && InRange(ctx, F.height) && p < |ctx|
    requires Resolves(F, e) && j < Width(F, e)
    ensures Values(F, e, ctx[..p + 1], j, K)[p] == Values(F, e, ctx, j, K)[p]
    decreases e, 2
  {
    match e
    case Cols(_) =>
    case AllExcept(_) =>
    case Rolling(_, _, _, _) =>
      CausalWindowed(F, e, ctx, p, j, K);
    case Ewm(_, _) =>
      CausalWindowed(F, e, ctx, p, j, K);
    case Binary(_, _, _) =>
      CausalBinary(F, e, ctx, p, K);
    case DivBy(inner, _) =>
      Causal(F, inner, ctx, p, j, K);
    case Over(inner, keys) =>
      OverCellCausal(F, inner, keys, ctx, p, j, K);
    case Suffix(inner, _) =>
      Causal(F, inner, ctx, p, j, K);
    case Alias(inner, _) =>
      Causal(F, inner, ctx, p, 0, K);
  }

  /** A window kernel at a row reads only the prefix of its input ending there. */
  lemma {:induction false} CausalWindowed(F: Frame, e: Expr, ctx: seq<nat>, p: nat, j: nat, K: Kernels)
    requires Rectangular(F) && InRange(ctx, F.height) && p < |ctx|
    requires (e.Rolling? || e.Ewm?) && Resolves(F, e) && j < Width(F, e)
    ensures Values(F, e, ctx[..p + 1], j, K)[p] == Values(F, e, ctx, j, K)[p]
    decreases e, 1
  {
    var pre := ctx[..p + 1];
    InputWidth(F, e);
    PrefixAgree(F, e.input, ctx, p, j, K);
    var v := Values(F, e.input, pre, j, K);
    assert v[..p + 1] == v;
    assert v[..p + 1] == Values(F, e.input, ctx, j, K)[..p + 1];
    if e.Rolling? {
      RollingCellAt(F, e.agg, e.input, e.window, e.minPeriods, pre, j, K, p);
      RollingCellAt(F, e.agg, e.input, e.window, e.minPeriods, ctx, j, K, p);
    } else {
      EwmCellAt(F, e.input, e.span, pre, j, K, p);
      EwmCellAt(F, e.input, e.span, ctx, j, K, p);
    }
  }

  /** Arithmetic at a row combines its operands at that row. */
  lemma {:induction false} CausalBinary(F: Frame, e: Expr, ctx: seq<nat>, p: nat, K: Kernels)
    requires Rectangular(F) && InRange(ctx, F.height) && p < |ctx|
    requires e.Binary? && Resolves(F, e) && 0 < Width(F, e)
    ensures Values(F, e, ctx[..p + 1], 0, K)[p] == Values(F, e, ctx, 0, K)[p]
    decreases e, 1
  {
    Causal(F, e.left, ctx, p, 0, K);
    Causal(F, e.right, ctx, p, 0, K);
  }

  lemma {:induction false} OverCellCausal(F: Frame, inner: Expr, keys: seq<string>, ctx: seq<nat>, p: nat, j: nat, K: Kernels)
    requires Rectangular(F) && InRange(ctx, F.height) && p < |ctx|
    requires Resolves(F, inner) && j < Width(F, inner)
    ensures OverCell(F, inner, keys, ctx[..p + 1], p, j, K) == OverCell(F, inner, keys, ctx, p, j, K)
    decreases inner, 3
  {
    var rk := RowKeys(F, keys);
    var k := rk[ctx[p]];
    var g := GroupRows(rk, ctx, k);
    var q := |GroupRows(rk, ctx[..p], k)|;
    GroupPosition(rk, ctx, p);
    OverCellOnPrefix(F, inner, keys, ctx, p, j, K);
    Causal(F, inner, g, q, j, K);
  }

  /** On the prefix ending at ctx[p], a grouped cell reads its group's rows
      up to and including ctx[p]. */
  lemma {:induction false} OverCellOnPrefix(F: Frame, inner: Expr, keys: seq<string>, ctx: seq<nat>, p: nat, j: nat, K: Kernels)
    requires Rectangular(F) && InRange(ctx, F.height) && p < |ctx|
    requires Resolves(F, inner) && j < Width(F, inner)
    ensures var rk := RowKeys(F, keys);
      var g := GroupRows(rk, ctx, rk[ctx[p]]);
      var q := |GroupRows(rk, ctx[..p], rk[ctx[p]])|;
      && q < |g| && InRange(g[..q + 1], F.height)
      && OverCell(F, inner, keys, ctx[..p + 1], p, j, K) == Values(F, inner, g[..q + 1], j, K)[q]
  {
    var pre := ctx[..p + 1];
    var rk := RowKeys(F, keys);
    GroupPosition(rk, ctx, p);
    GroupPosition(rk, pre, p);
    assert pre[..p] == ctx[..p];
    assert pre[..p + 1] == pre;
  }

  /** The values of an expression on a prefix of the context agree with its
      values on the whole context, row by row. */
  lemma {:induction false} PrefixAgree(F: Frame, e: Expr, ctx: seq<nat>, p: nat, j: nat, K: Kernels)
    requires Rectangular(F) && InRange(ctx, F.height) && p < |ctx|
    requires Resolves(F, e) && j < Width(F, e)
    ensures Values(F, e, ctx[..p + 1], j, K) == Values(F, e, ctx, j, K)[..p + 1]
    decreases e, 3
  {
    var pre := ctx[..p + 1];
    forall x | 0 <= x <= p ensures Values(F, e, pre, j, K)[x] == Values(F, e, ctx, j, K)[x] {
      Causal(F, e, pre, x, j, K);
      Causal(F, e, ctx, x, j, K);
      assert pre[..x + 1] == ctx[..x + 1];
    }
  }

  /** The rows row i sees, in order and ending with i itself: every row up to
      i, or, grouped, those of them whose key equals row i's key. */
  function SeenRows(F: Frame, keys: Option<seq<string>>, i: nat): (rows: seq<nat>)
    requires Rectangular(F) && i < F.height
    ensures InRange(rows, F.height) && |rows| >= 1 && rows[|rows| - 1] == i
  {
    if keys.None? then AllRows(i + 1)
    else
      var rk := RowKeys(F, keys.value);
      var ctx := AllRows(i + 1);
      assert ctx[..|ctx| - 1] == AllRows(i);
      GroupRows(rk, ctx, rk[i])
  }

  /** Row i of a grouped expression is the inner expression computed on the
      rows 0..i of row i's group, read at row i. */
  lemma {:induction false} OverAtRow(F: Frame, e: Expr, keys: seq<string>, j: nat, K: Kernels, i: nat)
    requires Rectangular(F) && i < F.height
    requires Resolves(F, e) && j < Width(F, e)
    ensures var rows := SeenRows(F, Some(keys), i);
      OverCell(F, e, keys, AllRows(F.height), i, j, K) == Values(F, e, rows, j, K)[|rows| - 1]
  {
    var all := AllRows(F.height);
    var rk := RowKeys(F, keys);
    var h := GroupRows(rk, all[..i + 1], rk[all[i]]);
    SeenRowsGrouped(F, keys, i);
    OverCellAtLast(F, e, keys, all, i, j, K);
    assert SeenRows(F, Some(keys), i) == h;
  }

  /** Grouped, the rows row i sees are those of the first i + 1 rows that
      share row i's key. */
  lemma {:induction false} SeenRowsGrouped(F: Frame, keys: seq<string>, i: nat)
    requires Rectangular(F) && i < F.height
    ensures var all := AllRows(F.height); var rk := RowKeys(F, keys);
      SeenRows(F, Some(keys), i) == GroupRows(rk, all[..i + 1], rk[all[i]])
  {
    var all := AllRows(F.height);
    assert all[..i + 1] == AllRows(i + 1);
  }

  /** A grouped cell is the inner expression computed on the rows of its
      group up to it, read at the last of them. */
  lemma {:induction false} OverCellAtLast(F: Frame, inner: Expr, keys: seq<string>, ctx: seq<nat>, p: nat, j: nat, K: Kernels)
    requires Rectangular(F) && InRange(ctx, F.height) && p < |ctx|
    requires Resolves(F, inner) && j < Width(F, inner)
    ensures var rk := RowKeys(F, keys);
      var h := GroupRows(rk, ctx[..p + 1], rk[ctx[p]]);
      |h| >= 1 && OverCell(F, inner, keys, ctx, p, j, K) == Values(F, inner, h, j, K)[|h| - 1]
  {
    var rk := RowKeys(F, keys);
    var k := rk[ctx[p]];
    var g := GroupRows(rk, ctx, k);
    var q := |GroupRows(rk, ctx[..p], k)|;
    var h := GroupRows(rk, ctx[..p + 1], k);
    GroupPosition(rk, ctx, p);
    OverCellIs(F, inner, keys, ctx, p, j, K);
    Causal(F, inner, g, q, j, K);
    assert |h| - 1 == q;
  }

  /** Row i of an expression, grouped or not, is the expression computed on
      exactly the rows row i sees, read at its last row. */
  lemma {:induction false} GroupedAtRow(F: Frame, e: Expr, keys: Option<seq<string>>, j: nat, K: Kernels, i: nat)
    requires Rectangular(F) && i < F.height
    requires Resolves(F, Grouped(e, keys)) && j < Width(F, Grouped(e, keys))
    ensures Resolves(F, e) && j < Width(F, e)
    ensures var rows := SeenRows(F, keys, i);
      Values(F, Grouped(e, keys), AllRows(F.height), j, K)[i] == Values(F, e, rows, j, K)[|rows| - 1]
  {
    var all := AllRows(F.height);
    if keys.None? {
      assert all[..i + 1] == AllRows(i + 1);
      Causal(F, e, all, i, j, K);
    } else {
      OverAtRow(F, e, keys.value, j, K, i);
      assert Values(F, Over(e, keys.value), all, j, K)[i] == OverCell(F, e, keys.value, all, i, j, K);
    }
  }

  /** The value of a windowed column, grouped or not, at row i. */
  function WindowedValue(F: Frame, e: Expr, j: nat, keys: Option<seq<string>>, i: nat, K: Kernels): Cell
    requires Rectangular(F) && i < F.height && IsWindowed(e) && j < |e.input.names|
  {
    KernelAt(K, e, Pick(ColumnCells(F, e.input.names[j]), SeenRows(F, keys, i)))
  }

  /** Row i of a windowed column, grouped or not, applies the kernel to its
      column's cells on exactly the rows row i sees. */
  lemma {:induction false} GroupedWindowedAtRow(F: Frame, e: Expr, keys: Option<seq<string>>, j: nat, K: Kernels, i: nat)
    requires Rectangular(F) && i < F.height
    requires IsWindowed(e) && Resolves(F, Grouped(e, keys)) && j < Width(F, Grouped(e, keys))
    ensures j < |e.input.names|
    ensures Values(F, Grouped(e, keys), AllRows(F.height), j, K)[i] == WindowedValue(F, e, j, keys, i, K)
  {
    if keys.None? {
      assert Grouped(e, keys) == e;
      UngroupedWindowedAtRow(F, e, j, K, i);
    } else {
      assert Grouped(e, keys) == Over(e, keys.value);
      assert Resolves(F, e) && Width(F, Over(e, keys.value)) == Width(F, e);
      OverWindowedAtRow(F, e, keys.value, j, K, i);
    }
  }

  /** Ungrouped, row i of a windowed column is its kernel on rows 0..i. */
  lemma {:induction false} UngroupedWindowedAtRow(F: Frame, e: Expr, j: nat, K: Kernels, i: nat)
    requires Rectangular(F) && i < F.height
    requires IsWindowed(e) && Resolves(F, e) && j < Width(F, e)
    ensures j < |e.input.names|
    ensures Values(F, e, AllRows(F.height), j, K)[i] == WindowedValue(F, e, j, None, i, K)
  {
    var all := AllRows(F.height);
    WindowedAt(F, e, all, j, K, i);
    assert all[..i + 1] == AllRows(i + 1);
    WindowedValueIs(F, e, None, j, K, i);
  }

  /** Grouped, row i of a windowed column is its kernel on the rows 0..i of
      row i's group. */
  lemma {:induction false} OverWindowedAtRow(F: Frame, e: Expr, keys: seq<string>, j: nat, K: Kernels, i: nat)
    requires Rectangular(F) && i < F.height
    requires IsWindowed(e) && Resolves(F, e) && j < Width(F, e)
    ensures j < |e.input.names|
    ensures Values(F, Over(e, keys), AllRows(F.height), j, K)[i] == WindowedValue(F, e, j, Some(keys), i, K)
  {
    var all := AllRows(F.height);
    var rows := SeenRows(F, Some(keys), i);
    assert Values(F, Over(e, keys), all, j, K)[i] == Values(F, e, rows, j, K)[|rows| - 1] by {
      assert Values(F, Over(e, keys), all, j, K)[i] == OverCell(F, e, keys, all, i, j, K);
      OverAtRow(F, e, keys, j, K, i);
    }
    assert j < |e.input.names| && Values(F, e, rows, j, K)[|rows| - 1] == WindowedValue(F, e, j, Some(keys), i, K) by {
      WindowedAtLast(F, e, rows, j, K);
      WindowedValueIs(F, e, Some(keys), j, K, i);
    }
  }

  /** The value of a windowed column at row i is its kernel on the cells of
      the rows row i sees. */
  lemma {:induction false} WindowedValueIs(F: Frame, e: Expr, keys: Option<seq<string>>, j: nat, K: Kernels, i: nat)
    requires Rectangular(F) && i < F.height && IsWindowed(e) && j < |e.input.names|
    ensures WindowedValue(F, e, j, keys, i, K) == KernelAt(K, e, Pick(ColumnCells(F, e.input.names[j]), SeenRows(F, keys, i)))
  {
  }

  /** At the last row of a context, a windowed expression applies its kernel
      to its column's cells on the whole context. */
  lemma {:induction false} WindowedAtLast(F: Frame, e: Expr, rows: seq<nat>, j: nat, K: Kernels)
    requires Rectangular(F) && InRange(rows, F.height) && |rows| >= 1
    requires IsWindowed(e) && Resolves(F, e) && j < Width(F, e)
    ensures j < |e.input.names|
    ensures Values(F, e, rows, j, K)[|rows| - 1] == KernelAt(K, e, Pick(ColumnCells(F, e.input.names[j]), rows))
  {
    var p := |rows| - 1;
    WindowedAt(F, e, rows, j, K, p);
    KernelOnWhole(K, e, ColumnCells(F, e.input.names[j]), rows, p);
  }

  /** The prefix ending at the last position is the whole sequence. */
  lemma {:induction false} KernelOnWhole(K: Kernels, e: Expr, cells: seq<Cell>, rows: seq<nat>, p: nat)
    requires IsWindowed(e) && InRange(rows, |cells|) && p + 1 == |rows|
    ensures KernelAt(K, e, Pick(cells, rows[..p + 1])) == KernelAt(K, e, Pick(cells, rows))
  {
    assert rows[..p + 1] == rows;
  }

  // ---------------------------------------------------------------------
  // One step of `Values` for the row-wise constructors.
  // ---------------------------------------------------------------------

  lemma {:induction false} ColumnAt(F: Frame, n: string, ctx: seq<nat>, K: Kernels, p: nat)
    requires Rectangular(F) && InRange(ctx, F.height) && p < |ctx|
    ensures Values(F, Cols([n]), ctx, 0, K)[p] == ColumnCells(F, n)[ctx[p]]
  {
    assert [n][0] == n;
  }

  lemma {:induction false} BinaryAt(F: Frame, op: BinOp, l: Expr, r: Expr, ctx: seq<nat>, K: Kernels, p: nat)
    requires Rectangular(F) && InRange(ctx, F.height) && p < |ctx|
    ensures Values(F, Binary(op, l, r), ctx, 0, K)[p] == Combine(op, Values(F, l, ctx, 0, K)[p], Values(F, r, ctx, 0, K)[p])
  {
  }

  lemma {:induction false} DivByAt(F: Frame, inner: Expr, d: NonZeroReal, ctx: seq<nat>, j: nat, K: Kernels, p: nat)
    requires Rectangular(F) && InRange(ctx, F.height) && p < |ctx|
    ensures Values(F, DivBy(inner, d), ctx, j, K)[p] == Divide(Values(F, inner, ctx, j, K)[p], d)
  {
  }

  lemma {:induction false} AliasAt(F: Frame, inner: Expr, n: string, ctx: seq<nat>, j: nat, K: Kernels, p: nat)
    requires Rectangular(F) && InRange(ctx, F.height) && p < |ctx|
    ensures Values(F, Alias(inner, n), ctx, j, K)[p] == Values(F, inner, ctx, 0, K)[p]
  {
  }

  /** A grouped cell is the inner expression over its group, read at its
      position in the group. */
  lemma {:induction false} OverCellIs(F: Frame, inner: Expr, keys: seq<string>, ctx: seq<nat>, p: nat, j: nat, K: Kernels)
    requires Rectangular(F) && InRange(ctx, F.height) && p < |ctx|
    ensures var rk := RowKeys(F, keys);
      var g := GroupRows(rk, ctx, rk[ctx[p]]);
      var q := |GroupRows(rk, ctx[..p], rk[ctx[p]])|;
      q < |g| && OverCell(F, inner, keys, ctx, p, j, K) == Values(F, inner, g, j, K)[q]
  {
    GroupPosition(RowKeys(F, keys), ctx, p);
  }
}
