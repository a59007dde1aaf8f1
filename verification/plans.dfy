/** Facts about the shape of query results: which columns a select or
    with_columns produces, in which order, and which pass through untouched. */
module Plans {
  import opened Base
  import opened Frames
  import opened Windows
  import opened Exprs
  import Naming

  /** The output fields of a list of resolvable expressions, concatenated. */
  function OutFields(S: seq<Field>, es: seq<Expr>): seq<Field>
    requires forall i :: 0 <= i < |es| ==> Resolve(S, es[i]).Ok?
  {
    if |es| == 0 then []
    else
      assert forall i :: 1 <= i < |es| ==> es[i] == es[1..][i - 1];
      Resolve(S, es[0]).value + OutFields(S, es[1..])
  }

  lemma {:induction false} EvalListFields(F: Frame, es: seq<Expr>, K: Kernels)
    requires Rectangular(F)
    requires forall i :: 0 <= i < |es| ==> Resolves(F, es[i])
    ensures EvalList(F, es, K).Ok?
    ensures Fields(EvalList(F, es, K).value) == OutFields(SchemaOf(F), es)
  {
    if |es| > 0 {
      assert forall i :: 1 <= i < |es| ==> es[i] == es[1..][i - 1];
      EvalListFields(F, es[1..], K);
      EvalListCons(F, es, K);
      EvalExprFields(F, es[0], K);
      FieldsAppend(EvalExpr(F, es[0], K).value, EvalList(F, es[1..], K).value);
    }
  }

  /** A resolving list evaluates to its first expression's columns, then the rest's. */
  lemma {:induction false} EvalListCons(F: Frame, es: seq<Expr>, K: Kernels)
    requires Rectangular(F) && |es| > 0
    requires forall i :: 0 <= i < |es| ==> Resolves(F, es[i])
    ensures Resolves(F, es[0]) && EvalList(F, es[1..], K).Ok?
    ensures EvalList(F, es, K).value == EvalExpr(F, es[0], K).value + EvalList(F, es[1..], K).value
  {
    assert forall i :: 1 <= i < |es| ==> es[i] == es[1..][i - 1];
  }

  /** The columns of a resolving expression carry exactly its resolved fields. */
  lemma {:induction false} EvalExprFields(F: Frame, e: Expr, K: Kernels)
    requires Rectangular(F) && Resolves(F, e)
    ensures Fields(EvalExpr(F, e, K).value) == Resolve(SchemaOf(F), e).value
  {
  }

  lemma {:induction false} FieldsAppend(a: seq<Column>, b: seq<Column>)
    ensures Fields(a + b) == Fields(a) + Fields(b)
  {
  }

  lemma {:induction false} EvalListOne(F: Frame, a: Expr, K: Kernels)
    requires Rectangular(F) && Resolves(F, a)
    ensures EvalList(F, [a], K) == Ok(EvalExpr(F, a, K).value)
  {
    assert [a][1..] == [];
    assert EvalList(F, [], K) == Ok([]);
    var first := EvalExpr(F, a, K).value;
    assert first + [] == first;
  }

  lemma {:induction false} EvalListPair(F: Frame, a: Expr, b: Expr, K: Kernels)
    requires Rectangular(F) && Resolves(F, a) && Resolves(F, b)
    ensures EvalList(F, [a, b], K) == Ok(EvalExpr(F, a, K).value + EvalExpr(F, b, K).value)
  {
    assert [a, b][1..] == [b];
    EvalListOne(F, b, K);
  }

  /** With unique names, a column is found at its own index. */
  lemma {:induction false} IndexOfDistinct(S: seq<Field>, k: nat)
    requires Distinct(FieldNames(S)) && k < |S|
    ensures IndexOf(S, S[k].0) == k
  {
  }

  lemma {:induction false} PairInDistinct(S: seq<Field>, f: Field)
    requires Distinct(FieldNames(S)) && f in S
    ensures IndexOf(S, f.0) < |S| && S[IndexOf(S, f.0)] == f
  {
    var k :| 0 <= k < |S| && S[k] == f;
    IndexOfDistinct(S, k);
  }

  lemma {:induction false} ColumnCellsOfMember(F: Frame, k: nat)
    requires Rectangular(F) && Distinct(Names(F.columns)) && k < |F.columns|
    ensures ColumnCells(F, F.columns[k].name) == F.columns[k].cells
  {
    IndexOfDistinct(SchemaOf(F), k);
  }

  /** The columns whose name is not excluded, in table order, unchanged. */
  function Passthrough(cols: seq<Column>, ex: seq<string>): (r: seq<Column>)
    ensures |r| <= |cols|
  {
    if |cols| == 0 then []
    else
      var last := cols[|cols| - 1];
      Passthrough(cols[..|cols| - 1], ex) + (if last.name !in ex then [last] else [])
  }

  lemma {:induction false} PassthroughFields(cols: seq<Column>, ex: seq<string>)
    ensures Fields(Passthrough(cols, ex)) == Keep(Fields(cols), ex)
  {
    if |cols| > 0 {
      var init := cols[..|cols| - 1];
      var last := cols[|cols| - 1];
      assert Fields(cols)[..|cols| - 1] == Fields(init);
      PassthroughFields(init, ex);
      var tail := if last.name !in ex then [last] else [];
      assert Fields(Passthrough(init, ex) + tail) == Fields(Passthrough(init, ex)) + Fields(tail);
    }
  }

  /** Passthrough keeps exactly the non-excluded columns. */
  lemma {:induction false} PassthroughMembers(cols: seq<Column>, ex: seq<string>, c: Column)
    ensures c in Passthrough(cols, ex) <==> c in cols && c.name !in ex
  {
    if |cols| > 0 {
      var init := cols[..|cols| - 1];
      PassthroughMembers(init, ex, c);
      assert cols == init + [cols[|cols| - 1]];
    }
  }

  lemma {:induction false} PassthroughDistinct(cols: seq<Column>, ex: seq<string>)
    requires Distinct(Names(cols))
    ensures Distinct(Names(Passthrough(cols, ex)))
  {
    if |cols| > 0 {
      var init := cols[..|cols| - 1];
      var last := cols[|cols| - 1];
      assert Distinct(Names(init)) by {
        assert forall i :: 0 <= i < |init| ==> Names(init)[i] == Names(cols)[i];
      }
      PassthroughDistinct(init, ex);
      var p := Passthrough(init, ex);
      if last.name !in ex {
        forall j | 0 <= j < |p| ensures p[j].name != last.name {
          assert p[j] in p;
          PassthroughMembers(init, ex, p[j]);
          var i :| 0 <= i < |init| && init[i] == p[j];
          assert Names(cols)[i] != Names(cols)[|cols| - 1];
        }
        var r := p + [last];
        forall a, b | 0 <= a < b < |r| ensures Names(r)[a] != Names(r)[b] {
          if b < |p| {
            assert Names(p)[a] != Names(p)[b];
          }
        }
      }
    }
  }

  /** `pl.all().exclude(ex)` yields the non-excluded columns as they are. */
  lemma {:induction false} AllExceptColumns(F: Frame, ex: seq<string>, K: Kernels)
    requires Rectangular(F) && Distinct(Names(F.columns))
    ensures EvalExpr(F, AllExcept(ex), K) == Ok(Passthrough(F.columns, ex))
  {
    var P := Passthrough(F.columns, ex);
    var fs := Keep(SchemaOf(F), ex);
    PassthroughFields(F.columns, ex);
    assert Fields(P) == fs;
    var r := EvalExpr(F, AllExcept(ex), K).value;
    assert |r| == |P|;
    forall j | 0 <= j < |P| ensures r[j] == P[j] {
      assert P[j] in P;
      PassthroughMembers(F.columns, ex, P[j]);
      var k :| 0 <= k < |F.columns| && F.columns[k] == P[j];
      ColumnCellsOfMember(F, k);
      assert fs[j].0 == P[j].name;
      assert r[j].cells == Pick(ColumnCells(F, fs[j].0), AllRows(F.height));
      PickAllRows(P[j].cells);
    }
    assert r == P;
    assert EvalExpr(F, AllExcept(ex), K) == Ok(r);
  }

  /** The names `c + suffix` for each column, in order. */
  function SuffixedNames(cols: seq<string>, s: string): (ns: seq<string>)
    ensures |ns| == |cols|
    ensures forall i :: 0 <= i < |cols| ==> ns[i] == cols[i] + s
  {
    seq(|cols|, i requires 0 <= i < |cols| => cols[i] + s)
  }

  lemma {:induction false} SuffixedNamesDistinct(cols: seq<string>, s: string)
    requires Distinct(cols)
    ensures Distinct(SuffixedNames(cols, s))
  {
    forall a, b | 0 <= a < b < |cols| ensures cols[a] + s != cols[b] + s {
      if cols[a] + s == cols[b] + s {
        Naming.SuffixInjective(cols[a], cols[b], s);
      }
    }
  }

  /** The listed columns exist and hold numbers. */
  predicate NumericColumns(S: seq<Field>, cols: seq<string>) {
    forall i :: 0 <= i < |cols| ==> IndexOf(S, cols[i]) < |S| && IsNumeric(S[IndexOf(S, cols[i])].1)
  }

  predicate KeysPresent(S: seq<Field>, keys: Option<seq<string>>) {
    keys.Some? ==> forall t :: 0 <= t < |keys.value| ==> keys.value[t] in FieldNames(S)
  }

  /** The parameters the engine accepts for a rolling window or an EWM span. */
  predicate ParamsOk(inner: Expr)
    requires inner.Rolling? || inner.Ewm?
  {
    if inner.Rolling? then WindowOk(inner.window, inner.minPeriods) else inner.span >= 1
  }

  /** Listed columns resolve to numeric fields exactly when each exists
      and is numeric. */
  lemma {:induction false} NumericNamesResolve(S: seq<Field>, ns: seq<string>)
    ensures (ResolveNames(S, ns).Ok? && AllNumeric(ResolveNames(S, ns).value)) <==> NumericColumns(S, ns)
  {
    var r := ResolveNames(S, ns);
    if r.Ok? {
      assert forall i :: 0 <= i < |ns| ==> r.value[i] == S[IndexOf(S, ns[i])];
    }
    if NumericColumns(S, ns) {
      assert forall i :: 0 <= i < |ns| ==> ns[i] in FieldNames(S);
    }
  }

  /** A window kernel over listed columns resolves exactly when they are
      numeric and the parameters are accepted, to one float per column. */
  lemma {:induction false} WindowedInnerResolves(S: seq<Field>, inner: Expr)
    requires (inner.Rolling? || inner.Ewm?) && inner.input.Cols?
    ensures Resolve(S, inner).Ok? <==> NumericColumns(S, inner.input.names) && ParamsOk(inner)
    ensures Resolve(S, inner).Ok? ==> Resolve(S, inner).value == Floats(ResolveNames(S, inner.input.names).value)
  {
    var r := ResolveNames(S, inner.input.names);
    assert Resolve(S, inner.input) == r;
    assert r.Ok? && AllNumeric(r.value) <==> NumericColumns(S, inner.input.names) by {
      NumericNamesResolve(S, inner.input.names);
    }
  }

  /** Grouping adds the requirement that the key columns exist and changes
      nothing else about the fields. */
  lemma {:induction false} GroupedResolves(S: seq<Field>, e: Expr, keys: Option<seq<string>>)
    ensures Resolve(S, Grouped(e, keys)).Ok? <==> Resolve(S, e).Ok? && KeysPresent(S, keys)
    ensures Resolve(S, Grouped(e, keys)).Ok? ==> Resolve(S, Grouped(e, keys)) == Resolve(S, e)
  {
  }

  /** A windowed aggregate of listed columns, grouped or not, then suffixed,
      resolves exactly when the columns exist and are numeric, the window
      parameters are accepted and the key columns exist; it then yields one
      float column `c + s` per listed column. */
  lemma {:induction false} WindowedPlanResolves(S: seq<Field>, inner: Expr, keys: Option<seq<string>>, s: string)
    requires (inner.Rolling? || inner.Ewm?) && inner.input.Cols?
    ensures Resolve(S, Suffix(Grouped(inner, keys), s)).Ok?
        <==> NumericColumns(S, inner.input.names) && ParamsOk(inner) && KeysPresent(S, keys)
    ensures Resolve(S, Suffix(Grouped(inner, keys), s)).Ok? ==>
      var fs := Resolve(S, Suffix(Grouped(inner, keys), s)).value;
      && |fs| == |inner.input.names|
      && FieldNames(fs) == SuffixedNames(inner.input.names, s)
      && forall i :: 0 <= i < |fs| ==> fs[i].1 == FloatOf(S[IndexOf(S, inner.input.names[i])].1)
  {
    WindowedPlanOk(S, inner, keys, s);
    if Resolve(S, Suffix(Grouped(inner, keys), s)).Ok? {
      WindowedPlanFields(S, inner, keys, s);
    }
  }

  /** When the suffixed windowed aggregate resolves: one float field `c + s`
      per listed column c. */
  lemma {:induction false} WindowedPlanFields(S: seq<Field>, inner: Expr, keys: Option<seq<string>>, s: string)
    requires (inner.Rolling? || inner.Ewm?) && inner.input.Cols?
    requires Resolve(S, Suffix(Grouped(inner, keys), s)).Ok?
    ensures NumericColumns(S, inner.input.names)
    ensures var fs := Resolve(S, Suffix(Grouped(inner, keys), s)).value;
      && |fs| == |inner.input.names|
      && FieldNames(fs) == SuffixedNames(inner.input.names, s)
      && forall i :: 0 <= i < |fs| ==> fs[i].1 == FloatOf(S[IndexOf(S, inner.input.names[i])].1)
  {
    WindowedInnerResolves(S, inner);
    GroupedResolves(S, inner, keys);
    SuffixResolves(S, Grouped(inner, keys), s);
    SuffixedFloats(S, inner.input.names, s);
  }

  /** The suffixed windowed aggregate resolves exactly when the listed columns
      are numeric, the parameters are accepted and the keys exist. */
  lemma {:induction false} WindowedPlanOk(S: seq<Field>, inner: Expr, keys: Option<seq<string>>, s: string)
    requires (inner.Rolling? || inner.Ewm?) && inner.input.Cols?
    ensures Resolve(S, Suffix(Grouped(inner, keys), s)).Ok?
        <==> NumericColumns(S, inner.input.names) && ParamsOk(inner) && KeysPresent(S, keys)
  {
    WindowedInnerResolves(S, inner);
    GroupedResolves(S, inner, keys);
    SuffixResolves(S, Grouped(inner, keys), s);
  }

  /** A suffix renames the fields of its input and fails only when it does. */
  lemma {:induction false} SuffixResolves(S: seq<Field>, e: Expr, s: string)
    ensures Resolve(S, Suffix(e, s)).Ok? <==> Resolve(S, e).Ok?
    ensures Resolve(S, e).Ok? ==> Resolve(S, Suffix(e, s)).value == Suffixed(Resolve(S, e).value, s)
  {
  }

  /** The suffixed float fields of listed columns: one per column, named
      `c + s`, of the float type of that column. */
  lemma {:induction false} SuffixedFloats(S: seq<Field>, ns: seq<string>, s: string)
    requires ResolveNames(S, ns).Ok?
    ensures var fs := Suffixed(Floats(ResolveNames(S, ns).value), s);
      && |fs| == |ns|
      && FieldNames(fs) == SuffixedNames(ns, s)
      && forall i :: 0 <= i < |fs| ==> fs[i].1 == FloatOf(S[IndexOf(S, ns[i])].1)
  {
    var r := ResolveNames(S, ns).value;
    var fl := Floats(r);
    var fs := Suffixed(fl, s);
    forall i | 0 <= i < |ns|
      ensures IndexOf(S, ns[i]) < |S| && fs[i] == (ns[i] + s, FloatOf(S[IndexOf(S, ns[i])].1))
    {
      assert r[i] == S[IndexOf(S, ns[i])];
      assert fl[i] == (r[i].0, FloatOf(r[i].1));
    }
    assert FieldNames(fs) == SuffixedNames(ns, s);
  }

  /** A windowed aggregate is a windowed column in the sense of the semantics. */
  lemma {:induction false} WindowedPlanWidth(S: seq<Field>, inner: Expr, keys: Option<seq<string>>)
    requires Resolve(S, Grouped(inner, keys)).Ok?
    ensures Resolve(S, inner).Ok?
    ensures |Resolve(S, Grouped(inner, keys)).value| == |Resolve(S, inner).value|
  {
  }

  /** A plan `[pl.all().exclude(cols), windowed...]` selects the passthrough
      columns then the suffixed outputs; it fails only on a name clash. */
  lemma {:induction false} PassthroughPlanNames(F: Frame, cols: seq<string>, x: Expr, xs: seq<string>, K: Kernels)
    requires Rectangular(F) && Distinct(Names(F.columns))
    requires Resolves(F, x) && FieldNames(Resolve(SchemaOf(F), x).value) == xs
    ensures EvalList(F, [AllExcept(cols), x], K).Ok?
    ensures var out := EvalList(F, [AllExcept(cols), x], K).value;
      && |out| == |Passthrough(F.columns, cols)| + |xs|
      && out[..|Passthrough(F.columns, cols)|] == Passthrough(F.columns, cols)
      && Names(out) == Names(Passthrough(F.columns, cols)) + xs
  {
    AllExceptColumns(F, cols, K);
    EvalListPair(F, AllExcept(cols), x, K);
    var P := Passthrough(F.columns, cols);
    var out := EvalList(F, [AllExcept(cols), x], K).value;
    var X := EvalExpr(F, x, K).value;
    assert out == P + X;
    assert Names(X) == xs by {
      assert forall j :: 0 <= j < |X| ==> X[j].name == Resolve(SchemaOf(F), x).value[j].0;
    }
    assert Names(P + X) == Names(P) + Names(X);
  }

  /** Passthrough names and suffixed names are all distinct unless an input
      column already carries a suffixed name. */
  lemma {:induction false} PassthroughPlanDistinct(F: Frame, cols: seq<string>, s: string)
    requires Distinct(Names(F.columns)) && Distinct(cols)
    ensures Distinct(Names(Passthrough(F.columns, cols)) + SuffixedNames(cols, s))
        <==> forall i :: 0 <= i < |cols| ==> cols[i] + s !in Names(Passthrough(F.columns, cols))
  {
    var P := Names(Passthrough(F.columns, cols));
    var Q := SuffixedNames(cols, s);
    PassthroughDistinct(F.columns, cols);
    SuffixedNamesDistinct(cols, s);
    if forall i :: 0 <= i < |cols| ==> cols[i] + s !in P {
      var all := P + Q;
      forall a, b | 0 <= a < b < |all| ensures all[a] != all[b] {
        if b < |P| {
          assert P[a] != P[b];
        } else if a >= |P| {
          assert Q[a - |P|] != Q[b - |P|];
        } else {
          assert all[b] == cols[b - |P|] + s;
          assert all[a] in P;
        }
      }
    }
    if !(forall i :: 0 <= i < |cols| ==> cols[i] + s !in P) {
      var i :| 0 <= i < |cols| && cols[i] + s in P;
      var a :| 0 <= a < |P| && P[a] == cols[i] + s;
      assert (P + Q)[a] == (P + Q)[|P| + i];
    }
  }

  /** Expressions with one output each give one column each, in order. */
  lemma {:induction false} EvalListSingles(F: Frame, es: seq<Expr>, K: Kernels)
    requires Rectangular(F)
    requires forall i :: 0 <= i < |es| ==> Resolves(F, es[i]) && Width(F, es[i]) == 1
    ensures EvalList(F, es, K).Ok?
    ensures |EvalList(F, es, K).value| == |es|
    ensures forall i :: 0 <= i < |es| ==> EvalList(F, es, K).value[i] == EvalExpr(F, es[i], K).value[0]
    decreases |es|
  {
    if |es| > 0 {
      var tail := es[1..];
      assert forall i :: 0 <= i < |tail| ==> tail[i] == es[i + 1];
      EvalListSingles(F, tail, K);
      var first := EvalExpr(F, es[0], K).value;
      var rest := EvalList(F, tail, K).value;
      assert EvalList(F, es, K).value == first + rest;
    }
  }

  /** A plan of the passthrough selection followed by single-output
      expressions named `xs` gives the passthrough columns, then one column
      per expression. */
  lemma {:induction false} PassthroughThenSingles(F: Frame, cols: seq<string>, es: seq<Expr>, xs: seq<string>, K: Kernels)
    requires Rectangular(F) && Distinct(Names(F.columns)) && |xs| == |es|
    requires forall i :: 0 <= i < |es| ==>
      Resolves(F, es[i]) && Width(F, es[i]) == 1 && Resolve(SchemaOf(F), es[i]).value[0].0 == xs[i]
    ensures EvalList(F, [AllExcept(cols)] + es, K).Ok?
    ensures var out := EvalList(F, [AllExcept(cols)] + es, K).value;
      var P := Passthrough(F.columns, cols);
      && |out| == |P| + |es|
      && out[..|P|] == P
      && Names(out) == Names(P) + xs
      && forall i :: 0 <= i < |es| ==> out[|P| + i] == EvalExpr(F, es[i], K).value[0]
  {
    PassthroughThenNames(F, cols, es, xs, K);
    PassthroughThenValues(F, cols, es, xs, K);
  }

  lemma {:induction false} PassthroughThenNames(F: Frame, cols: seq<string>, es: seq<Expr>, xs: seq<string>, K: Kernels)
    requires Rectangular(F) && Distinct(Names(F.columns)) && |xs| == |es|
    requires forall i :: 0 <= i < |es| ==>
      Resolves(F, es[i]) && Width(F, es[i]) == 1 && Resolve(SchemaOf(F), es[i]).value[0].0 == xs[i]
    ensures EvalList(F, [AllExcept(cols)] + es, K).Ok?
    ensures var out := EvalList(F, [AllExcept(cols)] + es, K).value;
      var P := Passthrough(F.columns, cols);
      && |out| == |P| + |es|
      && out[..|P|] == P
      && Names(out) == Names(P) + xs
  {
    var P := Passthrough(F.columns, cols);
    PlanAfterPassthrough(F, cols, es, K);
    SinglesNames(F, es, xs, K);
    AppendParts(P, EvalList(F, es, K).value);
  }

  lemma {:induction false} PassthroughThenValues(F: Frame, cols: seq<string>, es: seq<Expr>, xs: seq<string>, K: Kernels)
    requires Rectangular(F) && Distinct(Names(F.columns)) && |xs| == |es|
    requires forall i :: 0 <= i < |es| ==>
      Resolves(F, es[i]) && Width(F, es[i]) == 1 && Resolve(SchemaOf(F), es[i]).value[0].0 == xs[i]
    ensures EvalList(F, [AllExcept(cols)] + es, K).Ok?
    ensures var out := EvalList(F, [AllExcept(cols)] + es, K).value;
      var P := Passthrough(F.columns, cols);
      && |P| + |es| <= |out|
      && forall i :: 0 <= i < |es| ==> out[|P| + i] == EvalExpr(F, es[i], K).value[0]
  {
    PlanAfterPassthrough(F, cols, es, K);
    EvalListSingles(F, es, K);
    SinglesAfter(Passthrough(F.columns, cols), EvalList(F, es, K).value, EvalList(F, [AllExcept(cols)] + es, K).value, F, es, K);
  }

  /** Columns placed after a prefix keep their positions, shifted by the
      prefix's length. */
  lemma {:induction false} SinglesAfter(P: seq<Column>, X: seq<Column>, out: seq<Column>, F: Frame, es: seq<Expr>, K: Kernels)
    requires Rectangular(F) && out == P + X && |X| == |es|
    requires forall i :: 0 <= i < |es| ==> Resolves(F, es[i]) && Width(F, es[i]) > 0
    requires forall i :: 0 <= i < |es| ==> X[i] == EvalExpr(F, es[i], K).value[0]
    ensures |P| + |es| <= |out|
    ensures forall i :: 0 <= i < |es| ==> out[|P| + i] == EvalExpr(F, es[i], K).value[0]
  {
    AppendParts(P, X);
  }

  /** The two halves of an appended column sequence, and its names. */
  lemma {:induction false} AppendParts(P: seq<Column>, X: seq<Column>)
    ensures (P + X)[..|P|] == P
    ensures forall i :: 0 <= i < |X| ==> (P + X)[|P| + i] == X[i]
    ensures Names(P + X) == Names(P) + Names(X)
  {
    NamesAppend(P, X);
  }

  /** The passthrough selection followed by resolving expressions gives the
      passthrough columns, then the expressions' columns. */
  lemma {:induction false} PlanAfterPassthrough(F: Frame, cols: seq<string>, es: seq<Expr>, K: Kernels)
    requires Rectangular(F) && Distinct(Names(F.columns))
    requires forall i :: 0 <= i < |es| ==> Resolves(F, es[i])
    ensures EvalList(F, [AllExcept(cols)] + es, K).Ok? && EvalList(F, es, K).Ok?
    ensures EvalList(F, [AllExcept(cols)] + es, K).value == Passthrough(F.columns, cols) + EvalList(F, es, K).value
  {
    var plan := [AllExcept(cols)] + es;
    assert plan[1..] == es;
    AllExceptColumns(F, cols, K);
    forall i | 0 <= i < |plan| ensures Resolves(F, plan[i]) {
      if i > 0 {
        assert plan[i] == es[i - 1];
      }
    }
    EvalListCons(F, plan, K);
  }

  /** Single-output expressions named `xs` give columns named `xs`, one each. */
  lemma {:induction false} SinglesNames(F: Frame, es: seq<Expr>, xs: seq<string>, K: Kernels)
    requires Rectangular(F) && |xs| == |es|
    requires forall i :: 0 <= i < |es| ==>
      Resolves(F, es[i]) && Width(F, es[i]) == 1 && Resolve(SchemaOf(F), es[i]).value[0].0 == xs[i]
    ensures EvalList(F, es, K).Ok?
    ensures |EvalList(F, es, K).value| == |es|
    ensures forall i :: 0 <= i < |es| ==> EvalList(F, es, K).value[i] == EvalExpr(F, es[i], K).value[0]
    ensures Names(EvalList(F, es, K).value) == xs
  {
    EvalListSingles(F, es, K);
    var X := EvalList(F, es, K).value;
    forall i | 0 <= i < |es| ensures X[i].name == xs[i] {
      assert X[i] == EvalExpr(F, es[i], K).value[0];
    }
  }

  lemma {:induction false} NamesAppend(a: seq<Column>, b: seq<Column>)
    ensures Names(a + b) == Names(a) + Names(b)
  {
  }

  /** When every single-output expression is numeric, so are their columns. */
  lemma {:induction false} PassthroughThenNumericSingles(F: Frame, cols: seq<string>, es: seq<Expr>, xs: seq<string>, K: Kernels)
    requires Rectangular(F) && Distinct(Names(F.columns)) && |xs| == |es|
    requires forall i :: 0 <= i < |es| ==>
      && Resolves(F, es[i]) && Width(F, es[i]) == 1 && Resolve(SchemaOf(F), es[i]).value[0].0 == xs[i]
      && IsNumeric(Resolve(SchemaOf(F), es[i]).value[0].1)
    ensures EvalList(F, [AllExcept(cols)] + es, K).Ok?
    ensures var out := EvalList(F, [AllExcept(cols)] + es, K).value;
      var n := |Passthrough(F.columns, cols)|;
      && |out| == n + |es|
      && forall k :: n <= k < n + |es| ==> IsNumeric(out[k].dtype)
  {
    PlanAfterPassthrough(F, cols, es, K);
    EvalListSingles(F, es, K);
    var X := EvalList(F, es, K).value;
    forall i | 0 <= i < |X| ensures IsNumeric(X[i].dtype) {
      SingleField(F, es[i], K);
    }
    NumericTail(Passthrough(F.columns, cols), X, EvalList(F, [AllExcept(cols)] + es, K).value);
  }

  /** Numeric columns appended after a prefix sit at the positions past it. */
  lemma {:induction false} NumericTail(P: seq<Column>, X: seq<Column>, out: seq<Column>)
    requires out == P + X
    requires forall i :: 0 <= i < |X| ==> IsNumeric(X[i].dtype)
    ensures |out| == |P| + |X|
    ensures forall k :: |P| <= k < |out| ==> IsNumeric(out[k].dtype)
  {
    forall k | |P| <= k < |out| ensures IsNumeric(out[k].dtype) {
      assert out[k] == X[k - |P|];
    }
  }

  /** A single-output expression's column carries the type it resolves to. */
  lemma {:induction false} SingleField(F: Frame, e: Expr, K: Kernels)
    requires Rectangular(F) && Resolves(F, e) && Width(F, e) == 1
    ensures |EvalExpr(F, e, K).value| == 1
    ensures EvalExpr(F, e, K).value[0].dtype == Resolve(SchemaOf(F), e).value[0].1
  {
    EvalExprFields(F, e, K);
    var v := EvalExpr(F, e, K).value;
    assert Fields(v)[0] == (v[0].name, v[0].dtype);
  }

  /** `with_columns` of outputs with fresh, distinct names appends them in order. */
  lemma {:induction false} UpsertFresh(base: seq<Column>, news: seq<Column>)
    requires Distinct(Names(news))
    requires forall k :: 0 <= k < |news| ==> news[k].name !in Names(base)
    ensures Upsert(base, news) == base + news
    decreases |news|
  {
    if |news| > 0 {
      var b := Put(base, news[0]);
      var tail := news[1..];
      assert Names(b) == Names(base) + [news[0].name];
      assert Distinct(Names(tail)) by {
        forall x, y | 0 <= x < y < |tail| ensures Names(tail)[x] != Names(tail)[y] {
          assert Names(tail)[x] == Names(news)[x + 1] && Names(tail)[y] == Names(news)[y + 1];
        }
      }
      forall k | 0 <= k < |tail| ensures tail[k].name !in Names(b) {
        assert tail[k].name == Names(news)[k + 1] && news[0].name == Names(news)[0];
      }
      UpsertFresh(b, tail);
      assert b + tail == base + news;
    }
  }

  /** A name survives the passthrough exactly when the table has it and it
      is not excluded. */
  lemma {:induction false} PassthroughNames(cols: seq<Column>, ex: seq<string>, name: string)
    ensures name in Names(Passthrough(cols, ex)) <==> name in Names(cols) && name !in ex
  {
    var P := Passthrough(cols, ex);
    if name in Names(P) {
      var t :| 0 <= t < |P| && Names(P)[t] == name;
      assert P[t] in P;
      PassthroughMembers(cols, ex, P[t]);
      var u :| 0 <= u < |cols| && cols[u] == P[t];
      assert Names(cols)[u] == name;
    }
    if name in Names(cols) && name !in ex {
      var u :| 0 <= u < |cols| && Names(cols)[u] == name;
      assert cols[u] in cols;
      PassthroughMembers(cols, ex, cols[u]);
      var t :| 0 <= t < |P| && P[t] == cols[u];
      assert Names(P)[t] == name;
    }
  }

  /** A table that starts with the passthrough columns has the same cells
      under each passthrough name as the input table. */
  lemma {:induction false} ColumnCellsKept(F: Frame, out: Frame, ex: seq<string>, name: string)
    requires Rectangular(F) && Rectangular(out)
    requires Distinct(Names(F.columns)) && Distinct(Names(out.columns))
    requires |Passthrough(F.columns, ex)| <= |out.columns|
    requires out.columns[..|Passthrough(F.columns, ex)|] == Passthrough(F.columns, ex)
    requires name in Names(Passthrough(F.columns, ex))
    ensures ColumnCells(out, name) == ColumnCells(F, name)
  {
    var P := Passthrough(F.columns, ex);
    var t :| 0 <= t < |P| && Names(P)[t] == name;
    assert out.columns[t] == P[t];
    ColumnCellsOfMember(out, t);
    assert P[t] in P;
    PassthroughMembers(F.columns, ex, P[t]);
    var u :| 0 <= u < |F.columns| && F.columns[u] == P[t];
    ColumnCellsOfMember(F, u);
  }
}
