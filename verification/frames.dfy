/** Tables as the dataframe engine holds them: an ordered list of named,
    typed columns of equal height. */
module Frames {
  import opened Base

  /** The engine dtypes the model distinguishes. */
  datatype DType = Float64 | Float32 | Int64 | Int32 | Utf8

  predicate IsNumeric(d: DType) { d != Utf8 }

  /** dtype of a floating-point aggregate or quotient of a column of type `d`. */
  function FloatOf(d: DType): DType { if d == Float32 then Float32 else Float64 }

  /** dtype of the sum or difference of two numeric columns. */
  function Supertype(a: DType, b: DType): DType {
    if a == b then a
    else if (a == Int64 || a == Int32) && (b == Int64 || b == Int32) then Int64
    else Float64
  }

  /** One (name, dtype) pair of a schema. */
  type Field = (string, DType)

  /** A cell: missing, a number (floats and integers alike, as exact reals), or text. */
  datatype Cell = Null | Num(x: real) | Str(s: string)

  datatype Column = Column(name: string, dtype: DType, cells: seq<Cell>)

  datatype Frame = Frame(height: nat, columns: seq<Column>)

  function Names(cols: seq<Column>): (ns: seq<string>)
    ensures |ns| == |cols|
    ensures forall i :: 0 <= i < |cols| ==> ns[i] == cols[i].name
  {
    seq(|cols|, i requires 0 <= i < |cols| => cols[i].name)
  }

  function FieldNames(fs: seq<Field>): (ns: seq<string>)
    ensures |ns| == |fs|
    ensures forall i :: 0 <= i < |fs| ==> ns[i] == fs[i].0
  {
    seq(|fs|, i requires 0 <= i < |fs| => fs[i].0)
  }

  /** The (name, dtype) pairs of some columns, in order. */
  function Fields(cols: seq<Column>): (fs: seq<Field>)
    ensures |fs| == |cols|
    ensures forall i :: 0 <= i < |cols| ==> fs[i] == (cols[i].name, cols[i].dtype)
    ensures FieldNames(fs) == Names(cols)
  {
    seq(|cols|, i requires 0 <= i < |cols| => (cols[i].name, cols[i].dtype))
  }

  /** The frame's schema: its (name, dtype) pairs in column order. */
  function SchemaOf(F: Frame): (s: seq<Field>)
    ensures |s| == |F.columns|
    ensures forall i :: 0 <= i < |s| ==> s[i] == (F.columns[i].name, F.columns[i].dtype)
    ensures FieldNames(s) == Names(F.columns)
  {
    Fields(F.columns)
  }

  /** Every column holds exactly one cell per row. */
  predicate Rectangular(F: Frame) {
    forall i :: 0 <= i < |F.columns| ==> |F.columns[i].cells| == F.height
  }

  predicate Fits(d: DType, c: Cell) {
    if IsNumeric(d) then !c.Str? else !c.Num?
  }

  /** What every table the engine hands out satisfies: rectangular, unique
      column names, cells of the column's dtype. */
  predicate Wf(F: Frame) {
    && Rectangular(F)
    && Distinct(Names(F.columns))
    && forall i, r :: 0 <= i < |F.columns| && 0 <= r < |F.columns[i].cells| ==> Fits(F.columns[i].dtype, F.columns[i].cells[r])
  }

  /** Index of the first field called `name`, or |s| when there is none. */
  function IndexOf(s: seq<Field>, name: string): (k: nat)
    ensures k <= |s|
    ensures k < |s| ==> s[k].0 == name
    ensures forall i :: 0 <= i < k ==> s[i].0 != name
    ensures k == |s| <==> name !in FieldNames(s)
  {
    if |s| == 0 then 0
    else if s[0].0 == name then 0
    else 1 + IndexOf(s[1..], name)
  }

  predicate HasColumn(F: Frame, name: string) {
    name in Names(F.columns)
  }

  /** The cells of the column called `name`; a column of nulls stands in for a
      missing one, which a resolved plan never reads. */
  function ColumnCells(F: Frame, name: string): (cs: seq<Cell>)
    requires Rectangular(F)
    ensures |cs| == F.height
  {
    var k := IndexOf(SchemaOf(F), name);
    if k < |F.columns| then F.columns[k].cells else seq(F.height, _ => Null)
  }

  predicate InRange(rows: seq<nat>, n: nat) {
    forall p :: 0 <= p < |rows| ==> rows[p] < n
  }

  /** The rows 0, 1, ..., n-1 in order. */
  function AllRows(n: nat): (rows: seq<nat>)
    ensures |rows| == n && InRange(rows, n)
    ensures forall p :: 0 <= p < n ==> rows[p] == p
  {
    seq(n, p requires 0 <= p < n => p)
  }

  /** The elements of `xs` at the positions `rows`, in that order. */
  function Pick<T>(xs: seq<T>, rows: seq<nat>): (ys: seq<T>)
    requires InRange(rows, |xs|)
    ensures |ys| == |rows|
    ensures forall p :: 0 <= p < |rows| ==> ys[p] == xs[rows[p]]
  {
    seq(|rows|, p requires 0 <= p < |rows| => xs[rows[p]])
  }

  /** The sub-table made of the given rows, in the given order. */
  function Restrict(F: Frame, rows: seq<nat>): (R: Frame)
    requires Rectangular(F) && InRange(rows, F.height)
    ensures Rectangular(R) && R.height == |rows|
    ensures SchemaOf(R) == SchemaOf(F)
    ensures |R.columns| == |F.columns|
    ensures forall i :: 0 <= i < |F.columns| ==> R.columns[i].cells == Pick(F.columns[i].cells, rows)
  {
    var cols := seq(|F.columns|, i requires 0 <= i < |F.columns| =>
      Column(F.columns[i].name, F.columns[i].dtype, Pick(F.columns[i].cells, rows)));
    Frame(|rows|, cols)
  }

  lemma {:induction false} PickPick<T>(xs: seq<T>, g: seq<nat>, c: seq<nat>)
    requires InRange(g, |xs|) && InRange(c, |g|)
    ensures InRange(Pick(g, c), |xs|)
    ensures Pick(Pick(xs, g), c) == Pick(xs, Pick(g, c))
  {
  }

  lemma {:induction false} PickAllRows<T>(xs: seq<T>)
    ensures Pick(xs, AllRows(|xs|)) == xs
  {
  }

  lemma {:induction false} PickRowsPrefix<T>(xs: seq<T>, k: nat)
    requires k <= |xs|
    ensures InRange(AllRows(|xs|)[..k], |xs|)
    ensures Pick(xs, AllRows(|xs|)[..k]) == xs[..k]
  {
  }

  lemma {:induction false} ColumnCellsRestrict(F: Frame, rows: seq<nat>, name: string)
    requires Rectangular(F) && InRange(rows, F.height)
    ensures ColumnCells(Restrict(F, rows), name) == Pick(ColumnCells(F, name), rows)
  {
  }
}
