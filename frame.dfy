/**
 * A pandas data frame as the core sees it: a set of numeric columns, an
 * optional dish-name column, and the rows in dataset order. A row's map holds
 * its numeric cells. A column the frame does not have is absent from every
 * row's map and reads as 0, as `row.get(column, 0)` does. A row whose map
 * lacks one of its own frame's columns stands for no pandas frame (pandas
 * holds NaN there, which is not modelled). A dish name that is missing in the
 * file is `None`.
 */
module Frame {
  import opened Wrappers

  /** The Python exceptions the core can raise. */
  datatype PyError = FileNotFoundError | KeyError | AttributeError(attribute: string)

  datatype Row = Row(name: Option<string>, values: map<string, real>)

  datatype Table = Table(numericColumns: set<string>, hasNames: bool, rows: seq<Row>)

  /** A row together with its position (the frame's index label). */
  datatype Indexed = Indexed(index: nat, row: Row)

  /** `row.get(column, 0)` */
  function Get(row: Row, column: string): (v: real)
    ensures column in row.values ==> v == row.values[column]
    ensures column !in row.values ==> v == 0.0
  {
    if column in row.values then row.values[column] else 0.0
  }

  /** The row's cells in the order of `columns`. */
  function Vector(row: Row, columns: seq<string>): (v: seq<real>)
    ensures |v| == |columns|
    ensures forall j :: 0 <= j < |columns| ==> v[j] == Get(row, columns[j])
  {
    seq(|columns|, j requires 0 <= j < |columns| => Get(row, columns[j]))
  }

  /** Selecting `df[columns]` raises no KeyError. */
  predicate HasColumns(t: Table, columns: seq<string>)
  {
    forall c :: c in columns ==> c in t.numericColumns
  }

  function MinNat(a: nat, b: nat): nat
  {
    if a <= b then a else b
  }

  function Min(a: real, b: real): real
  {
    if b < a then b else a
  }

  function Max(a: real, b: real): real
  {
    if b > a then b else a
  }
}
