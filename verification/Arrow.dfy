/** As much of Arrow as the physical operators use: typed columns and record batches. */
module Arrow {
  import opened Prelude
  import opened Predicates

  datatype DataType = Utf8 | LargeUtf8 | Int64 | Float64 | Boolean | OtherType(name: string)

  datatype Field = Field(name: string, dataType: DataType, nullable: bool)

  type Schema = seq<Field>

  datatype Array = Array(dataType: DataType, values: seq<Value>)

  /** `numRows` is kept apart from the columns: a batch without columns still counts rows. */
  datatype Batch = Batch(schema: Schema, columns: seq<Array>, numRows: nat)

  predicate Fits(v: Value, t: DataType) {
    || v.Null?
    || (match t
        case Utf8 => v.Str?
        case LargeUtf8 => v.Str?
        case Int64 => v.Int?
        case Float64 => v.Float?
        case Boolean => v.Bool?
        case OtherType(name) => v.Opaque? && v.kind == name)
  }

  ghost predicate ValidArray(a: Array) {
    forall i :: 0 <= i < |a.values| ==> Fits(a.values[i], a.dataType)
  }

  /** The checks of `RecordBatch::try_new` on one column. */
  predicate ColumnMatches(f: Field, a: Array, rows: nat) {
    a.dataType == f.dataType && |a.values| == rows && (f.nullable || Null !in a.values)
  }

  predicate ColumnsMatch(schema: Schema, columns: seq<Array>, rows: nat) {
    |schema| == |columns| && forall i :: 0 <= i < |schema| ==> ColumnMatches(schema[i], columns[i], rows)
  }

  ghost predicate ValidBatch(b: Batch) {
    && ColumnsMatch(b.schema, b.columns, b.numRows)
    && forall i :: 0 <= i < |b.columns| ==> ValidArray(b.columns[i])
  }

  /** `RecordBatch::try_new`: the row count comes from the first column, so there must be one. */
  function TryNew(schema: Schema, columns: seq<Array>): Option<Batch> {
    if |columns| > 0 && ColumnsMatch(schema, columns, |columns[0].values|)
    then Some(Batch(schema, columns, |columns[0].values|))
    else None
  }

  type Tuple = seq<Value>

  /** Row `i` of a batch. */
  function RowAt(columns: seq<Array>, i: nat): (t: Tuple)
    requires forall c | c in columns :: i < |c.values|
    ensures |t| == |columns|
  {
    seq(|columns|, j requires 0 <= j < |columns| => columns[j].values[i])
  }

  /** The rows of a batch, in order. */
  ghost function RowsOf(b: Batch): (rows: seq<Tuple>)
    requires ValidBatch(b)
    ensures |rows| == b.numRows
  {
    seq(b.numRows, i requires 0 <= i < b.numRows => RowAt(b.columns, i))
  }

  ghost function AllRows(bs: seq<Batch>): seq<Tuple>
    requires forall b | b in bs :: ValidBatch(b)
  {
    if bs == [] then [] else RowsOf(bs[0]) + AllRows(bs[1..])
  }
}
