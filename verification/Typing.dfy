/**
 What type the engine gives a predicate over a schema, and what its kernels do with it on a batch of
 rows. Which operand types an operator takes is a parameter: the planner coerces and the kernels do
 not, so the two pass different rules. Whether AND and OR are lazy is a parameter too.
 */
module Typing {
  import opened Prelude
  import opened Predicates
  import opened Arrow

  datatype ExprType = Of(t: DataType) | OfNull

  const TRUTH := Of(DataType.Boolean)

  type OperandRule = (Operator, ExprType, ExprType) -> bool

  function ColumnType(schema: Schema, name: string): Option<ExprType> {
    if schema == [] then None
    else if schema[0].name == name then Some(Of(schema[0].dataType))
    else ColumnType(schema[1..], name)
  }

  function ValueType(v: Value): ExprType {
    match v
    case Null => OfNull
    case Str(_) => Of(Utf8)
    case Int(_) => Of(Int64)
    case Float(_) => Of(Float64)
    case Bool(_) => TRUTH
    case Opaque(kind, _) => Of(OtherType(kind))
  }

  /** None: an unknown column, or operands that the operator does not take. */
  function TypeOf(accepts: OperandRule, schema: Schema, e: Expr): Option<ExprType> {
    match e
    case Column(name) => ColumnType(schema, name)
    case Constant(v) => Some(ValueType(v))
    case Binary(l, op, r) =>
      var lt, rt := TypeOf(accepts, schema, l), TypeOf(accepts, schema, r);
      if lt.Some? && rt.Some? && accepts(op, lt.value, rt.value) then Some(TRUTH) else None
    case _ => Some(TRUTH)
  }

  /** Every column exists. */
  predicate Known(schema: Schema, e: Expr) {
    match e
    case Column(name) => ColumnType(schema, name).Some?
    case Binary(l, _, r) => Known(schema, l) && Known(schema, r)
    case _ => true
  }

  // ---- evaluating over a batch ----

  /** The operand types that the kernels take, and whether AND and OR skip a right operand that cannot matter. */
  datatype Kernels = Kernels(accepts: OperandRule, lazy: bool)

  predicate Decides(op: Operator, left: seq<Value>) {
    && (op.OAnd? || op.OOr?)
    && forall i :: 0 <= i < |left| ==> left[i] == Bool(op.OOr?)
  }

  function EvalAll(eng: Engine, e: Expr, rows: seq<Row>): seq<Value> {
    seq(|rows|, i requires 0 <= i < |rows| => Eval(eng, e, rows[i]))
  }

  /** The type of what the kernels return for a batch of rows, or None where one refuses its operands. */
  function RunKernels(k: Kernels, eng: Engine, schema: Schema, e: Expr, rows: seq<Row>): Option<ExprType> {
    match e
    case Column(name) => ColumnType(schema, name)
    case Constant(v) => Some(ValueType(v))
    case Binary(l, op, r) =>
      var lt := RunKernels(k, eng, schema, l, rows);
      if lt == Some(TRUTH) && k.lazy && Decides(op, EvalAll(eng, l, rows)) then Some(TRUTH)
      else
        var rt := RunKernels(k, eng, schema, r, rows);
        if lt.Some? && rt.Some? && k.accepts(op, lt.value, rt.value) then Some(TRUTH) else None
    case _ => Some(TRUTH)
  }

  /** A typed predicate never faults, on any rows, whether the kernels are lazy or not. */
  lemma {:induction false} TypedNeverFaults(k: Kernels, eng: Engine, schema: Schema, e: Expr, rows: seq<Row>)
    requires TypeOf(k.accepts, schema, e).Some?
    ensures RunKernels(k, eng, schema, e, rows) == TypeOf(k.accepts, schema, e)
  {
    match e
    case Binary(l, op, r) =>
      TypedNeverFaults(k, eng, schema, l, rows);
      TypedNeverFaults(k, eng, schema, r, rows);
    case _ =>
  }

  /** Kernels that are not lazy fault exactly on predicates that have no type. */
  lemma {:induction false} EagerIsTyping(k: Kernels, eng: Engine, schema: Schema, e: Expr, rows: seq<Row>)
    requires !k.lazy
    ensures RunKernels(k, eng, schema, e, rows) == TypeOf(k.accepts, schema, e)
  {
    match e
    case Binary(l, op, r) =>
      EagerIsTyping(k, eng, schema, l, rows);
      EagerIsTyping(k, eng, schema, r, rows);
    case _ =>
  }

  /** With lazy kernels a right operand that faults goes unnoticed exactly on the rows whose left operands decide. */
  lemma LazyHidesFault(k: Kernels, eng: Engine, schema: Schema, l: Expr, op: Operator, r: Expr, rows: seq<Row>)
    requires k.lazy && RunKernels(k, eng, schema, r, rows).None?
    ensures RunKernels(k, eng, schema, Binary(l, op, r), rows).Some? <==>
              RunKernels(k, eng, schema, l, rows) == Some(TRUTH) && Decides(op, EvalAll(eng, l, rows))
  {
  }

  ghost predicate HasType(v: Value, t: ExprType) {
    if t.OfNull? then v.Null? else Fits(v, t.t)
  }

  /** A row whose values are of their columns' types. */
  ghost predicate RowFits(schema: Schema, row: Row) {
    forall name | name in row && ColumnType(schema, name).Some? :: HasType(row[name], ColumnType(schema, name).value)
  }

  /** Where the kernels do not fault, every row of the schema evaluates to a value of the type they return. */
  lemma RunEvaluates(k: Kernels, eng: Engine, schema: Schema, e: Expr, rows: seq<Row>, row: Row)
    requires RowFits(schema, row) && RunKernels(k, eng, schema, e, rows).Some?
    ensures HasType(Eval(eng, e, row), RunKernels(k, eng, schema, e, rows).value)
  {
    if e.Column? {
      ColumnTypeIsOf(schema, e.name);
    }
  }

  lemma {:induction false} ColumnTypeIsOf(schema: Schema, name: string)
    requires ColumnType(schema, name).Some?
    ensures ColumnType(schema, name).value.Of?
  {
    if schema[0].name != name {
      ColumnTypeIsOf(schema[1..], name);
    }
  }

  lemma {:induction false} TypedIsKnown(accepts: OperandRule, schema: Schema, e: Expr)
    requires TypeOf(accepts, schema, e).Some?
    ensures Known(schema, e)
  {
    match e
    case Binary(l, _, r) => TypedIsKnown(accepts, schema, l); TypedIsKnown(accepts, schema, r);
    case _ =>
  }

  lemma {:induction false} ColumnTypeAt(schema: Schema, j: nat)
    requires j < |schema| && forall i :: 0 <= i < j ==> schema[i].name != schema[j].name
    ensures ColumnType(schema, schema[j].name) == Some(Of(schema[j].dataType))
  {
    if j > 0 {
      ColumnTypeAt(schema[1..], j - 1);
    }
  }

  lemma {:induction false} ColumnTypeFound(schema: Schema, name: string)
    ensures ColumnType(schema, name).Some? <==> exists j :: 0 <= j < |schema| && schema[j].name == name
  {
    if schema != [] {
      ColumnTypeFound(schema[1..], name);
      if exists j :: 0 <= j < |schema[1..]| && schema[1..][j].name == name {
        var j :| 0 <= j < |schema[1..]| && schema[1..][j].name == name;
        assert schema[j + 1].name == name;
      }
      if exists j :: 1 <= j < |schema| && schema[j].name == name {
        var j :| 1 <= j < |schema| && schema[j].name == name;
        assert schema[1..][j - 1].name == name;
      }
    }
  }

  /** The predicate names this column. */
  ghost predicate Mentions(e: Expr, name: string) {
    match e
    case Column(n) => n == name
    case Binary(l, _, r) => Mentions(l, name) || Mentions(r, name)
    case _ => false
  }

  ghost predicate HasColumn(schema: Schema, name: string) {
    exists j :: 0 <= j < |schema| && schema[j].name == name
  }

  lemma {:induction false} KnownMentions(schema: Schema, e: Expr, name: string)
    requires Known(schema, e) && Mentions(e, name)
    ensures HasColumn(schema, name)
  {
    match e
    case Column(_) => ColumnTypeFound(schema, name);
    case Binary(l, _, r) => if Mentions(l, name) { KnownMentions(schema, l, name); } else { KnownMentions(schema, r, name); }
  }

  lemma {:induction false} UnknownMention(schema: Schema, e: Expr) returns (name: string)
    requires !Known(schema, e)
    ensures Mentions(e, name) && !HasColumn(schema, name)
  {
    match e
    case Column(n) => name := n; ColumnTypeFound(schema, name);
    case Binary(l, _, r) =>
      if Known(schema, l) { name := UnknownMention(schema, r); } else { name := UnknownMention(schema, l); }
  }

  /** A predicate is known to a schema exactly if every column it names is there. */
  lemma KnownIff(schema: Schema, e: Expr)
    ensures Known(schema, e) <==> forall name :: Mentions(e, name) ==> HasColumn(schema, name)
  {
    if Known(schema, e) {
      forall name | Mentions(e, name) ensures HasColumn(schema, name) { KnownMentions(schema, e, name); }
    } else {
      var name := UnknownMention(schema, e);
    }
  }
}
