/**
 Row predicates: the SQL syntax tree, the DataFusion expression, and the two translators
 between them (src/optimizer_rules/row_filter.rs and src/physical/row_filter_exec.rs).

 Truth is three-valued, as in section 6.34 of ISO/IEC 9075-2:2003; a NULL of type boolean is
 the truth value Unknown. What the engine supplies (comparing two non-null values, matching a
 LIKE pattern, reading a numeral) is a parameter, `Engine`.
 */
module Predicates {
  import opened Prelude

  datatype Value =
    | Null
    | Str(s: string)
    | Int(i: int)
    | Float(f: real)
    | Bool(b: bool)
    | Opaque(kind: string, bits: seq<byte>)

  type Row = map<string, Value>

  datatype BinaryOperator =
    | Eq | NotEq | Lt | LtEq | Gt | GtEq | And | Or
    | PGLikeMatch | PGNotLikeMatch
    | OtherOperator(symbol: string)

  datatype Literal =
    | SingleQuotedString(s: string)
    | Number(digits: string)
    | Boolean(b: bool)
    | NullLiteral
    | OtherLiteral(text: string)

  /** The parser's tree. */
  datatype SqlExpr =
    | BinaryOp(left: SqlExpr, op: BinaryOperator, right: SqlExpr)
    | Not(expr: SqlExpr)
    | IsNull(expr: SqlExpr)
    | IsNotNull(expr: SqlExpr)
    | InList(expr: SqlExpr, list: seq<SqlExpr>, negated: bool)
    | Identifier(name: string)
    | Like(negated: bool, expr: SqlExpr, pattern: SqlExpr)
    | Lit(literal: Literal)
    | Nested(expr: SqlExpr)
    | OtherExpr(text: string)

  datatype Operator = OEq | ONotEq | OLt | OLtEq | OGt | OGtEq | OAnd | OOr | OLikeMatch | ONotLikeMatch

  /** The engine's tree. */
  datatype Expr =
    | Column(name: string)
    | Constant(value: Value)
    | Binary(left: Expr, op: Operator, right: Expr)
    | Negate(expr: Expr)
    | TestNull(expr: Expr)
    | TestNotNull(expr: Expr)
    | In(expr: Expr, list: seq<Expr>, negated: bool)

  datatype Engine = Engine(
    compare: (Operator, Value, Value) -> bool,
    like: (Value, Value) -> bool,
    parseInt: string -> Option<int>,
    parseFloat: string -> Option<real>)

  // ---- truth values ----

  datatype Truth = True | False | Unknown

  function ToTruth(v: Value): Truth {
    match v
    case Bool(b) => if b then True else False
    case _ => Unknown
  }

  function FromTruth(t: Truth): Value {
    match t
    case True => Bool(true)
    case False => Bool(false)
    case Unknown => Null
  }

  function AndT(a: Truth, b: Truth): Truth {
    if a == False || b == False then False else if a == True && b == True then True else Unknown
  }

  function OrT(a: Truth, b: Truth): Truth {
    if a == True || b == True then True else if a == False && b == False then False else Unknown
  }

  function NotT(a: Truth): Truth {
    match a
    case True => False
    case False => True
    case Unknown => Unknown
  }

  function OfBool(b: bool): Truth {
    if b then True else False
  }

  // ---- what the engine's tree means ----

  /** A comparison or LIKE is Unknown as soon as an operand is NULL. */
  function Compare(eng: Engine, op: Operator, a: Value, b: Value): Truth {
    if a.Null? || b.Null? then Unknown
    else
      match op
      case OLikeMatch => OfBool(eng.like(a, b))
      case ONotLikeMatch => OfBool(!eng.like(a, b))
      case ONotEq => OfBool(!eng.compare(OEq, a, b))
      case _ => OfBool(eng.compare(op, a, b))
  }

  function EvalBinary(eng: Engine, op: Operator, a: Value, b: Value): Value {
    match op
    case OAnd => FromTruth(AndT(ToTruth(a), ToTruth(b)))
    case OOr => FromTruth(OrT(ToTruth(a), ToTruth(b)))
    case _ => FromTruth(Compare(eng, op, a, b))
  }

  /** The kernel's list test: found, else NULL if any NULL took part, else not found. */
  function EvalIn(eng: Engine, x: Value, list: seq<Value>): Truth {
    if x.Null? then Unknown
    else if exists i :: 0 <= i < |list| && Compare(eng, OEq, x, list[i]) == True then True
    else if Null in list then Unknown
    else False
  }

  function Eval(eng: Engine, e: Expr, row: Row): Value
    decreases e, 1
  {
    match e
    case Column(name) => if name in row then row[name] else Null
    case Constant(v) => v
    case Binary(l, op, r) => EvalBinary(eng, op, Eval(eng, l, row), Eval(eng, r, row))
    case Negate(x) => FromTruth(NotT(ToTruth(Eval(eng, x, row))))
    case TestNull(x) => Bool(Eval(eng, x, row).Null?)
    case TestNotNull(x) => Bool(!Eval(eng, x, row).Null?)
    case In(x, list, negated) =>
      var found := EvalIn(eng, Eval(eng, x, row), EvalList(eng, list, row));
      FromTruth(if negated then NotT(found) else found)
  }

  function EvalList(eng: Engine, es: seq<Expr>, row: Row): (vs: seq<Value>)
    ensures |vs| == |es|
    decreases es, 0
  {
    if es == [] then [] else [Eval(eng, es[0], row)] + EvalList(eng, es[1..], row)
  }

  /** A filter keeps a row only if the predicate is TRUE. */
  predicate Keeps(eng: Engine, e: Expr, row: Row) {
    ToTruth(Eval(eng, e, row)) == True
  }

  // ---- what the SQL tree means ----

  function LiteralValue(eng: Engine, l: Literal): Value {
    match l
    case SingleQuotedString(s) => Str(s)
    case Number(digits) =>
      (match eng.parseInt(digits)
       case Some(i) => Int(i)
       case None => match eng.parseFloat(digits) case Some(f) => Float(f) case None => Null)
    case Boolean(b) => Bool(b)
    case NullLiteral => Null
    case OtherLiteral(_) => Null
  }

  function SqlCompare(eng: Engine, op: BinaryOperator, a: Value, b: Value): Truth {
    if a.Null? || b.Null? then Unknown
    else
      match op
      case Eq => OfBool(eng.compare(OEq, a, b))
      case NotEq => NotT(OfBool(eng.compare(OEq, a, b)))
      case Lt => OfBool(eng.compare(OLt, a, b))
      case LtEq => OfBool(eng.compare(OLtEq, a, b))
      case Gt => OfBool(eng.compare(OGt, a, b))
      case GtEq => OfBool(eng.compare(OGtEq, a, b))
      case PGLikeMatch => OfBool(eng.like(a, b))
      case PGNotLikeMatch => NotT(OfBool(eng.like(a, b)))
      case _ => Unknown
  }

  /** `x IN (a, b, ...)` is `x = a OR x = b OR ...` */
  function AnyEqual(eng: Engine, x: Value, list: seq<Value>): Truth {
    if list == [] then False else OrT(SqlCompare(eng, Eq, x, list[0]), AnyEqual(eng, x, list[1..]))
  }

  function SqlEval(eng: Engine, e: SqlExpr, row: Row): Value
    decreases e, 1
  {
    match e
    case BinaryOp(l, And, r) => FromTruth(AndT(ToTruth(SqlEval(eng, l, row)), ToTruth(SqlEval(eng, r, row))))
    case BinaryOp(l, Or, r) => FromTruth(OrT(ToTruth(SqlEval(eng, l, row)), ToTruth(SqlEval(eng, r, row))))
    case BinaryOp(l, op, r) => FromTruth(SqlCompare(eng, op, SqlEval(eng, l, row), SqlEval(eng, r, row)))
    case Not(x) => FromTruth(NotT(ToTruth(SqlEval(eng, x, row))))
    case IsNull(x) => Bool(SqlEval(eng, x, row).Null?)
    case IsNotNull(x) => FromTruth(NotT(OfBool(SqlEval(eng, x, row).Null?)))
    case InList(x, list, negated) =>
      var found := AnyEqual(eng, SqlEval(eng, x, row), SqlEvalList(eng, list, row));
      FromTruth(if negated then NotT(found) else found)
    case Identifier(name) => if name in row then row[name] else Null
    case Like(negated, x, pattern) =>
      var matched := SqlCompare(eng, PGLikeMatch, SqlEval(eng, x, row), SqlEval(eng, pattern, row));
      FromTruth(if negated then NotT(matched) else matched)
    case Lit(l) => LiteralValue(eng, l)
    case Nested(x) => SqlEval(eng, x, row)
    case OtherExpr(_) => Null
  }

  function SqlEvalList(eng: Engine, es: seq<SqlExpr>, row: Row): (vs: seq<Value>)
    ensures |vs| == |es|
    decreases es, 0
  {
    if es == [] then [] else [SqlEval(eng, es[0], row)] + SqlEvalList(eng, es[1..], row)
  }

  // ---- the translators ----

  function TranslateOp(op: BinaryOperator): Option<Operator> {
    match op
    case Eq => Some(OEq)
    case NotEq => Some(ONotEq)
    case Lt => Some(OLt)
    case LtEq => Some(OLtEq)
    case Gt => Some(OGt)
    case GtEq => Some(OGtEq)
    case And => Some(OAnd)
    case Or => Some(OOr)
    case PGLikeMatch => Some(OLikeMatch)
    case PGNotLikeMatch => Some(ONotLikeMatch)
    case OtherOperator(_) => None
  }

  /** The physical operator's table stops before the LIKE operators. */
  function TranslatePhysicalOp(op: BinaryOperator): Option<Operator> {
    match op
    case Eq => Some(OEq)
    case NotEq => Some(ONotEq)
    case Lt => Some(OLt)
    case LtEq => Some(OLtEq)
    case Gt => Some(OGt)
    case GtEq => Some(OGtEq)
    case And => Some(OAnd)
    case Or => Some(OOr)
    case _ => None
  }

  function TranslateLiteral(eng: Engine, l: Literal): Option<Expr> {
    match l
    case SingleQuotedString(s) => Some(Constant(Str(s)))
    case Number(digits) =>
      (match eng.parseInt(digits)
       case Some(i) => Some(Constant(Int(i)))
       case None => match eng.parseFloat(digits) case Some(f) => Some(Constant(Float(f))) case None => None)
    case Boolean(b) => Some(Constant(Bool(b)))
    case NullLiteral => Some(Constant(Null))
    case OtherLiteral(_) => None
  }

  function Combine(op: Option<Operator>, l: Option<Expr>, r: Option<Expr>): Option<Expr> {
    if op.Some? && l.Some? && r.Some? then Some(Binary(l.value, op.value, r.value)) else None
  }

  /** `sql_expr_to_df_expr` */
  function Translate(eng: Engine, e: SqlExpr): Option<Expr>
    decreases e, 1
  {
    match e
    case BinaryOp(l, op, r) => Combine(TranslateOp(op), Translate(eng, l), Translate(eng, r))
    case Not(x) => (match Translate(eng, x) case Some(y) => Some(Negate(y)) case None => None)
    case IsNull(x) => (match Translate(eng, x) case Some(y) => Some(TestNull(y)) case None => None)
    case IsNotNull(x) => (match Translate(eng, x) case Some(y) => Some(TestNotNull(y)) case None => None)
    case InList(x, list, negated) =>
      var y, ys := Translate(eng, x), TranslateList(eng, list);
      if y.Some? && ys.Some? then Some(In(y.value, ys.value, negated)) else None
    case Identifier(name) => Some(Column(name))
    case Like(negated, x, pattern) =>
      Combine(Some(if negated then ONotLikeMatch else OLikeMatch), Translate(eng, x), Translate(eng, pattern))
    case Lit(l) => TranslateLiteral(eng, l)
    case Nested(x) => Translate(eng, x)
    case OtherExpr(_) => None
  }

  function TranslateList(eng: Engine, es: seq<SqlExpr>): Option<seq<Expr>>
    decreases es, 0
  {
    if es == [] then Some([])
    else
      var y, ys := Translate(eng, es[0]), TranslateList(eng, es[1..]);
      if y.Some? && ys.Some? then Some([y.value] + ys.value) else None
  }

  /** `sql_ast_to_df_expr` */
  function TranslatePhysical(eng: Engine, e: SqlExpr): Option<Expr> {
    match e
    case BinaryOp(l, op, r) => Combine(TranslatePhysicalOp(op), TranslatePhysical(eng, l), TranslatePhysical(eng, r))
    case Identifier(name) => Some(Column(name))
    case Lit(l) => TranslateLiteral(eng, l)
    case Nested(x) => TranslatePhysical(eng, x)
    case _ => None
  }

  // ---- results ----

  /** False below Unknown below True. */
  function Rank(t: Truth): int {
    match t
    case False => 0
    case Unknown => 1
    case True => 2
  }

  /** The connectives are those of three-valued logic: the lower, the higher and the opposite truth value. */
  lemma ThreeValuedLogic(a: Truth, b: Truth)
    ensures Rank(AndT(a, b)) == if Rank(a) <= Rank(b) then Rank(a) else Rank(b)
    ensures Rank(OrT(a, b)) == if Rank(a) <= Rank(b) then Rank(b) else Rank(a)
    ensures Rank(NotT(a)) == 2 - Rank(a)
    ensures ToTruth(FromTruth(a)) == a && (FromTruth(a) == Null <==> a == Unknown)
    ensures ToTruth(Bool(true)) == True && ToTruth(Bool(false)) == False
  {
  }

  /** The part of the grammar that the physical translator knows. */
  predicate CoreSyntax(e: SqlExpr) {
    match e
    case BinaryOp(l, op, r) => !op.PGLikeMatch? && !op.PGNotLikeMatch? && CoreSyntax(l) && CoreSyntax(r)
    case Identifier(_) => true
    case Lit(_) => true
    case Nested(x) => CoreSyntax(x)
    case _ => false
  }

  /**
   The physical translator succeeds exactly where the logical one does within the core syntax,
   and then both return the same expression.
   */
  lemma {:induction false} PhysicalAgreesWithLogical(eng: Engine, e: SqlExpr)
    ensures TranslatePhysical(eng, e).Some? <==> Translate(eng, e).Some? && CoreSyntax(e)
    ensures TranslatePhysical(eng, e).Some? ==> Translate(eng, e) == TranslatePhysical(eng, e)
  {
    match e
    case BinaryOp(l, op, r) =>
      PhysicalAgreesWithLogical(eng, l);
      PhysicalAgreesWithLogical(eng, r);
    case Nested(x) => PhysicalAgreesWithLogical(eng, x);
    case _ =>
  }

  /** The parser never produces an empty IN list. */
  ghost predicate ParserTree(e: SqlExpr) {
    match e
    case BinaryOp(l, _, r) => ParserTree(l) && ParserTree(r)
    case Not(x) => ParserTree(x)
    case IsNull(x) => ParserTree(x)
    case IsNotNull(x) => ParserTree(x)
    case InList(x, list, _) => ParserTree(x) && list != [] && forall y | y in list :: ParserTree(y)
    case Like(_, x, pattern) => ParserTree(x) && ParserTree(pattern)
    case Nested(x) => ParserTree(x)
    case _ => true
  }

  /** The kernel's list test is the disjunction of equalities. */
  lemma {:induction false} ListTestIsDisjunction(eng: Engine, x: Value, list: seq<Value>)
    ensures list != [] || !x.Null? ==> EvalIn(eng, x, list) == AnyEqual(eng, x, list)
  {
    if |list| == 1 {
      assert Null in list <==> list[0].Null?;
    } else if |list| > 1 {
      ListTestIsDisjunction(eng, x, list[1..]);
      var first, rest := list[0], list[1..];
      assert list == [first] + rest;
      assert Null in list <==> first.Null? || Null in rest;
      if exists i :: 0 <= i < |rest| && Compare(eng, OEq, x, rest[i]) == True {
        var i :| 0 <= i < |rest| && Compare(eng, OEq, x, rest[i]) == True;
        assert list[i + 1] == rest[i];
      } else if Compare(eng, OEq, x, first) != True {
        assert forall i :: 0 <= i < |list| ==> Compare(eng, OEq, x, list[i]) != True by {
          forall i | 0 <= i < |list| ensures Compare(eng, OEq, x, list[i]) != True {
            if i > 0 { assert list[i] == rest[i - 1]; }
          }
        }
      } else {
        assert list[0] == first;
      }
    }
  }

  /** What a binary operator of the SQL tree does to two values. */
  function SqlBinary(eng: Engine, op: BinaryOperator, a: Value, b: Value): Value {
    match op
    case And => FromTruth(AndT(ToTruth(a), ToTruth(b)))
    case Or => FromTruth(OrT(ToTruth(a), ToTruth(b)))
    case _ => FromTruth(SqlCompare(eng, op, a, b))
  }

  lemma OperatorMeaning(eng: Engine, op: BinaryOperator, a: Value, b: Value)
    requires TranslateOp(op).Some?
    ensures EvalBinary(eng, TranslateOp(op).value, a, b) == SqlBinary(eng, op, a, b)
  {
  }

  lemma {:induction false} BinaryPreservesMeaning(
      eng: Engine, l: SqlExpr, op: BinaryOperator, r: SqlExpr, row: Row)
    requires ParserTree(l) && ParserTree(r) && Translate(eng, BinaryOp(l, op, r)).Some?
    ensures Eval(eng, Translate(eng, BinaryOp(l, op, r)).value, row) == SqlEval(eng, BinaryOp(l, op, r), row)
    decreases BinaryOp(l, op, r), 0
  {
    TranslationPreservesMeaning(eng, l, row);
    TranslationPreservesMeaning(eng, r, row);
    OperatorMeaning(eng, op, SqlEval(eng, l, row), SqlEval(eng, r, row));
    assert SqlEval(eng, BinaryOp(l, op, r), row) == SqlBinary(eng, op, SqlEval(eng, l, row), SqlEval(eng, r, row));
  }

  /** Translation preserves three-valued SQL truth on every row. */
  lemma {:induction false} TranslationPreservesMeaning(eng: Engine, e: SqlExpr, row: Row)
    requires ParserTree(e) && Translate(eng, e).Some?
    ensures Eval(eng, Translate(eng, e).value, row) == SqlEval(eng, e, row)
    decreases e, 1
  {
    match e
    case BinaryOp(l, op, r) => BinaryPreservesMeaning(eng, l, op, r, row);
    case Not(x) => TranslationPreservesMeaning(eng, x, row);
    case IsNull(x) => TranslationPreservesMeaning(eng, x, row);
    case IsNotNull(x) => TranslationPreservesMeaning(eng, x, row);
    case InList(x, list, negated) => InListPreservesMeaning(eng, x, list, negated, row);
    case Like(negated, x, pattern) => LikePreservesMeaning(eng, negated, x, pattern, row);
    case Nested(x) => TranslationPreservesMeaning(eng, x, row);
    case _ =>
  }

  lemma {:induction false} LikePreservesMeaning(
      eng: Engine, negated: bool, x: SqlExpr, pattern: SqlExpr, row: Row)
    requires ParserTree(x) && ParserTree(pattern) && Translate(eng, Like(negated, x, pattern)).Some?
    ensures Eval(eng, Translate(eng, Like(negated, x, pattern)).value, row) == SqlEval(eng, Like(negated, x, pattern), row)
    decreases Like(negated, x, pattern), 0
  {
    TranslationPreservesMeaning(eng, x, row);
    TranslationPreservesMeaning(eng, pattern, row);
    LikeMeaning(eng, negated, SqlEval(eng, x, row), SqlEval(eng, pattern, row));
  }

  lemma LikeMeaning(eng: Engine, negated: bool, a: Value, b: Value)
    ensures var matched := SqlCompare(eng, PGLikeMatch, a, b);
            EvalBinary(eng, if negated then ONotLikeMatch else OLikeMatch, a, b) ==
            FromTruth(if negated then NotT(matched) else matched)
  {
  }

  lemma {:induction false} InListPreservesMeaning(
      eng: Engine, x: SqlExpr, list: seq<SqlExpr>, negated: bool, row: Row)
    requires ParserTree(InList(x, list, negated)) && Translate(eng, InList(x, list, negated)).Some?
    ensures Eval(eng, Translate(eng, InList(x, list, negated)).value, row) == SqlEval(eng, InList(x, list, negated), row)
    decreases InList(x, list, negated), 0
  {
    TranslationPreservesMeaning(eng, x, row);
    ListPreservesMeaning(eng, list, row);
    ListTestIsDisjunction(eng, SqlEval(eng, x, row), SqlEvalList(eng, list, row));
  }

  lemma {:induction false} ListPreservesMeaning(eng: Engine, es: seq<SqlExpr>, row: Row)
    requires (forall e | e in es :: ParserTree(e)) && TranslateList(eng, es).Some?
    ensures EvalList(eng, TranslateList(eng, es).value, row) == SqlEvalList(eng, es, row)
    decreases es, 0
  {
    if es != [] {
      TranslationPreservesMeaning(eng, es[0], row);
      ListPreservesMeaning(eng, es[1..], row);
      assert ([Translate(eng, es[0]).value] + TranslateList(eng, es[1..]).value)[1..] == TranslateList(eng, es[1..]).value;
    }
  }

  /** Both translators keep exactly the rows for which the SQL predicate is TRUE. */
  lemma BothKeepTheSameRows(eng: Engine, e: SqlExpr, row: Row)
    requires ParserTree(e) && TranslatePhysical(eng, e).Some?
    ensures Translate(eng, e).Some?
    ensures Keeps(eng, TranslatePhysical(eng, e).value, row) <==> ToTruth(SqlEval(eng, e, row)) == True
    ensures Keeps(eng, Translate(eng, e).value, row) <==> ToTruth(SqlEval(eng, e, row)) == True
  {
    PhysicalAgreesWithLogical(eng, e);
    TranslationPreservesMeaning(eng, e, row);
  }
}
