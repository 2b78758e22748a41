/** Logical plans, what they evaluate to, and the tree walk all optimizer rules share. */
module LogicalPlan {
  import opened Predicates

  /**
   The expressions of an aggregate node. `clauses` are the FILTER and ORDER BY of an aggregate
   function; `AggOther` is every kind of expression that the rules do not tell apart, with its parts.
   */
  datatype AggExpr =
    | AggColumn(name: string)
    | AggFunction(name: string, args: seq<AggExpr>, clauses: seq<AggExpr>)
    | AggBinary(left: AggExpr, right: AggExpr)
    | AggAlias(expr: AggExpr, name: string)
    | AggCast(expr: AggExpr)
    | AggOther(kind: string, parts: seq<AggExpr>)

  datatype Plan =
    | Scan(table: string)
    | Projection(columns: seq<string>, input: Plan)
    | Filter(condition: Expr, input: Plan)
    | Aggregate(groups: seq<string>, aggregates: seq<AggExpr>, input: Plan)
    | Join(left: Plan, right: Plan, on: Expr)
    | Empty(produceOneRow: bool, columns: seq<string>)
    | Approved(contract: string, tenant: string, input: Plan)
    | Noise(column: string, epsilon: real, input: Plan)

  // ---- denotation ----

  type Database = map<string, seq<Row>>

  /** What grouping and noise sampling do is left to the engine. */
  datatype Semantics = Semantics(
    engine: Engine,
    aggregate: (seq<string>, seq<AggExpr>, seq<Row>) -> seq<Row>,
    noise: (string, real, seq<Row>) -> seq<Row>)

  function FilterRows(eng: Engine, e: Expr, rows: seq<Row>): seq<Row> {
    if rows == [] then []
    else if Keeps(eng, e, rows[0]) then [rows[0]] + FilterRows(eng, e, rows[1..])
    else FilterRows(eng, e, rows[1..])
  }

  function ProjectRow(columns: seq<string>, row: Row): Row {
    row - (row.Keys - set c | c in columns)
  }

  function ProjectRows(columns: seq<string>, rows: seq<Row>): seq<Row> {
    seq(|rows|, i requires 0 <= i < |rows| => ProjectRow(columns, rows[i]))
  }

  function JoinOne(row: Row, right: seq<Row>): seq<Row> {
    seq(|right|, i requires 0 <= i < |right| => row + right[i])
  }

  function CrossJoin(left: seq<Row>, right: seq<Row>): seq<Row> {
    if left == [] then [] else JoinOne(left[0], right) + CrossJoin(left[1..], right)
  }

  function RowsIn(db: Database, table: string): seq<Row> {
    if table in db then db[table] else []
  }

  function Evaluate(sem: Semantics, p: Plan, db: Database): seq<Row> {
    match p
    case Scan(table) => RowsIn(db, table)
    case Projection(columns, input) => ProjectRows(columns, Evaluate(sem, input, db))
    case Filter(e, input) => FilterRows(sem.engine, e, Evaluate(sem, input, db))
    case Aggregate(groups, aggregates, input) => sem.aggregate(groups, aggregates, Evaluate(sem, input, db))
    case Join(l, r, on) => FilterRows(sem.engine, on, CrossJoin(Evaluate(sem, l, db), Evaluate(sem, r, db)))
    case Empty(produceOneRow, _) => if produceOneRow then [map[]] else []
    case Approved(_, _, input) => Evaluate(sem, input, db)
    case Noise(column, epsilon, input) => sem.noise(column, epsilon, Evaluate(sem, input, db))
  }

  /** A projection keeps the named columns of a row and their values. */
  lemma ProjectionKeeps(columns: seq<string>, row: Row, c: string)
    ensures c in ProjectRow(columns, row) <==> c in columns && c in row
    ensures c in columns && c in row ==> ProjectRow(columns, row)[c] == row[c]
  {
  }

  /** A join's candidates are the pairs of rows, the left one before the right one. */
  lemma {:induction false} JoinedAt(left: seq<Row>, right: seq<Row>, i: nat, j: nat)
    requires i < |left| && j < |right|
    ensures |CrossJoin(left, right)| == |left| * |right| && i * |right| + j < |left| * |right|
    ensures CrossJoin(left, right)[i * |right| + j] == left[i] + right[j]
  {
    CrossJoinSize(left, right);
    CrossJoinSize(left[1..], right);
    if i > 0 {
      JoinedAt(left[1..], right, i - 1, j);
      assert i * |right| + j == |right| + ((i - 1) * |right| + j);
    } else {
      assert 0 * |right| + j == j && |left| * |right| >= |right|;
    }
  }

  lemma {:induction false} CrossJoinSize(left: seq<Row>, right: seq<Row>)
    ensures |CrossJoin(left, right)| == |left| * |right|
  {
    if left != [] {
      CrossJoinSize(left[1..], right);
      assert |left| * |right| == |right| + (|left| - 1) * |right|;
    }
  }

  // ---- the walk ----

  /** What a rule answers at a node: go on into the children, or replace the node and jump over them. */
  datatype Visit = Continue | ReplaceAndJump(plan: Plan)

  /** `TreeNode::transform_down`: parents before children, siblings left to right. */
  function TransformDown(p: Plan, f: Plan -> Visit): Plan {
    match f(p)
    case ReplaceAndJump(q) => q
    case Continue =>
      match p
      case Projection(columns, input) => Projection(columns, TransformDown(input, f))
      case Filter(e, input) => Filter(e, TransformDown(input, f))
      case Aggregate(groups, aggregates, input) => Aggregate(groups, aggregates, TransformDown(input, f))
      case Join(l, r, on) => Join(TransformDown(l, f), TransformDown(r, f), on)
      case Approved(contract, tenant, input) => Approved(contract, tenant, TransformDown(input, f))
      case Noise(column, epsilon, input) => Noise(column, epsilon, TransformDown(input, f))
      case _ => p
  }

  /** The tables scanned, in the order in which the walk meets the scans. */
  function Scans(p: Plan): seq<string> {
    match p
    case Scan(table) => [table]
    case Projection(_, input) => Scans(input)
    case Filter(_, input) => Scans(input)
    case Aggregate(_, _, input) => Scans(input)
    case Join(l, r, _) => Scans(l) + Scans(r)
    case Empty(_, _) => []
    case Approved(_, _, input) => Scans(input)
    case Noise(_, _, input) => Scans(input)
  }

  /** Whether the plan holds an approval marker. */
  predicate HasApproval(p: Plan) {
    match p
    case Scan(_) => false
    case Projection(_, input) => HasApproval(input)
    case Filter(_, input) => HasApproval(input)
    case Aggregate(_, _, input) => HasApproval(input)
    case Join(l, r, _) => HasApproval(l) || HasApproval(r)
    case Empty(_, _) => false
    case Approved(_, _, _) => true
    case Noise(_, _, input) => HasApproval(input)
  }

  function Inputs(p: Plan): seq<Plan> {
    match p
    case Scan(_) => []
    case Empty(_, _) => []
    case Join(l, r, _) => [l, r]
    case _ => [p.input]
  }

  /** `q` is an approval marker of `p` with no other one above it. */
  ghost predicate OutermostIn(q: Plan, p: Plan) {
    if p.Approved? then q == p else exists i :: 0 <= i < |Inputs(p)| && OutermostIn(q, Inputs(p)[i])
  }

  ghost predicate IsMarkerOf(q: Plan, p: Plan) {
    q.Approved? && OutermostIn(q, p)
  }

  lemma OutermostBelow(q: Plan, p: Plan)
    ensures (p.Scan? || p.Empty?) ==> !OutermostIn(q, p)
    ensures p.Join? ==> (OutermostIn(q, p) <==> OutermostIn(q, p.left) || OutermostIn(q, p.right))
    ensures p.Projection? || p.Filter? || p.Aggregate? || p.Noise? ==> (OutermostIn(q, p) <==> OutermostIn(q, p.input))
  {
    if p.Join? {
      assert Inputs(p)[0] == p.left && Inputs(p)[1] == p.right;
    } else if !p.Scan? && !p.Empty? {
      assert Inputs(p)[0] == p.input;
    }
  }

  lemma {:induction false} SomeMarker(p: Plan) returns (q: Plan)
    requires HasApproval(p)
    ensures OutermostIn(q, p) && q.Approved?
  {
    match p {
      case Join(l, r, _) => if HasApproval(l) { q := SomeMarker(l); } else { q := SomeMarker(r); }
      case Projection(_, input) => q := SomeMarker(input);
      case Filter(_, input) => q := SomeMarker(input);
      case Aggregate(_, _, input) => q := SomeMarker(input);
      case Approved(_, _, _) => q := p;
      case Noise(_, _, input) => q := SomeMarker(input);
    }
    OutermostBelow(q, p);
  }

  lemma {:induction false} MarkerCounts(p: Plan, q: Plan)
    requires OutermostIn(q, p)
    ensures HasApproval(p) && q.Approved?
  {
    OutermostBelow(q, p);
    match p
    case Join(l, r, _) => if OutermostIn(q, l) { MarkerCounts(l, q); } else { MarkerCounts(r, q); }
    case Projection(_, input) => MarkerCounts(input, q);
    case Filter(_, input) => MarkerCounts(input, q);
    case Aggregate(_, _, input) => MarkerCounts(input, q);
    case Approved(_, _, _) =>
    case Noise(_, _, input) => MarkerCounts(input, q);
  }

  /** A plan counts as approved exactly if it holds a marker. */
  lemma ApprovalIff(p: Plan)
    ensures HasApproval(p) <==> exists q :: IsMarkerOf(q, p)
  {
    if HasApproval(p) {
      var q := SomeMarker(p);
      assert IsMarkerOf(q, p);
    }
    if q :| IsMarkerOf(q, p) {
      MarkerCounts(p, q);
    }
  }

  /** A plan depends on the rows of the tables it scans and on nothing else. */
  lemma {:induction false} SameRowsSameMeaning(sem: Semantics, p: Plan, db1: Database, db2: Database)
    requires forall t | t in Scans(p) :: RowsIn(db1, t) == RowsIn(db2, t)
    ensures Evaluate(sem, p, db1) == Evaluate(sem, p, db2)
  {
    match p
    case Scan(table) => assert table in Scans(p);
    case Join(l, r, _) =>
      SameRowsSameMeaning(sem, l, db1, db2);
      SameRowsSameMeaning(sem, r, db1, db2);
    case Empty(_, _) =>
    case Projection(_, input) => SameRowsSameMeaning(sem, input, db1, db2);
    case Filter(_, input) => SameRowsSameMeaning(sem, input, db1, db2);
    case Aggregate(_, _, input) => SameRowsSameMeaning(sem, input, db1, db2);
    case Approved(_, _, input) => SameRowsSameMeaning(sem, input, db1, db2);
    case Noise(_, _, input) => SameRowsSameMeaning(sem, input, db1, db2);
  }

  /** A plan without scans does not depend on the data. */
  lemma NoScansNoData(sem: Semantics, p: Plan, db1: Database, db2: Database)
    requires Scans(p) == []
    ensures Evaluate(sem, p, db1) == Evaluate(sem, p, db2)
  {
    SameRowsSameMeaning(sem, p, db1, db2);
  }

  lemma {:induction false} FilterTwice(eng: Engine, e: Expr, rows: seq<Row>)
    ensures FilterRows(eng, e, FilterRows(eng, e, rows)) == FilterRows(eng, e, rows)
  {
    if rows != [] {
      FilterTwice(eng, e, rows[1..]);
      if Keeps(eng, e, rows[0]) {
        assert ([rows[0]] + FilterRows(eng, e, rows[1..]))[1..] == FilterRows(eng, e, rows[1..]);
      }
    }
  }
}
