/** The second optimizer rule, src/optimizer_rules/row_filter.rs, and the two rules together. */
module RowFilter {
  import opened Prelude
  import opened Predicates
  import opened LogicalPlan
  import opened ContractCheck
  import opened Arrow
  import opened Typing

  /** The row-filter fields of a bundle; an inner None means full access for that principal. */
  datatype FilterPolicy = FilterPolicy(rowFilter: Option<string>, perPrincipal: map<string, Option<string>>)

  /** `effective_row_filter`: an entry for the principal, even an empty one, overrides the global filter. */
  function EffectiveFilter(policy: FilterPolicy, who: Principal): Option<string> {
    if who.id in policy.perPrincipal then policy.perPrincipal[who.id] else policy.rowFilter
  }

  datatype Choice = NoFilter | Unsupported | Use(expr: Expr)

  /** What `rewrite` decides before it walks: pass through, fail, or inject this predicate. */
  function Decide(
      eng: Engine, parse: string -> Option<SqlExpr>, policy: Option<FilterPolicy>, who: Principal): Choice {
    if policy.None? then NoFilter
    else
      match EffectiveFilter(policy.value, who)
      case None => NoFilter
      case Some(text) =>
        if text == "" then NoFilter
        else if parse(text).None? || Translate(eng, parse(text).value).None? then Unsupported
        else Use(Translate(eng, parse(text).value).value)
  }

  function FilterVisit(e: Expr): Plan -> Visit {
    (p: Plan) => if p.Approved? then ReplaceAndJump(Filter(e, p)) else Continue
  }

  function Filtered(choice: Choice, p: Plan): Plan {
    if choice.Use? then TransformDown(p, FilterVisit(choice.expr)) else p
  }

  /** What the planner knows: the schema of a node, and the operand types it can coerce. */
  datatype Planner = Planner(schemaOf: Plan -> Schema, accepts: OperandRule)

  /**
   `Filter::try_new` refuses a predicate whose type it can tell and which is not a truth value;
   what it cannot type, it lets through.
   */
  predicate Refuses(planner: Planner, e: Expr, p: Plan) {
    var t := TypeOf(planner.accepts, planner.schemaOf(p), e);
    t.Some? && t.value != TRUTH && t.value != OfNull
  }

  /** The filter is refused over some outermost marker. */
  predicate RefusedIn(planner: Planner, e: Expr, p: Plan) {
    match p
    case Scan(_) => false
    case Projection(_, input) => RefusedIn(planner, e, input)
    case Filter(_, input) => RefusedIn(planner, e, input)
    case Aggregate(_, _, input) => RefusedIn(planner, e, input)
    case Join(l, r, _) => RefusedIn(planner, e, l) || RefusedIn(planner, e, r)
    case Empty(_, _) => false
    case Approved(_, _, _) => Refuses(planner, e, p)
    case Noise(_, _, input) => RefusedIn(planner, e, input)
  }

  /** The closure of `rewrite`, carried down the tree; it stops at the first refusal. */
  method Walk(planner: Planner, e: Expr, p: Plan) returns (q: Plan, changed: bool, failed: bool)
    ensures failed <==> RefusedIn(planner, e, p)
    ensures !failed ==> q == TransformDown(p, FilterVisit(e)) && (changed <==> HasApproval(p))
    decreases p
  {
    q, changed, failed := p, false, false;
    match p
    case Scan(_) =>
    case Projection(columns, input) =>
      q, changed, failed := Walk(planner, e, input);
      q := Projection(columns, q);
    case Filter(f, input) =>
      q, changed, failed := Walk(planner, e, input);
      q := Filter(f, q);
    case Aggregate(groups, aggregates, input) =>
      q, changed, failed := Walk(planner, e, input);
      q := Aggregate(groups, aggregates, q);
    case Join(l, r, on) =>
      var left, right, more;
      left, changed, failed := Walk(planner, e, l);
      if failed {
        return;
      }
      right, more, failed := Walk(planner, e, r);
      q, changed := Join(left, right, on), changed || more;
    case Empty(_, _) =>
    case Approved(_, _, _) =>
      if Refuses(planner, e, p) {
        failed := true;
        return;
      }
      q, changed := Filter(e, p), true;
    case Noise(column, epsilon, input) =>
      q, changed, failed := Walk(planner, e, input);
      q := Noise(column, epsilon, q);
  }

  datatype Failure = ContractFilterUnsupported | NonBooleanPredicate

  /** `RowFilterRule::rewrite` */
  method Rewrite(
      eng: Engine, planner: Planner, parse: string -> Option<SqlExpr>,
      policy: Option<FilterPolicy>, who: Principal, p: Plan)
    returns (result: Result<(Plan, bool), Failure>)
    ensures var choice := Decide(eng, parse, policy, who);
            && (result == Err(ContractFilterUnsupported) <==> choice.Unsupported?)
            && (result == Err(NonBooleanPredicate) <==> choice.Use? && RefusedIn(planner, choice.expr, p))
            && (result.Ok? ==> result.value.0 == Filtered(choice, p) && (result.value.1 <==> choice.Use? && HasApproval(p)))
  {
    if policy.None? {
      return Ok((p, false));
    }
    var text := EffectiveFilter(policy.value, who);
    if text.None? || text.value == "" {
      return Ok((p, false));
    }
    var tree := parse(text.value);
    if tree.None? {
      return Err(ContractFilterUnsupported);
    }
    var e := Translate(eng, tree.value);
    if e.None? {
      return Err(ContractFilterUnsupported);
    }
    var q, changed, failed := Walk(planner, e.value, p);
    if failed {
      return Err(NonBooleanPredicate);
    }
    return Ok((q, changed));
  }

  /** A predicate that is a comparison or a test is never refused, over whatever plan. */
  lemma {:induction false} TestsAreNotRefused(planner: Planner, e: Expr, p: Plan)
    requires !e.Column? && (e.Constant? ==> e.value.Bool? || e.value.Null?)
    ensures !RefusedIn(planner, e, p)
  {
    match p
    case Join(l, r, _) => TestsAreNotRefused(planner, e, l); TestsAreNotRefused(planner, e, r);
    case Projection(_, input) => TestsAreNotRefused(planner, e, input);
    case Filter(_, input) => TestsAreNotRefused(planner, e, input);
    case Aggregate(_, _, input) => TestsAreNotRefused(planner, e, input);
    case Noise(_, _, input) => TestsAreNotRefused(planner, e, input);
    case _ =>
  }

  // ---- where it is refused ----

  /** The filter does not type to truth over the columns of this marker. */
  ghost predicate NotTruthOver(planner: Planner, e: Expr, q: Plan) {
    exists t :: TypeOf(planner.accepts, planner.schemaOf(q), e) == Some(Of(t)) && t != DataType.Boolean
  }

  lemma {:induction false} RefusedOver(planner: Planner, e: Expr, p: Plan) returns (q: Plan)
    requires RefusedIn(planner, e, p)
    ensures OutermostIn(q, p) && NotTruthOver(planner, e, q)
  {
    match p {
      case Join(l, r, _) =>
        if RefusedIn(planner, e, l) { q := RefusedOver(planner, e, l); } else { q := RefusedOver(planner, e, r); }
      case Projection(_, input) => q := RefusedOver(planner, e, input);
      case Filter(_, input) => q := RefusedOver(planner, e, input);
      case Aggregate(_, _, input) => q := RefusedOver(planner, e, input);
      case Approved(_, _, _) => q := p;
      case Noise(_, _, input) => q := RefusedOver(planner, e, input);
    }
    OutermostBelow(q, p);
  }

  lemma {:induction false} RefusedBy(planner: Planner, e: Expr, p: Plan, q: Plan)
    requires OutermostIn(q, p)
    ensures NotTruthOver(planner, e, q) ==> RefusedIn(planner, e, p)
  {
    OutermostBelow(q, p);
    match p
    case Join(l, r, _) => if OutermostIn(q, l) { RefusedBy(planner, e, l, q); } else { RefusedBy(planner, e, r, q); }
    case Projection(_, input) => RefusedBy(planner, e, input, q);
    case Filter(_, input) => RefusedBy(planner, e, input, q);
    case Aggregate(_, _, input) => RefusedBy(planner, e, input, q);
    case Approved(_, _, _) =>
    case Noise(_, _, input) => RefusedBy(planner, e, input, q);
  }

  /** A filter is refused exactly if over some outermost marker it has a type, and that is not truth. */
  lemma RefusedIff(planner: Planner, e: Expr, p: Plan)
    ensures RefusedIn(planner, e, p) <==> exists q :: OutermostIn(q, p) && NotTruthOver(planner, e, q)
  {
    if RefusedIn(planner, e, p) {
      var q := RefusedOver(planner, e, p);
    }
    if q :| OutermostIn(q, p) && NotTruthOver(planner, e, q) {
      RefusedBy(planner, e, p, q);
    }
  }

  // ---- the two rules together ----

  /** One optimizer pass: contract check, then row filter. */
  function Govern(bundle: Bundle, who: Principal, choice: Choice, p: Plan): Plan {
    Filtered(choice, Checked(bundle, who, p))
  }

  function GovernTimes(bundle: Bundle, who: Principal, choice: Choice, p: Plan, passes: nat): Plan {
    if passes == 0 then p else Govern(bundle, who, choice, GovernTimes(bundle, who, choice, p, passes - 1))
  }

  /** The rows of each table that the principal may see at all. */
  function Visible(eng: Engine, bundle: Bundle, who: Principal, choice: Choice, rows: seq<Row>): seq<Row> {
    if !IsApproved(bundle, who) then []
    else if choice.Use? then FilterRows(eng, choice.expr, rows)
    else rows
  }

  function Cut(eng: Engine, bundle: Bundle, who: Principal, choice: Choice, db: Database): Database {
    map t | t in db :: Visible(eng, bundle, who, choice, db[t])
  }

  /** Markers wrap nothing but scans, empty relations and other markers, as the contract check leaves them. */
  ghost predicate WellMarked(p: Plan) {
    match p
    case Scan(_) => true
    case Projection(_, input) => WellMarked(input)
    case Filter(_, input) => WellMarked(input)
    case Aggregate(_, _, input) => WellMarked(input)
    case Join(l, r, _) => WellMarked(l) && WellMarked(r)
    case Empty(_, _) => true
    case Approved(_, _, input) => IsMarkedLeaf(input)
    case Noise(_, _, input) => WellMarked(input)
  }

  ghost predicate IsMarkedLeaf(p: Plan) {
    match p
    case Scan(_) => true
    case Empty(produceOneRow, _) => !produceOneRow
    case Approved(_, _, input) => IsMarkedLeaf(input)
    case _ => false
  }

  lemma {:induction false} MarkerFreeIsWellMarked(p: Plan)
    requires !HasApproval(p)
    ensures WellMarked(p)
  {
    match p
    case Scan(_) =>
    case Empty(_, _) =>
    case Join(l, r, _) => MarkerFreeIsWellMarked(l); MarkerFreeIsWellMarked(r);
    case Projection(_, input) => MarkerFreeIsWellMarked(input);
    case Filter(_, input) => MarkerFreeIsWellMarked(input);
    case Aggregate(_, _, input) => MarkerFreeIsWellMarked(input);
    case Noise(_, _, input) => MarkerFreeIsWellMarked(input);
  }

  lemma {:induction false} CheckedLeaf(bundle: Bundle, who: Principal, p: Plan)
    requires IsMarkedLeaf(p)
    ensures IsMarkedLeaf(Checked(bundle, who, p))
  {
    match p
    case Approved(_, _, input) => CheckedLeaf(bundle, who, input);
    case _ =>
  }

  lemma {:induction false} GovernKeepsWellMarked(bundle: Bundle, who: Principal, choice: Choice, p: Plan)
    requires WellMarked(p)
    ensures WellMarked(Govern(bundle, who, choice, p))
  {
    match p
    case Scan(_) =>
    case Empty(_, _) =>
    case Join(l, r, _) =>
      GovernKeepsWellMarked(bundle, who, choice, l);
      GovernKeepsWellMarked(bundle, who, choice, r);
    case Approved(_, _, input) => CheckedLeaf(bundle, who, input);
    case Projection(_, input) => GovernKeepsWellMarked(bundle, who, choice, input);
    case Filter(_, input) => GovernKeepsWellMarked(bundle, who, choice, input);
    case Aggregate(_, _, input) => GovernKeepsWellMarked(bundle, who, choice, input);
    case Noise(_, _, input) => GovernKeepsWellMarked(bundle, who, choice, input);
  }

  lemma {:induction false} LeafMeaning(
      sem: Semantics, bundle: Bundle, who: Principal, choice: Choice, p: Plan, db: Database)
    requires IsMarkedLeaf(p)
    ensures Visible(sem.engine, bundle, who, choice, Evaluate(sem, Checked(bundle, who, p), db)) ==
            Evaluate(sem, p, Cut(sem.engine, bundle, who, choice, db))
    ensures !IsApproved(bundle, who) ==> Evaluate(sem, Checked(bundle, who, p), db) == []
  {
    match p
    case Approved(_, _, input) => LeafMeaning(sem, bundle, who, choice, input, db);
    case _ =>
  }

  lemma ScanMeaning(sem: Semantics, bundle: Bundle, who: Principal, choice: Choice, table: string, db: Database)
    requires !choice.Unsupported?
    ensures Evaluate(sem, Govern(bundle, who, choice, Scan(table)), db) ==
            Visible(sem.engine, bundle, who, choice, RowsIn(db, table))
  {
    var q := ScanReplacement(bundle, who, table);
    assert Checked(bundle, who, Scan(table)) == q;
    assert Evaluate(sem, q, db) == if IsApproved(bundle, who) then RowsIn(db, table) else [];
    if choice.Use? && IsApproved(bundle, who) {
      assert TransformDown(q, FilterVisit(choice.expr)) == Filter(choice.expr, q);
    }
  }

  /** One pass over any well-marked plan means: the same plan over the visible rows. */
  lemma {:induction false} GovernMeaning(
      sem: Semantics, bundle: Bundle, who: Principal, choice: Choice, p: Plan, db: Database)
    requires WellMarked(p) && !choice.Unsupported?
    ensures Evaluate(sem, Govern(bundle, who, choice, p), db) ==
            Evaluate(sem, p, Cut(sem.engine, bundle, who, choice, db))
  {
    match p
    case Scan(table) => ScanMeaning(sem, bundle, who, choice, table, db);
    case Empty(_, _) =>
    case Join(l, r, _) =>
      GovernMeaning(sem, bundle, who, choice, l, db);
      GovernMeaning(sem, bundle, who, choice, r, db);
    case Approved(_, _, input) => LeafMeaning(sem, bundle, who, choice, input, db);
    case Projection(_, input) => GovernMeaning(sem, bundle, who, choice, input, db);
    case Filter(_, input) => GovernMeaning(sem, bundle, who, choice, input, db);
    case Aggregate(_, _, input) => GovernMeaning(sem, bundle, who, choice, input, db);
    case Noise(_, _, input) => GovernMeaning(sem, bundle, who, choice, input, db);
  }

  lemma CutRows(eng: Engine, bundle: Bundle, who: Principal, choice: Choice, db: Database, table: string)
    ensures RowsIn(Cut(eng, bundle, who, choice, db), table) == Visible(eng, bundle, who, choice, RowsIn(db, table))
  {
  }

  lemma CutTwice(eng: Engine, bundle: Bundle, who: Principal, choice: Choice, db: Database, table: string)
    ensures RowsIn(Cut(eng, bundle, who, choice, Cut(eng, bundle, who, choice, db)), table) ==
            RowsIn(Cut(eng, bundle, who, choice, db), table)
  {
    CutRows(eng, bundle, who, choice, db, table);
    CutRows(eng, bundle, who, choice, Cut(eng, bundle, who, choice, db), table);
    if choice.Use? {
      FilterTwice(eng, choice.expr, RowsIn(db, table));
    }
  }

  lemma CutTwiceMeans(sem: Semantics, bundle: Bundle, who: Principal, choice: Choice, p: Plan, db: Database)
    ensures Evaluate(sem, p, Cut(sem.engine, bundle, who, choice, Cut(sem.engine, bundle, who, choice, db))) ==
            Evaluate(sem, p, Cut(sem.engine, bundle, who, choice, db))
  {
    var once := Cut(sem.engine, bundle, who, choice, db);
    forall t | t in Scans(p) ensures RowsIn(Cut(sem.engine, bundle, who, choice, once), t) == RowsIn(once, t) {
      CutTwice(sem.engine, bundle, who, choice, db, t);
    }
    SameRowsSameMeaning(sem, p, Cut(sem.engine, bundle, who, choice, once), once);
  }

  /**
   Contract check and row filter, run any number of times, evaluate to the original plan over
   the database in which every table is cut to the rows whose contract predicate is TRUE, or
   to no rows when the principal is denied.
   */
  lemma {:induction false} GovernedMeaning(
      sem: Semantics, bundle: Bundle, who: Principal, choice: Choice, p: Plan, db: Database, passes: nat)
    requires WellMarked(p) && !choice.Unsupported? && passes > 0
    ensures Evaluate(sem, GovernTimes(bundle, who, choice, p, passes), db) ==
            Evaluate(sem, p, Cut(sem.engine, bundle, who, choice, db))
  {
    var before := GovernTimes(bundle, who, choice, p, passes - 1);
    PassesKeepWellMarked(bundle, who, choice, p, passes - 1);
    GovernMeaning(sem, bundle, who, choice, before, db);
    if passes > 1 {
      GovernedMeaning(sem, bundle, who, choice, p, Cut(sem.engine, bundle, who, choice, db), passes - 1);
      CutTwiceMeans(sem, bundle, who, choice, p, db);
    }
  }

  lemma {:induction false} PassesKeepWellMarked(
      bundle: Bundle, who: Principal, choice: Choice, p: Plan, passes: nat)
    requires WellMarked(p)
    ensures WellMarked(GovernTimes(bundle, who, choice, p, passes))
  {
    if passes > 0 {
      PassesKeepWellMarked(bundle, who, choice, p, passes - 1);
      GovernKeepsWellMarked(bundle, who, choice, GovernTimes(bundle, who, choice, p, passes - 1));
    }
  }

  /**
   The same, from the bundle's own words: a principal with an entry of its own is judged by that
   entry and everyone else by the global filter. No text, or an empty one, shows all rows; else a
   row is visible exactly when the text is TRUE of it.
   */
  lemma VisibleIsSqlTruth(
      eng: Engine, parse: string -> Option<SqlExpr>, bundle: Bundle, who: Principal, policy: FilterPolicy,
      rows: seq<Row>, row: Row)
    requires IsApproved(bundle, who) && row in rows
    requires !Decide(eng, parse, Some(policy), who).Unsupported?
    ensures var visible := row in Visible(eng, bundle, who, Decide(eng, parse, Some(policy), who), rows);
            var own := who.id in policy.perPrincipal;
            && (own ==> SeesBy(eng, parse, policy.perPrincipal[who.id], row, visible))
            && (!own ==> SeesBy(eng, parse, policy.rowFilter, row, visible))
  {
    var text := EffectiveFilter(policy, who);
    if text.Some? && text.value != "" && ParserTree(parse(text.value).value) {
      TranslationPreservesMeaning(eng, parse(text.value).value, row);
      FilterMembers(eng, Decide(eng, parse, Some(policy), who).expr, rows, row);
    }
  }

  predicate IsBlank(text: Option<string>) {
    text.None? || text.value == ""
  }

  /** A filter text that is there, is not empty, and cannot be parsed or translated. */
  ghost predicate Unreadable(eng: Engine, parse: string -> Option<SqlExpr>, text: Option<string>) {
    && !IsBlank(text)
    && (parse(text.value).None? || Translate(eng, parse(text.value).value).None?)
  }

  /** When the rule fails for its filter, and when it has nothing to inject: by the same words. */
  lemma FilterFailsIff(eng: Engine, parse: string -> Option<SqlExpr>, policy: FilterPolicy, who: Principal)
    ensures var choice, own := Decide(eng, parse, Some(policy), who), who.id in policy.perPrincipal;
            && (choice.Unsupported? <==> Unreadable(eng, parse, if own then policy.perPrincipal[who.id] else policy.rowFilter))
            && (choice.NoFilter? <==> IsBlank(if own then policy.perPrincipal[who.id] else policy.rowFilter))
    ensures Decide(eng, parse, None, who).NoFilter?
  {
  }

  ghost predicate SeesBy(eng: Engine, parse: string -> Option<SqlExpr>, text: Option<string>, row: Row, visible: bool) {
    if IsBlank(text) then visible
    else
      && parse(text.value).Some?
      && (ParserTree(parse(text.value).value) ==>
            (visible <==> ToTruth(SqlEval(eng, parse(text.value).value, row)) == True))
  }

  lemma {:induction false} FilterMembers(eng: Engine, e: Expr, rows: seq<Row>, row: Row)
    ensures row in FilterRows(eng, e, rows) <==> row in rows && Keeps(eng, e, row)
  {
    if rows != [] {
      FilterMembers(eng, e, rows[1..], row);
      assert rows == [rows[0]] + rows[1..];
    }
  }
}
