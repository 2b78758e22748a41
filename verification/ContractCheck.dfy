/** The first optimizer rule, src/optimizer_rules/contract_check.rs. */
module ContractCheck {
  import opened Prelude
  import opened LogicalPlan

  datatype Principal = Principal(id: string, purpose: string, tier: string, classification: string)

  datatype Constraints = Constraints(
    allowedPurposes: seq<string>, requiredTier: Option<string>, requiredClassification: Option<string>)

  /** A bundle; `constraints` is what its JSON parses to, None when it is empty or malformed. */
  datatype Bundle = Bundle(contract: string, tenant: string, constraints: Option<Constraints>)

  datatype AuditKind =
    | ContractCheckDenied | PurposeMismatch | TierMismatch | ClassificationMismatch
    | ContractCheckApproved | PrivacyBudgetExhausted

  datatype AuditRecord = AuditRecord(kind: AuditKind, table: string, tenant: string, contract: string)

  datatype Marker = Marker(contract: string, tenant: string)

  /** Pairs of a required tier and one below it, in the order bronze, silver, gold. */
  const TOO_LOW: set<(string, string)> := {("silver", "bronze"), ("gold", "bronze"), ("gold", "silver")}

  function TierRank(tier: string): Option<nat> {
    if tier == "bronze" then Some(0)
    else if tier == "silver" then Some(1)
    else if tier == "gold" then Some(2)
    else None
  }

  predicate TierTooLow(required: string, tier: string) {
    TierRank(required).Some? && TierRank(tier).Some? && TierRank(tier).value < TierRank(required).value
  }

  /** `check_principal`: the first violated constraint, in a fixed order. */
  function CheckPrincipal(data: Constraints, who: Principal): Option<AuditKind> {
    if data.allowedPurposes != [] && who.purpose !in data.allowedPurposes then Some(PurposeMismatch)
    else if data.requiredTier.Some? && TierTooLow(data.requiredTier.value, who.tier) then Some(TierMismatch)
    else if data.requiredClassification.Some? && who.classification != data.requiredClassification.value then
      Some(ClassificationMismatch)
    else None
  }

  /** Why every scan is denied, or None when every scan is approved. */
  function Denial(bundle: Bundle, who: Principal): Option<AuditKind> {
    match bundle.constraints
    case None => Some(ContractCheckDenied)
    case Some(data) => CheckPrincipal(data, who)
  }

  predicate IsApproved(bundle: Bundle, who: Principal) {
    Denial(bundle, who).None?
  }

  /** The empty relation keeps the schema of the table it stands for, written here as the table. */
  function ScanReplacement(bundle: Bundle, who: Principal, table: string): Plan {
    if IsApproved(bundle, who) then Approved(bundle.contract, bundle.tenant, Scan(table)) else Empty(false, [table])
  }

  function CheckVisit(bundle: Bundle, who: Principal): Plan -> Visit {
    (p: Plan) => if p.Scan? then ReplaceAndJump(ScanReplacement(bundle, who, p.table)) else Continue
  }

  function Checked(bundle: Bundle, who: Principal, p: Plan): Plan {
    TransformDown(p, CheckVisit(bundle, who))
  }

  function AuditFor(bundle: Bundle, who: Principal, table: string): AuditRecord {
    var denial := Denial(bundle, who);
    AuditRecord(if denial.Some? then denial.value else ContractCheckApproved, table, bundle.tenant, bundle.contract)
  }

  function Audits(bundle: Bundle, who: Principal, tables: seq<string>): seq<AuditRecord> {
    if tables == [] then [] else [AuditFor(bundle, who, tables[0])] + Audits(bundle, who, tables[1..])
  }

  function Markers(bundle: Bundle, who: Principal, tables: seq<string>): seq<Marker> {
    seq(if IsApproved(bundle, who) then |tables| else 0, _ => Marker(bundle.contract, bundle.tenant))
  }

  /** The tables that the shared set gains. */
  function Granted(bundle: Bundle, who: Principal, tables: seq<string>): set<string> {
    if IsApproved(bundle, who) then set t | t in tables else {}
  }

  lemma {:induction false} AuditsAppend(bundle: Bundle, who: Principal, a: seq<string>, b: seq<string>)
    ensures Audits(bundle, who, a + b) == Audits(bundle, who, a) + Audits(bundle, who, b)
  {
    if a == [] {
      assert a + b == b;
    } else {
      assert (a + b)[1..] == a[1..] + b;
      AuditsAppend(bundle, who, a[1..], b);
    }
  }

  lemma MarkersAppend(bundle: Bundle, who: Principal, a: seq<string>, b: seq<string>)
    ensures Markers(bundle, who, a + b) == Markers(bundle, who, a) + Markers(bundle, who, b)
  {
  }

  lemma GrantedAppend(bundle: Bundle, who: Principal, a: seq<string>, b: seq<string>)
    ensures Granted(bundle, who, a + b) == Granted(bundle, who, a) + Granted(bundle, who, b)
  {
  }

  /** Two walks in a row fill the three logs as one walk over both lists of scans. */
  lemma WalksCompose(
      bundle: Bundle, who: Principal, records: seq<AuditRecord>, markers: seq<Marker>, names: set<string>,
      a: seq<string>, b: seq<string>)
    ensures (records + Audits(bundle, who, a)) + Audits(bundle, who, b) == records + Audits(bundle, who, a + b)
    ensures (markers + Markers(bundle, who, a)) + Markers(bundle, who, b) == markers + Markers(bundle, who, a + b)
    ensures (names + Granted(bundle, who, a)) + Granted(bundle, who, b) == names + Granted(bundle, who, a + b)
  {
    AuditsAppend(bundle, who, a, b);
    MarkersAppend(bundle, who, a, b);
    GrantedAppend(bundle, who, a, b);
    Reassociate(records, Audits(bundle, who, a), Audits(bundle, who, b));
    Reassociate(markers, Markers(bundle, who, a), Markers(bundle, who, b));
  }

  /** The set that the rule shares with the rules after it. */
  class ApprovedTableSet {
    var names: set<string>

    constructor ()
      ensures names == {}
    {
      names := {};
    }

    method Approve(table: string)
      modifies this
      ensures names == old(names) + {table}
    {
      names := names + {table};
    }
  }

  /** `ContractCheckRule` with the three logs it fills. */
  class Rule {
    const bundle: Bundle
    const principal: Principal
    const approvedSet: ApprovedTableSet
    var auditRecords: seq<AuditRecord>
    var approvedTables: seq<Marker>

    constructor (bundle: Bundle, principal: Principal, approvedSet: ApprovedTableSet)
      ensures this.bundle == bundle && this.principal == principal && this.approvedSet == approvedSet
      ensures auditRecords == [] && approvedTables == []
    {
      this.bundle, this.principal, this.approvedSet := bundle, principal, approvedSet;
      auditRecords, approvedTables := [], [];
    }

    /** `evaluate_scan`: decide one scan, record the decision, and build its replacement. */
    method EvaluateScan(table: string) returns (replacement: Plan, marker: Option<Marker>)
      modifies this`auditRecords, approvedSet
      ensures replacement == ScanReplacement(bundle, principal, table)
      ensures marker == if IsApproved(bundle, principal) then Some(Marker(bundle.contract, bundle.tenant)) else None
      ensures auditRecords == old(auditRecords) + [AuditFor(bundle, principal, table)]
      ensures approvedSet.names == old(approvedSet.names) + (if IsApproved(bundle, principal) then {table} else {})
    {
      match bundle.constraints {
        case None =>
          auditRecords := auditRecords + [AuditRecord(ContractCheckDenied, table, bundle.tenant, bundle.contract)];
          return Empty(false, [table]), None;
        case Some(data) =>
          match CheckPrincipal(data, principal) {
            case Some(kind) =>
              auditRecords := auditRecords + [AuditRecord(kind, table, bundle.tenant, bundle.contract)];
              return Empty(false, [table]), None;
            case None =>
              auditRecords := auditRecords + [AuditRecord(ContractCheckApproved, table, bundle.tenant, bundle.contract)];
              approvedSet.Approve(table);
              return Approved(bundle.contract, bundle.tenant, Scan(table)), Some(Marker(bundle.contract, bundle.tenant));
          }
      }
    }

    /** The closure of `rewrite`, at a scan. */
    method VisitScan(table: string) returns (q: Plan)
      modifies this, approvedSet
      ensures q == ScanReplacement(bundle, principal, table)
      ensures auditRecords == old(auditRecords) + Audits(bundle, principal, [table])
      ensures approvedTables == old(approvedTables) + Markers(bundle, principal, [table])
      ensures approvedSet.names == old(approvedSet.names) + Granted(bundle, principal, [table])
    {
      var marker;
      q, marker := EvaluateScan(table);
      if marker.Some? {
        approvedTables := approvedTables + [marker.value];
      }
      assert Audits(bundle, principal, [table]) == [AuditFor(bundle, principal, table)] by { assert [table][1..] == []; }
    }

    /** The two sides of a join, left before right. */
    method WalkBoth(ghost p: Plan, l: Plan, r: Plan) returns (left: Plan, right: Plan, changed: bool)
      requires l < p && r < p
      modifies this, approvedSet
      ensures left == Checked(bundle, principal, l) && right == Checked(bundle, principal, r)
      ensures changed <==> Scans(l) != [] || Scans(r) != []
      ensures auditRecords == old(auditRecords) + Audits(bundle, principal, Scans(l) + Scans(r))
      ensures approvedTables == old(approvedTables) + Markers(bundle, principal, Scans(l) + Scans(r))
      ensures approvedSet.names == old(approvedSet.names) + Granted(bundle, principal, Scans(l) + Scans(r))
      decreases p, 0
    {
      ghost var records, markers, names := auditRecords, approvedTables, approvedSet.names;
      var leftChanged, rightChanged;
      left, leftChanged := Walk(l);
      right, rightChanged := Walk(r);
      changed := leftChanged || rightChanged;
      WalksCompose(bundle, principal, records, markers, names, Scans(l), Scans(r));
    }

    /** The closure of `rewrite`, carried down the tree. */
    method Walk(p: Plan) returns (q: Plan, changed: bool)
      modifies this, approvedSet
      ensures q == Checked(bundle, principal, p)
      ensures changed <==> Scans(p) != []
      ensures auditRecords == old(auditRecords) + Audits(bundle, principal, Scans(p))
      ensures approvedTables == old(approvedTables) + Markers(bundle, principal, Scans(p))
      ensures approvedSet.names == old(approvedSet.names) + Granted(bundle, principal, Scans(p))
      decreases p, 1
    {
      match p
      case Scan(table) =>
        q := VisitScan(table);
        changed := true;
      case Projection(columns, input) =>
        var inner;
        inner, changed := Walk(input);
        q := Projection(columns, inner);
      case Filter(e, input) =>
        var inner;
        inner, changed := Walk(input);
        q := Filter(e, inner);
      case Aggregate(groups, aggregates, input) =>
        var inner;
        inner, changed := Walk(input);
        q := Aggregate(groups, aggregates, inner);
      case Join(l, r, on) =>
        var left, right;
        left, right, changed := WalkBoth(p, l, r);
        q := Join(left, right, on);
      case Empty(_, _) =>
        q, changed := p, false;
      case Approved(contract, tenant, input) =>
        var inner;
        inner, changed := Walk(input);
        q := Approved(contract, tenant, inner);
      case Noise(column, epsilon, input) =>
        var inner;
        inner, changed := Walk(input);
        q := Noise(column, epsilon, inner);
    }
  }

  // ---- results ----

  /** Exactly when a principal is let through. A tier name outside the known order is never too low. */
  lemma ApprovedIff(data: Constraints, who: Principal)
    ensures CheckPrincipal(data, who).None? <==>
              && (data.allowedPurposes == [] || who.purpose in data.allowedPurposes)
              && (data.requiredClassification.None? || data.requiredClassification.value == who.classification)
              && (data.requiredTier.Some? ==> (data.requiredTier.value, who.tier) !in TOO_LOW)
  {
  }

  /** Why a scan is denied, and so what is recorded for it: the first of the checks that fails. */
  lemma DenialIff(bundle: Bundle, who: Principal, table: string)
    ensures AuditFor(bundle, who, table).table == table
    ensures AuditFor(bundle, who, table).tenant == bundle.tenant && AuditFor(bundle, who, table).contract == bundle.contract
    ensures bundle.constraints == None ==> AuditFor(bundle, who, table).kind == ContractCheckDenied
    ensures bundle.constraints.Some? ==>
              var data, kind := bundle.constraints.value, AuditFor(bundle, who, table).kind;
              var wrongPurpose := data.allowedPurposes != [] && who.purpose !in data.allowedPurposes;
              var lowTier := data.requiredTier.Some? && (data.requiredTier.value, who.tier) in TOO_LOW;
              var wrongClass := data.requiredClassification.Some? && data.requiredClassification.value != who.classification;
              && (kind == PurposeMismatch <==> wrongPurpose)
              && (kind == TierMismatch <==> !wrongPurpose && lowTier)
              && (kind == ClassificationMismatch <==> !wrongPurpose && !lowTier && wrongClass)
              && (kind == ContractCheckApproved <==> !wrongPurpose && !lowTier && !wrongClass)
  {
  }

  /** Every scan of the result sits directly under an approval marker of this bundle. */
  ghost predicate Guarded(p: Plan) {
    match p
    case Scan(_) => false
    case Projection(_, input) => Guarded(input)
    case Filter(_, input) => Guarded(input)
    case Aggregate(_, _, input) => Guarded(input)
    case Join(l, r, _) => Guarded(l) && Guarded(r)
    case Empty(_, _) => true
    case Approved(_, _, input) => input.Scan? || Guarded(input)
    case Noise(_, _, input) => Guarded(input)
  }

  lemma {:induction false} CheckedIsGuarded(bundle: Bundle, who: Principal, p: Plan)
    ensures Guarded(Checked(bundle, who, p))
    ensures Scans(Checked(bundle, who, p)) == if IsApproved(bundle, who) then Scans(p) else []
  {
    match p
    case Scan(_) =>
    case Empty(_, _) =>
    case Join(l, r, _) =>
      CheckedIsGuarded(bundle, who, l);
      CheckedIsGuarded(bundle, who, r);
    case Projection(_, input) => CheckedIsGuarded(bundle, who, input);
    case Filter(_, input) => CheckedIsGuarded(bundle, who, input);
    case Aggregate(_, _, input) => CheckedIsGuarded(bundle, who, input);
    case Approved(_, _, input) => CheckedIsGuarded(bundle, who, input);
    case Noise(_, _, input) => CheckedIsGuarded(bundle, who, input);
  }

  /** Nothing the data says can reach a principal who is denied. */
  lemma DeniedSeesNoData(sem: Semantics, bundle: Bundle, who: Principal, p: Plan, db1: Database, db2: Database)
    requires !IsApproved(bundle, who)
    ensures Evaluate(sem, Checked(bundle, who, p), db1) == Evaluate(sem, Checked(bundle, who, p), db2)
  {
    CheckedIsGuarded(bundle, who, p);
    NoScansNoData(sem, Checked(bundle, who, p), db1, db2);
  }

  /**
   What one walk leaves behind for the scans it met: a record for each, in order; and, if the
   principal is let through, a marker for each and its table in the shared set, else neither.
   */
  lemma {:induction false} LogsAre(bundle: Bundle, who: Principal, tables: seq<string>)
    ensures |Audits(bundle, who, tables)| == |tables|
    ensures forall i :: 0 <= i < |tables| ==> Audits(bundle, who, tables)[i] == AuditFor(bundle, who, tables[i])
    ensures var approved := AuditFor(bundle, who, "").kind == ContractCheckApproved;
            && |Markers(bundle, who, tables)| == (if approved then |tables| else 0)
            && (forall m | m in Markers(bundle, who, tables) :: m.contract == bundle.contract && m.tenant == bundle.tenant)
            && (forall t :: t in Granted(bundle, who, tables) <==> approved && t in tables)
  {
    DenialIff(bundle, who, "");
    if tables != [] {
      LogsAre(bundle, who, tables[1..]);
    }
  }
}
