/** The fourth optimizer rule, src/optimizer_rules/dp_noise.rs. */
module DpNoise {
  import opened Prelude
  import opened LogicalPlan
  import opened ContractCheck
  import opened PrivacyBudget

  /** What the rule is given: whose budget, whether it is enforced, and each tagged column's epsilon. */
  datatype Policy = Policy(tenant: string, contract: string, enforced: bool, epsilons: map<string, real>)

  /** The state of one rewrite: the budgets, the audit log, and the pending error. */
  datatype State = State(budgets: Budgets, audits: seq<AuditRecord>, error: Option<string>)

  // ---- what the rule looks at ----

  /** `collect_column_names`: leaf columns, left to right, repetitions kept. */
  function ColumnNames(e: AggExpr): seq<string>
    decreases e, 1
  {
    match e
    case AggColumn(name) => [name]
    case AggFunction(_, args, _) => AllColumnNames(args)
    case AggBinary(l, r) => ColumnNames(l) + ColumnNames(r)
    case AggAlias(x, _) => ColumnNames(x)
    case AggCast(x) => ColumnNames(x)
    case AggOther(_, _) => []
  }

  function AllColumnNames(es: seq<AggExpr>): seq<string>
    decreases es, 0
  {
    if es == [] then [] else ColumnNames(es[0]) + AllColumnNames(es[1..])
  }

  // ---- one aggregate ----

  function Exhausted(pol: Policy, s: State, column: string): State {
    s.(audits := s.audits + [AuditRecord(PrivacyBudgetExhausted, "<aggregate>", pol.tenant, pol.contract)],
       error := Some(column))
  }

  function Charge(pol: Policy, s: State, column: string): State
    requires column in pol.epsilons
  {
    if !pol.enforced then s
    else if Grants(s.budgets, (pol.tenant, column), pol.epsilons[column])
    then s.(budgets := Debit(s.budgets, (pol.tenant, column), pol.epsilons[column]))
    else Exhausted(pol, s, column)
  }

  /** The loop over the columns: charge each tagged one, stop at the first refusal. */
  function ChargeAll(pol: Policy, s: State, columns: seq<string>): (State, seq<string>)
    decreases columns
  {
    if columns == [] then (s, [])
    else if columns[0] !in pol.epsilons then ChargeAll(pol, s, columns[1..])
    else
      var s' := Charge(pol, s, columns[0]);
      if s'.error.Some? then (s', [])
      else
        var (s'', found) := ChargeAll(pol, s', columns[1..]);
        (s'', [columns[0]] + found)
  }

  /** One noise node per charged column, the first innermost. */
  function Wrap(pol: Policy, columns: seq<string>, p: Plan): Plan
    requires forall c | c in columns :: c in pol.epsilons
  {
    if columns == [] then p else Wrap(pol, columns[1..], Noise(columns[0], pol.epsilons[columns[0]], p))
  }

  lemma {:induction false} ChargedAreTagged(pol: Policy, s: State, columns: seq<string>)
    ensures forall c | c in ChargeAll(pol, s, columns).1 :: c in pol.epsilons
    decreases columns
  {
    if columns != [] {
      if columns[0] !in pol.epsilons {
        ChargedAreTagged(pol, s, columns[1..]);
      } else if Charge(pol, s, columns[0]).error.None? {
        ChargedAreTagged(pol, Charge(pol, s, columns[0]), columns[1..]);
      }
    }
  }

  // ---- the walk ----

  /** The walk with its pending error: once an error is pending nothing is touched any more. */
  function Walk(pol: Policy, s: State, p: Plan): (State, Plan)
    decreases p
  {
    if s.error.Some? then (s, p)
    else
      match p
      case Aggregate(groups, aggregates, input) =>
        if !HasApproval(input) then Descend(pol, s, p)
        else
          var (s', found) := ChargeAll(pol, s, AllColumnNames(aggregates));
          ChargedAreTagged(pol, s, AllColumnNames(aggregates));
          if s'.error.Some? then (s', p)
          else if found == [] then Descend(pol, s', p)
          else (s', Wrap(pol, found, p))
      case _ => Descend(pol, s, p)
  }

  /** Go on into the children. */
  function Descend(pol: Policy, s: State, p: Plan): (State, Plan)
    decreases p, 0
  {
    match p
    case Projection(columns, input) => var (s', q) := Walk(pol, s, input); (s', Projection(columns, q))
    case Filter(e, input) => var (s', q) := Walk(pol, s, input); (s', Filter(e, q))
    case Aggregate(groups, aggregates, input) =>
      var (s', q) := Walk(pol, s, input); (s', Aggregate(groups, aggregates, q))
    case Join(l, r, on) =>
      var (s1, q1) := Walk(pol, s, l);
      var (s2, q2) := Walk(pol, s1, r);
      (s2, Join(q1, q2, on))
    case Approved(contract, tenant, input) =>
      var (s', q) := Walk(pol, s, input); (s', Approved(contract, tenant, q))
    case Noise(column, epsilon, input) =>
      var (s', q) := Walk(pol, s, input); (s', Noise(column, epsilon, q))
    case _ => (s, p)
  }

  // ---- the rule as it runs ----

  /** `DPNoiseRule`; `epsilons` is None when the bundle is absent or malformed. */
  class Rule {
    const tenant: string
    const contract: string
    const epsilons: Option<map<string, real>>
    const budget: Tracker
    var auditRecords: seq<AuditRecord>

    constructor (tenant: string, contract: string, epsilons: Option<map<string, real>>, budget: Tracker)
      ensures this.tenant == tenant && this.contract == contract && this.epsilons == epsilons && this.budget == budget
      ensures auditRecords == []
    {
      this.tenant, this.contract, this.epsilons, this.budget := tenant, contract, epsilons, budget;
      auditRecords := [];
    }

    function ThePolicy(): Policy {
      Policy(tenant, contract, budget.enabled, if epsilons.Some? then epsilons.value else map[])
    }

    ghost function Abstract(error: Option<string>): State
      reads this, budget
    {
      State(budget.budgets, auditRecords, error)
    }

    /** Recursively append the leaf columns of one expression. */
    method CollectColumnNames(e: AggExpr, out: seq<string>) returns (out': seq<string>)
      ensures out' == out + ColumnNames(e)
      decreases e
    {
      out' := out;
      match e
      case AggColumn(name) => out' := out' + [name];
      case AggFunction(_, args, _) =>
        var i := 0;
        while i < |args|
          invariant 0 <= i <= |args|
          invariant out' + AllColumnNames(args[i..]) == out + AllColumnNames(args)
        {
          assert args[i..][1..] == args[i + 1..];
          Reassociate(out', ColumnNames(args[i]), AllColumnNames(args[i + 1..]));
          out' := CollectColumnNames(args[i], out');
          i := i + 1;
        }
      case AggBinary(l, r) =>
        out' := CollectColumnNames(l, out');
        out' := CollectColumnNames(r, out');
        Reassociate(out, ColumnNames(l), ColumnNames(r));
      case AggAlias(x, _) => out' := CollectColumnNames(x, out');
      case AggCast(x) => out' := CollectColumnNames(x, out');
      case AggOther(_, _) =>
    }

    /** Charge every tagged column of one aggregate, or stop with an error. */
    method ChargeColumns(columns: seq<string>) returns (found: seq<string>, error: Option<string>)
      modifies this, budget
      ensures Abstract(error) == ChargeAll(ThePolicy(), old(Abstract(None)), columns).0
      ensures error.None? ==> found == ChargeAll(ThePolicy(), old(Abstract(None)), columns).1
    {
      found, error := [], None;
      var pol := ThePolicy();
      var i := 0;
      while i < |columns|
        invariant 0 <= i <= |columns| && error.None?
        invariant var (s, more) := ChargeAll(pol, Abstract(None), columns[i..]);
                  var (s', all) := ChargeAll(pol, old(Abstract(None)), columns);
                  s == s' && (s.error.None? ==> found + more == all)
      {
        assert columns[i..][1..] == columns[i + 1..];
        var column := columns[i];
        if column in pol.epsilons {
          var refused := budget.Consume(tenant, column, pol.epsilons[column]);
          if refused.Some? {
            auditRecords := auditRecords + [AuditRecord(PrivacyBudgetExhausted, "<aggregate>", tenant, contract)];
            error := Some(column);
            return;
          }
          found := found + [column];
        }
        i := i + 1;
      }
      assert columns[i..] == [] && found + [] == found;
    }

    /** The wrapper chain, grown from the inside out. */
    method WrapAll(columns: seq<string>, p: Plan) returns (current: Plan)
      requires forall c | c in columns :: c in ThePolicy().epsilons
      ensures current == Wrap(ThePolicy(), columns, p)
    {
      var pol := ThePolicy();
      current := p;
      var i := 0;
      while i < |columns|
        invariant 0 <= i <= |columns|
        invariant Wrap(pol, columns[i..], current) == Wrap(pol, columns, p)
      {
        assert columns[i..][1..] == columns[i + 1..];
        current := Noise(columns[i], pol.epsilons[columns[i]], current);
        i := i + 1;
      }
    }

    /** One node of the walk; `pending` is the error found so far. */
    method Visit(p: Plan, pending: Option<string>) returns (q: Plan, error: Option<string>)
      modifies this, budget
      ensures (Abstract(error), q) == Walk(ThePolicy(), old(Abstract(pending)), p)
      decreases p, 1
    {
      if pending.Some? {
        return p, pending;
      }
      if p.Aggregate? && HasApproval(p.input) {
        var columns := CollectColumnNames(AggFunction("", p.aggregates, []), []);
        assert [] + AllColumnNames(p.aggregates) == AllColumnNames(p.aggregates);
        ChargedAreTagged(ThePolicy(), Abstract(None), columns);
        var found;
        found, error := ChargeColumns(columns);
        if error.Some? {
          return p, error;
        }
        if found != [] {
          q := WrapAll(found, p);
          return;
        }
      }
      q, error := VisitChildren(p);
    }

    method VisitChildren(p: Plan) returns (q: Plan, error: Option<string>)
      modifies this, budget
      ensures (Abstract(error), q) == Descend(ThePolicy(), old(Abstract(None)), p)
      decreases p, 0
    {
      match p
      case Projection(columns, input) =>
        q, error := Visit(input, None);
        q := Projection(columns, q);
      case Filter(e, input) =>
        q, error := Visit(input, None);
        q := Filter(e, q);
      case Aggregate(groups, aggregates, input) =>
        q, error := Visit(input, None);
        q := Aggregate(groups, aggregates, q);
      case Join(l, r, on) =>
        var left, right;
        left, error := Visit(l, None);
        right, error := Visit(r, error);
        q := Join(left, right, on);
      case Approved(contract, tenant, input) =>
        q, error := Visit(input, None);
        q := Approved(contract, tenant, q);
      case Noise(column, epsilon, input) =>
        q, error := Visit(input, None);
        q := Noise(column, epsilon, q);
      case Scan(_) => q, error := p, None;
      case Empty(_, _) => q, error := p, None;
    }

    /** `DPNoiseRule::rewrite` */
    method Rewrite(p: Plan) returns (result: Result<Plan, string>)
      modifies this, budget
      ensures epsilons.None? || epsilons.value == map[] ==>
                result == Ok(p) && budget.budgets == old(budget.budgets) && auditRecords == old(auditRecords)
      ensures epsilons.Some? && epsilons.value != map[] ==>
                var (s, q) := Walk(ThePolicy(), old(Abstract(None)), p);
                && budget.budgets == s.budgets && auditRecords == s.audits
                && result == if s.error.Some? then Err(s.error.value) else Ok(q)
    {
      if epsilons.None? || |epsilons.value| == 0 {
        return Ok(p);
      }
      var q, error := Visit(p, None);
      result := if error.Some? then Err(error.value) else Ok(q);
    }
  }

  // ---- results ----

  /** The tagged columns of an aggregate, in the order they are charged. */
  function Tagged(pol: Policy, columns: seq<string>): seq<string> {
    if columns == [] then []
    else if columns[0] in pol.epsilons then [columns[0]] + Tagged(pol, columns[1..])
    else Tagged(pol, columns[1..])
  }

  function NoiseCount(p: Plan, column: string): nat {
    match p
    case Scan(_) => 0
    case Projection(_, input) => NoiseCount(input, column)
    case Filter(_, input) => NoiseCount(input, column)
    case Aggregate(_, _, input) => NoiseCount(input, column)
    case Join(l, r, _) => NoiseCount(l, column) + NoiseCount(r, column)
    case Empty(_, _) => 0
    case Approved(_, _, input) => NoiseCount(input, column)
    case Noise(c, _, input) => NoiseCount(input, column) + if c == column then 1 else 0
  }

  function Occurrences(columns: seq<string>, column: string): nat {
    if columns == [] then 0 else Occurrences(columns[1..], column) + if columns[0] == column then 1 else 0
  }

  /** What `n` charges for `key` cost. */
  function Cost(pol: Policy, key: Key, n: int): real {
    if key.0 == pol.tenant && key.1 in pol.epsilons then pol.epsilons[key.1] * (n as real) else 0.0
  }

  lemma CostAdds(pol: Policy, key: Key, m: int, n: int)
    ensures Cost(pol, key, m + n) == Cost(pol, key, m) + Cost(pol, key, n)
  {
  }

  lemma {:induction false} ChargeAllDebits(pol: Policy, s: State, columns: seq<string>, key: Key)
    requires pol.enforced && s.error.None? && ChargeAll(pol, s, columns).0.error.None?
    ensures var (s', found) := ChargeAll(pol, s, columns);
            && found == Tagged(pol, columns)
            && Remaining(s'.budgets, key) == Remaining(s.budgets, key) - Cost(pol, key, Occurrences(found, key.1))
    decreases columns
  {
    if columns != [] {
      if columns[0] !in pol.epsilons {
        ChargeAllDebits(pol, s, columns[1..], key);
      } else {
        ChargeAllDebits(pol, Charge(pol, s, columns[0]), columns[1..], key);
        var rest := Tagged(pol, columns[1..]);
        assert ([columns[0]] + rest)[1..] == rest;
        CostAdds(pol, key, Occurrences(rest, key.1), if columns[0] == key.1 then 1 else 0);
      }
    }
  }

  lemma {:induction false} WrapCounts(pol: Policy, columns: seq<string>, p: Plan, column: string)
    requires forall c | c in columns :: c in pol.epsilons
    ensures NoiseCount(Wrap(pol, columns, p), column) == NoiseCount(p, column) + Occurrences(columns, column)
    decreases columns
  {
    if columns != [] {
      WrapCounts(pol, columns[1..], Noise(columns[0], pol.epsilons[columns[0]], p), column);
    }
  }

  /**
   After every successful rewrite under enforcement, each key's budget has fallen by exactly its
   epsilon times the number of noise nodes that were added for its column; keys of other tenants
   and untagged columns are untouched.
   */
  lemma {:induction false} DebitsMatchNoise(pol: Policy, s: State, p: Plan, key: Key)
    requires pol.enforced && s.error.None? && Walk(pol, s, p).0.error.None?
    ensures var (s', q) := Walk(pol, s, p);
            && NoiseCount(q, key.1) >= NoiseCount(p, key.1)
            && Remaining(s'.budgets, key) ==
               Remaining(s.budgets, key) - Cost(pol, key, NoiseCount(q, key.1) - NoiseCount(p, key.1))
    decreases p, 2
  {
    if p.Aggregate? && HasApproval(p.input) {
      var columns := AllColumnNames(p.aggregates);
      var (s', found) := ChargeAll(pol, s, columns);
      ChargedAreTagged(pol, s, columns);
      ChargeAllDebits(pol, s, columns, key);
      if found == [] {
        DescendDebits(pol, s', p, key);
      } else {
        WrapCounts(pol, found, p, key.1);
      }
    } else {
      DescendDebits(pol, s, p, key);
    }
  }

  lemma TwoDebits(pol: Policy, key: Key, seed: real, mid: real, end: real, m: int, n: int)
    requires mid == seed - Cost(pol, key, m) && end == mid - Cost(pol, key, n)
    ensures end == seed - Cost(pol, key, m + n)
  {
    CostAdds(pol, key, m, n);
  }

  lemma {:induction false} JoinDebits(pol: Policy, s: State, p: Plan, key: Key)
    requires p.Join? && pol.enforced && s.error.None? && Descend(pol, s, p).0.error.None?
    ensures var (s', q) := Descend(pol, s, p);
            && NoiseCount(q, key.1) >= NoiseCount(p, key.1)
            && Remaining(s'.budgets, key) ==
               Remaining(s.budgets, key) - Cost(pol, key, NoiseCount(q, key.1) - NoiseCount(p, key.1))
    decreases p, 0
  {
    var Join(l, r, _) := p;
    var (s1, q1) := Walk(pol, s, l);
    var (s2, q2) := Walk(pol, s1, r);
    DebitsMatchNoise(pol, s, l, key);
    DebitsMatchNoise(pol, s1, r, key);
    TwoDebits(pol, key, Remaining(s.budgets, key), Remaining(s1.budgets, key), Remaining(s2.budgets, key),
              NoiseCount(q1, key.1) - NoiseCount(l, key.1), NoiseCount(q2, key.1) - NoiseCount(r, key.1));
  }

  lemma {:induction false} DescendDebits(pol: Policy, s: State, p: Plan, key: Key)
    requires pol.enforced && s.error.None? && Descend(pol, s, p).0.error.None?
    ensures var (s', q) := Descend(pol, s, p);
            && NoiseCount(q, key.1) >= NoiseCount(p, key.1)
            && Remaining(s'.budgets, key) ==
               Remaining(s.budgets, key) - Cost(pol, key, NoiseCount(q, key.1) - NoiseCount(p, key.1))
    decreases p, 1
  {
    match p
    case Join(_, _, _) => JoinDebits(pol, s, p, key);
    case Projection(_, input) => DebitsMatchNoise(pol, s, input, key);
    case Filter(_, input) => DebitsMatchNoise(pol, s, input, key);
    case Aggregate(_, _, input) => DebitsMatchNoise(pol, s, input, key);
    case Approved(_, _, input) => DebitsMatchNoise(pol, s, input, key);
    case Noise(_, _, input) => DebitsMatchNoise(pol, s, input, key);
    case Scan(_) =>
    case Empty(_, _) =>
  }

  /** The plan without its noise nodes. */
  function EraseNoise(p: Plan): Plan {
    match p
    case Scan(_) => p
    case Projection(columns, input) => Projection(columns, EraseNoise(input))
    case Filter(e, input) => Filter(e, EraseNoise(input))
    case Aggregate(groups, aggregates, input) => Aggregate(groups, aggregates, EraseNoise(input))
    case Join(l, r, on) => Join(EraseNoise(l), EraseNoise(r), on)
    case Empty(_, _) => p
    case Approved(contract, tenant, input) => Approved(contract, tenant, EraseNoise(input))
    case Noise(_, _, input) => EraseNoise(input)
  }

  predicate NoiseFree(p: Plan) {
    match p
    case Scan(_) => true
    case Projection(_, input) => NoiseFree(input)
    case Filter(_, input) => NoiseFree(input)
    case Aggregate(_, _, input) => NoiseFree(input)
    case Join(l, r, _) => NoiseFree(l) && NoiseFree(r)
    case Empty(_, _) => true
    case Approved(_, _, input) => NoiseFree(input)
    case Noise(_, _, _) => false
  }

  lemma {:induction false} EraseIsIdentity(p: Plan)
    requires NoiseFree(p)
    ensures EraseNoise(p) == p
  {
    match p
    case Scan(_) =>
    case Empty(_, _) =>
    case Join(l, r, _) => EraseIsIdentity(l); EraseIsIdentity(r);
    case Projection(_, input) => EraseIsIdentity(input);
    case Filter(_, input) => EraseIsIdentity(input);
    case Aggregate(_, _, input) => EraseIsIdentity(input);
    case Approved(_, _, input) => EraseIsIdentity(input);
  }

  lemma {:induction false} WrapErases(pol: Policy, columns: seq<string>, p: Plan)
    requires forall c | c in columns :: c in pol.epsilons
    ensures EraseNoise(Wrap(pol, columns, p)) == EraseNoise(p)
    decreases columns
  {
    if columns != [] {
      WrapErases(pol, columns[1..], Noise(columns[0], pol.epsilons[columns[0]], p));
    }
  }

  lemma {:induction false} WalkErases(pol: Policy, s: State, p: Plan)
    ensures EraseNoise(Walk(pol, s, p).1) == EraseNoise(p)
    decreases p, 1
  {
    if s.error.None? {
      if p.Aggregate? && HasApproval(p.input) {
        var columns := AllColumnNames(p.aggregates);
        var (s', found) := ChargeAll(pol, s, columns);
        ChargedAreTagged(pol, s, columns);
        if s'.error.None? {
          if found == [] { DescendErases(pol, s', p); } else { WrapErases(pol, found, p); }
        }
      } else {
        DescendErases(pol, s, p);
      }
    }
  }

  lemma {:induction false} DescendErases(pol: Policy, s: State, p: Plan)
    ensures EraseNoise(Descend(pol, s, p).1) == EraseNoise(p)
    decreases p, 0
  {
    match p
    case Join(l, r, _) =>
      WalkErases(pol, s, l);
      WalkErases(pol, Walk(pol, s, l).0, r);
    case Projection(_, input) => WalkErases(pol, s, input);
    case Filter(_, input) => WalkErases(pol, s, input);
    case Aggregate(_, _, input) => WalkErases(pol, s, input);
    case Approved(_, _, input) => WalkErases(pol, s, input);
    case Noise(_, _, input) => WalkErases(pol, s, input);
    case Scan(_) =>
    case Empty(_, _) =>
  }

  /** Erasing the added nodes gives back the input plan. */
  lemma RewriteOnlyAddsNoise(pol: Policy, s: State, p: Plan)
    ensures EraseNoise(Walk(pol, s, p).1) == EraseNoise(p)
    ensures NoiseFree(p) ==> EraseNoise(Walk(pol, s, p).1) == p
  {
    WalkErases(pol, s, p);
    if NoiseFree(p) { EraseIsIdentity(p); }
  }

  /** Every noise chain ends at an aggregate with no noise below it. */
  ghost predicate WrappedOnce(p: Plan) {
    match p
    case Scan(_) => true
    case Projection(_, input) => WrappedOnce(input)
    case Filter(_, input) => WrappedOnce(input)
    case Aggregate(_, _, input) => WrappedOnce(input)
    case Join(l, r, _) => WrappedOnce(l) && WrappedOnce(r)
    case Empty(_, _) => true
    case Approved(_, _, input) => WrappedOnce(input)
    case Noise(_, _, input) => ChainOverAggregate(input)
  }

  ghost predicate ChainOverAggregate(p: Plan) {
    match p
    case Noise(_, _, input) => ChainOverAggregate(input)
    case Aggregate(_, _, input) => NoiseFree(input)
    case _ => false
  }

  /** Every aggregate outside all noise nodes reads nothing tagged, or nothing approved. */
  ghost predicate NoneMissed(pol: Policy, p: Plan) {
    match p
    case Scan(_) => true
    case Projection(_, input) => NoneMissed(pol, input)
    case Filter(_, input) => NoneMissed(pol, input)
    case Aggregate(_, aggregates, input) =>
      (HasApproval(input) ==> Tagged(pol, AllColumnNames(aggregates)) == []) && NoneMissed(pol, input)
    case Join(l, r, _) => NoneMissed(pol, l) && NoneMissed(pol, r)
    case Empty(_, _) => true
    case Approved(_, _, input) => NoneMissed(pol, input)
    case Noise(_, _, _) => true
  }

  lemma {:induction false} WrapChains(pol: Policy, columns: seq<string>, p: Plan)
    requires columns != [] && forall c | c in columns :: c in pol.epsilons
    requires ChainOverAggregate(p)
    ensures WrappedOnce(Wrap(pol, columns, p)) && NoneMissed(pol, Wrap(pol, columns, p))
    ensures HasApproval(Wrap(pol, columns, p)) == HasApproval(p)
    decreases columns
  {
    var inner := Noise(columns[0], pol.epsilons[columns[0]], p);
    if |columns| > 1 {
      WrapChains(pol, columns[1..], inner);
    } else {
      assert columns[1..] == [];
    }
  }

  lemma {:induction false} ChargeAllFindsTagged(pol: Policy, s: State, columns: seq<string>)
    requires s.error.None? && ChargeAll(pol, s, columns).0.error.None?
    ensures ChargeAll(pol, s, columns).1 == Tagged(pol, columns)
    decreases columns
  {
    if columns != [] {
      if columns[0] !in pol.epsilons {
        ChargeAllFindsTagged(pol, s, columns[1..]);
      } else {
        ChargeAllFindsTagged(pol, Charge(pol, s, columns[0]), columns[1..]);
      }
    }
  }

  /**
   On a plan without noise, a successful rewrite leaves no approved aggregate in which the collector
   finds a tagged column outside every noise node, and never wraps an aggregate that lies below
   another wrapped one. What the collector does not enter and what lies below a wrapped aggregate
   is not looked at: `AllChargedIff`.
   */
  lemma {:induction false} ProtectsOutermostAggregates(pol: Policy, s: State, p: Plan)
    requires s.error.None? && NoiseFree(p) && Walk(pol, s, p).0.error.None?
    ensures var q := Walk(pol, s, p).1;
            WrappedOnce(q) && NoneMissed(pol, q) && HasApproval(q) == HasApproval(p)
    decreases p, 1
  {
    if p.Aggregate? && HasApproval(p.input) {
      var columns := AllColumnNames(p.aggregates);
      var (s', found) := ChargeAll(pol, s, columns);
      ChargedAreTagged(pol, s, columns);
      ChargeAllFindsTagged(pol, s, columns);
      if found == [] { DescendProtects(pol, s', p); } else { WrapChains(pol, found, p); }
    } else {
      DescendProtects(pol, s, p);
    }
  }

  lemma {:induction false} DescendProtects(pol: Policy, s: State, p: Plan)
    requires s.error.None? && NoiseFree(p) && Descend(pol, s, p).0.error.None?
    requires p.Aggregate? && HasApproval(p.input) ==> Tagged(pol, AllColumnNames(p.aggregates)) == []
    ensures var q := Descend(pol, s, p).1;
            WrappedOnce(q) && NoneMissed(pol, q) && HasApproval(q) == HasApproval(p)
    decreases p, 0
  {
    match p
    case Join(l, r, _) =>
      ProtectsOutermostAggregates(pol, s, l);
      ProtectsOutermostAggregates(pol, Walk(pol, s, l).0, r);
    case Projection(_, input) => ProtectsOutermostAggregates(pol, s, input);
    case Filter(_, input) => ProtectsOutermostAggregates(pol, s, input);
    case Aggregate(_, _, input) => ProtectsOutermostAggregates(pol, s, input);
    case Approved(_, _, input) => ProtectsOutermostAggregates(pol, s, input);
    case Scan(_) =>
    case Empty(_, _) =>
  }

  // ---- aggregates below wrapped aggregates ----

  /** The tagged columns that the collector finds in an approved aggregate. */
  function Due(pol: Policy, aggregates: seq<AggExpr>, input: Plan): seq<string> {
    if HasApproval(input) then Tagged(pol, AllColumnNames(aggregates)) else []
  }

  /** How often `column` is due over all aggregates of the plan. */
  function Demand(pol: Policy, p: Plan, column: string): nat {
    match p
    case Scan(_) => 0
    case Projection(_, input) => Demand(pol, input, column)
    case Filter(_, input) => Demand(pol, input, column)
    case Aggregate(_, aggregates, input) =>
      Occurrences(Due(pol, aggregates, input), column) + Demand(pol, input, column)
    case Join(l, r, _) => Demand(pol, l, column) + Demand(pol, r, column)
    case Empty(_, _) => 0
    case Approved(_, _, input) => Demand(pol, input, column)
    case Noise(_, _, input) => Demand(pol, input, column)
  }

  /** How often it is due over the outermost aggregates that have anything due. */
  function OuterDemand(pol: Policy, p: Plan, column: string): nat {
    match p
    case Scan(_) => 0
    case Projection(_, input) => OuterDemand(pol, input, column)
    case Filter(_, input) => OuterDemand(pol, input, column)
    case Aggregate(_, aggregates, input) =>
      var due := Due(pol, aggregates, input);
      if due != [] then Occurrences(due, column) else OuterDemand(pol, input, column)
    case Join(l, r, _) => OuterDemand(pol, l, column) + OuterDemand(pol, r, column)
    case Empty(_, _) => 0
    case Approved(_, _, input) => OuterDemand(pol, input, column)
    case Noise(_, _, input) => OuterDemand(pol, input, column)
  }

  /** Some aggregate of the plan has a column due. */
  predicate HasDue(pol: Policy, p: Plan) {
    match p
    case Scan(_) => false
    case Projection(_, input) => HasDue(pol, input)
    case Filter(_, input) => HasDue(pol, input)
    case Aggregate(_, aggregates, input) => Due(pol, aggregates, input) != [] || HasDue(pol, input)
    case Join(l, r, _) => HasDue(pol, l) || HasDue(pol, r)
    case Empty(_, _) => false
    case Approved(_, _, input) => HasDue(pol, input)
    case Noise(_, _, input) => HasDue(pol, input)
  }

  /** An aggregate with a column due lies below another one. */
  predicate NestedDue(pol: Policy, p: Plan) {
    match p
    case Scan(_) => false
    case Projection(_, input) => NestedDue(pol, input)
    case Filter(_, input) => NestedDue(pol, input)
    case Aggregate(_, aggregates, input) =>
      NestedDue(pol, input) || (Due(pol, aggregates, input) != [] && HasDue(pol, input))
    case Join(l, r, _) => NestedDue(pol, l) || NestedDue(pol, r)
    case Empty(_, _) => false
    case Approved(_, _, input) => NestedDue(pol, input)
    case Noise(_, _, input) => NestedDue(pol, input)
  }

  lemma {:induction false} NoiseFreeCounts(p: Plan, column: string)
    requires NoiseFree(p)
    ensures NoiseCount(p, column) == 0
  {
    match p
    case Scan(_) =>
    case Empty(_, _) =>
    case Join(l, r, _) => NoiseFreeCounts(l, column); NoiseFreeCounts(r, column);
    case Projection(_, input) => NoiseFreeCounts(input, column);
    case Filter(_, input) => NoiseFreeCounts(input, column);
    case Aggregate(_, _, input) => NoiseFreeCounts(input, column);
    case Approved(_, _, input) => NoiseFreeCounts(input, column);
  }

  /** A successful rewrite adds noise for exactly the outermost demand. */
  lemma {:induction false} NoiseIsOuterDemand(pol: Policy, s: State, p: Plan, column: string)
    requires s.error.None? && NoiseFree(p) && Walk(pol, s, p).0.error.None?
    ensures NoiseCount(Walk(pol, s, p).1, column) == OuterDemand(pol, p, column)
    decreases p, 1
  {
    if p.Aggregate? && HasApproval(p.input) {
      var columns := AllColumnNames(p.aggregates);
      var (s', found) := ChargeAll(pol, s, columns);
      ChargedAreTagged(pol, s, columns);
      ChargeAllFindsTagged(pol, s, columns);
      if found == [] {
        DescendIsOuterDemand(pol, s', p, column);
      } else {
        WrapCounts(pol, found, p, column);
        NoiseFreeCounts(p, column);
      }
    } else {
      DescendIsOuterDemand(pol, s, p, column);
    }
  }

  lemma {:induction false} DescendIsOuterDemand(pol: Policy, s: State, p: Plan, column: string)
    requires s.error.None? && NoiseFree(p) && Descend(pol, s, p).0.error.None?
    requires p.Aggregate? ==> Due(pol, p.aggregates, p.input) == []
    ensures NoiseCount(Descend(pol, s, p).1, column) == OuterDemand(pol, p, column)
    decreases p, 0
  {
    match p
    case Join(l, r, _) =>
      NoiseIsOuterDemand(pol, s, l, column);
      NoiseIsOuterDemand(pol, Walk(pol, s, l).0, r, column);
    case Projection(_, input) => NoiseIsOuterDemand(pol, s, input, column);
    case Filter(_, input) => NoiseIsOuterDemand(pol, s, input, column);
    case Aggregate(_, _, input) => NoiseIsOuterDemand(pol, s, input, column);
    case Approved(_, _, input) => NoiseIsOuterDemand(pol, s, input, column);
    case Scan(_) =>
    case Empty(_, _) =>
  }

  lemma {:induction false} OuterIsWithin(pol: Policy, p: Plan, column: string)
    ensures OuterDemand(pol, p, column) <= Demand(pol, p, column)
    ensures !HasDue(pol, p) ==> Demand(pol, p, column) == 0
    ensures !NestedDue(pol, p) ==> OuterDemand(pol, p, column) == Demand(pol, p, column)
  {
    match p
    case Scan(_) =>
    case Empty(_, _) =>
    case Join(l, r, _) => OuterIsWithin(pol, l, column); OuterIsWithin(pol, r, column);
    case Projection(_, input) => OuterIsWithin(pol, input, column);
    case Filter(_, input) => OuterIsWithin(pol, input, column);
    case Aggregate(_, _, input) => OuterIsWithin(pol, input, column);
    case Approved(_, _, input) => OuterIsWithin(pol, input, column);
    case Noise(_, _, input) => OuterIsWithin(pol, input, column);
  }

  lemma {:induction false} SomethingDue(pol: Policy, p: Plan) returns (column: string)
    requires HasDue(pol, p)
    ensures Demand(pol, p, column) > 0
  {
    match p
    case Join(l, r, _) => if HasDue(pol, l) { column := SomethingDue(pol, l); } else { column := SomethingDue(pol, r); }
    case Projection(_, input) => column := SomethingDue(pol, input);
    case Filter(_, input) => column := SomethingDue(pol, input);
    case Aggregate(_, aggregates, input) =>
      var due := Due(pol, aggregates, input);
      if due != [] { column := due[0]; } else { column := SomethingDue(pol, input); }
    case Approved(_, _, input) => column := SomethingDue(pol, input);
    case Noise(_, _, input) => column := SomethingDue(pol, input);
  }

  lemma {:induction false} NestedFallsShort(pol: Policy, p: Plan) returns (column: string)
    requires NestedDue(pol, p)
    ensures OuterDemand(pol, p, column) < Demand(pol, p, column)
  {
    match p
    case Join(l, r, _) =>
      if NestedDue(pol, l) {
        column := NestedFallsShort(pol, l);
        OuterIsWithin(pol, r, column);
      } else {
        column := NestedFallsShort(pol, r);
        OuterIsWithin(pol, l, column);
      }
    case Projection(_, input) => column := NestedFallsShort(pol, input);
    case Filter(_, input) => column := NestedFallsShort(pol, input);
    case Aggregate(_, aggregates, input) =>
      if Due(pol, aggregates, input) != [] {
        if NestedDue(pol, input) { NestedHasDue(pol, input); }
        column := SomethingDue(pol, input);
      } else {
        column := NestedFallsShort(pol, input);
      }
    case Approved(_, _, input) => column := NestedFallsShort(pol, input);
    case Noise(_, _, input) => column := NestedFallsShort(pol, input);
  }

  lemma {:induction false} NestedHasDue(pol: Policy, p: Plan)
    requires NestedDue(pol, p)
    ensures HasDue(pol, p)
  {
    match p
    case Join(l, r, _) => if NestedDue(pol, l) { NestedHasDue(pol, l); } else { NestedHasDue(pol, r); }
    case Projection(_, input) => NestedHasDue(pol, input);
    case Filter(_, input) => NestedHasDue(pol, input);
    case Aggregate(_, _, input) => if NestedDue(pol, input) { NestedHasDue(pol, input); }
    case Approved(_, _, input) => NestedHasDue(pol, input);
    case Noise(_, _, input) => NestedHasDue(pol, input);
  }

  // ---- columns that the collector does not find ----

  /** Every column that an expression reads. */
  function ReadNames(e: AggExpr): seq<string>
    decreases e, 1
  {
    match e
    case AggColumn(name) => [name]
    case AggFunction(_, args, clauses) => AllReadNames(args) + AllReadNames(clauses)
    case AggBinary(l, r) => ReadNames(l) + ReadNames(r)
    case AggAlias(x, _) => ReadNames(x)
    case AggCast(x) => ReadNames(x)
    case AggOther(_, parts) => AllReadNames(parts)
  }

  function AllReadNames(es: seq<AggExpr>): seq<string>
    decreases es, 0
  {
    if es == [] then [] else ReadNames(es[0]) + AllReadNames(es[1..])
  }

  /** Those read in a clause or under another kind of expression, which the collector does not enter. */
  function SkippedNames(e: AggExpr): seq<string>
    decreases e, 1
  {
    match e
    case AggColumn(_) => []
    case AggFunction(_, args, clauses) => AllSkippedNames(args) + AllReadNames(clauses)
    case AggBinary(l, r) => SkippedNames(l) + SkippedNames(r)
    case AggAlias(x, _) => SkippedNames(x)
    case AggCast(x) => SkippedNames(x)
    case AggOther(_, parts) => AllReadNames(parts)
  }

  function AllSkippedNames(es: seq<AggExpr>): seq<string>
    decreases es, 0
  {
    if es == [] then [] else SkippedNames(es[0]) + AllSkippedNames(es[1..])
  }

  lemma {:induction false} OccurrencesAppend(a: seq<string>, b: seq<string>, column: string)
    ensures Occurrences(a + b, column) == Occurrences(a, column) + Occurrences(b, column)
  {
    if a == [] {
      assert a + b == b;
    } else {
      OccurrencesAppend(a[1..], b, column);
      assert (a + b)[1..] == a[1..] + b;
    }
  }

  /** What is read is what is collected and what is skipped. */
  lemma {:induction false} ReadIsCollectedAndSkipped(e: AggExpr, column: string)
    ensures Occurrences(ReadNames(e), column) == Occurrences(ColumnNames(e), column) + Occurrences(SkippedNames(e), column)
    decreases e, 1
  {
    match e
    case AggColumn(name) =>
    case AggFunction(_, args, clauses) =>
      AllReadSplit(args, column);
      OccurrencesAppend(AllReadNames(args), AllReadNames(clauses), column);
      OccurrencesAppend(AllSkippedNames(args), AllReadNames(clauses), column);
    case AggBinary(l, r) =>
      ReadIsCollectedAndSkipped(l, column);
      ReadIsCollectedAndSkipped(r, column);
      ThreeAppend(l, r, column);
    case AggAlias(x, _) => ReadIsCollectedAndSkipped(x, column);
    case AggCast(x) => ReadIsCollectedAndSkipped(x, column);
    case AggOther(_, _) =>
  }

  lemma ThreeAppend(l: AggExpr, r: AggExpr, column: string)
    ensures Occurrences(ReadNames(l) + ReadNames(r), column) == Occurrences(ReadNames(l), column) + Occurrences(ReadNames(r), column)
    ensures Occurrences(ColumnNames(l) + ColumnNames(r), column) == Occurrences(ColumnNames(l), column) + Occurrences(ColumnNames(r), column)
    ensures Occurrences(SkippedNames(l) + SkippedNames(r), column) == Occurrences(SkippedNames(l), column) + Occurrences(SkippedNames(r), column)
  {
    OccurrencesAppend(ReadNames(l), ReadNames(r), column);
    OccurrencesAppend(ColumnNames(l), ColumnNames(r), column);
    OccurrencesAppend(SkippedNames(l), SkippedNames(r), column);
  }

  lemma {:induction false} AllReadSplit(es: seq<AggExpr>, column: string)
    ensures Occurrences(AllReadNames(es), column) ==
            Occurrences(AllColumnNames(es), column) + Occurrences(AllSkippedNames(es), column)
    decreases es, 0
  {
    if es != [] {
      ReadIsCollectedAndSkipped(es[0], column);
      AllReadSplit(es[1..], column);
      OccurrencesAppend(ReadNames(es[0]), AllReadNames(es[1..]), column);
      OccurrencesAppend(ColumnNames(es[0]), AllColumnNames(es[1..]), column);
      OccurrencesAppend(SkippedNames(es[0]), AllSkippedNames(es[1..]), column);
    }
  }

  lemma {:induction false} TaggedOccurs(pol: Policy, columns: seq<string>, column: string)
    ensures Occurrences(Tagged(pol, columns), column) == if column in pol.epsilons then Occurrences(columns, column) else 0
  {
    if columns != [] {
      TaggedOccurs(pol, columns[1..], column);
      var rest := Tagged(pol, columns[1..]);
      assert ([columns[0]] + rest)[1..] == rest;
    }
  }

  /** How often `column`, if it is tagged, is read over all approved aggregates, group keys included. */
  function Need(pol: Policy, p: Plan, column: string): nat {
    match p
    case Scan(_) => 0
    case Projection(_, input) => Need(pol, input, column)
    case Filter(_, input) => Need(pol, input, column)
    case Aggregate(groups, aggregates, input) =>
      (if HasApproval(input) && column in pol.epsilons then Occurrences(groups + AllReadNames(aggregates), column) else 0)
      + Need(pol, input, column)
    case Join(l, r, _) => Need(pol, l, column) + Need(pol, r, column)
    case Empty(_, _) => 0
    case Approved(_, _, input) => Need(pol, input, column)
    case Noise(_, _, input) => Need(pol, input, column)
  }

  /** The tagged columns that an approved aggregate reads where the collector does not look. */
  function Unseen(pol: Policy, groups: seq<string>, aggregates: seq<AggExpr>, input: Plan): seq<string> {
    if HasApproval(input) then Tagged(pol, groups + AllSkippedNames(aggregates)) else []
  }

  /** Some approved aggregate reads a tagged column as a group key, in a clause or under a skipped kind of expression. */
  predicate HasUnseen(pol: Policy, p: Plan) {
    match p
    case Scan(_) => false
    case Projection(_, input) => HasUnseen(pol, input)
    case Filter(_, input) => HasUnseen(pol, input)
    case Aggregate(groups, aggregates, input) => Unseen(pol, groups, aggregates, input) != [] || HasUnseen(pol, input)
    case Join(l, r, _) => HasUnseen(pol, l) || HasUnseen(pol, r)
    case Empty(_, _) => false
    case Approved(_, _, input) => HasUnseen(pol, input)
    case Noise(_, _, input) => HasUnseen(pol, input)
  }

  lemma AggregateSplits(pol: Policy, groups: seq<string>, aggregates: seq<AggExpr>, input: Plan, column: string)
    ensures (if HasApproval(input) && column in pol.epsilons then Occurrences(groups + AllReadNames(aggregates), column) else 0) ==
            Occurrences(Due(pol, aggregates, input), column) + Occurrences(Unseen(pol, groups, aggregates, input), column)
  {
    AllReadSplit(aggregates, column);
    OccurrencesAppend(groups, AllReadNames(aggregates), column);
    OccurrencesAppend(groups, AllSkippedNames(aggregates), column);
    TaggedOccurs(pol, AllColumnNames(aggregates), column);
    TaggedOccurs(pol, groups + AllSkippedNames(aggregates), column);
  }

  lemma {:induction false} DemandIsWithin(pol: Policy, p: Plan, column: string)
    ensures Demand(pol, p, column) <= Need(pol, p, column)
    ensures !HasUnseen(pol, p) ==> Demand(pol, p, column) == Need(pol, p, column)
  {
    match p
    case Scan(_) =>
    case Empty(_, _) =>
    case Join(l, r, _) => DemandIsWithin(pol, l, column); DemandIsWithin(pol, r, column);
    case Projection(_, input) => DemandIsWithin(pol, input, column);
    case Filter(_, input) => DemandIsWithin(pol, input, column);
    case Aggregate(groups, aggregates, input) =>
      DemandIsWithin(pol, input, column);
      AggregateSplits(pol, groups, aggregates, input, column);
    case Approved(_, _, input) => DemandIsWithin(pol, input, column);
    case Noise(_, _, input) => DemandIsWithin(pol, input, column);
  }

  lemma {:induction false} UnseenFallsShort(pol: Policy, p: Plan) returns (column: string)
    requires HasUnseen(pol, p)
    ensures Demand(pol, p, column) < Need(pol, p, column)
  {
    match p
    case Join(l, r, _) =>
      if HasUnseen(pol, l) {
        column := UnseenFallsShort(pol, l);
        DemandIsWithin(pol, r, column);
      } else {
        column := UnseenFallsShort(pol, r);
        DemandIsWithin(pol, l, column);
      }
    case Projection(_, input) => column := UnseenFallsShort(pol, input);
    case Filter(_, input) => column := UnseenFallsShort(pol, input);
    case Aggregate(groups, aggregates, input) =>
      var unseen := Unseen(pol, groups, aggregates, input);
      if unseen != [] {
        column := unseen[0];
        DemandIsWithin(pol, input, column);
      } else {
        column := UnseenFallsShort(pol, input);
      }
      AggregateSplits(pol, groups, aggregates, input, column);
    case Approved(_, _, input) => column := UnseenFallsShort(pol, input);
    case Noise(_, _, input) => column := UnseenFallsShort(pol, input);
  }

  /**
   The exact condition: after a successful rewrite every tagged column that an approved aggregate
   reads has its noise node (and, under enforcement, its charge: `DebitsMatchNoise`) if and only if
   no approved aggregate in which a tagged column is found lies below another one, and none reads a
   tagged column where the collector does not look. There is never too much.
   */
  lemma AllChargedIff(pol: Policy, s: State, p: Plan)
    requires s.error.None? && NoiseFree(p) && Walk(pol, s, p).0.error.None?
    ensures forall column :: NoiseCount(Walk(pol, s, p).1, column) <= Need(pol, p, column)
    ensures (forall column :: NoiseCount(Walk(pol, s, p).1, column) == Need(pol, p, column))
            <==> !NestedDue(pol, p) && !HasUnseen(pol, p)
  {
    forall column
      ensures NoiseCount(Walk(pol, s, p).1, column) == OuterDemand(pol, p, column) <= Demand(pol, p, column) <= Need(pol, p, column)
      ensures !NestedDue(pol, p) ==> OuterDemand(pol, p, column) == Demand(pol, p, column)
      ensures !HasUnseen(pol, p) ==> Demand(pol, p, column) == Need(pol, p, column)
    {
      NoiseIsOuterDemand(pol, s, p, column);
      OuterIsWithin(pol, p, column);
      DemandIsWithin(pol, p, column);
    }
    if NestedDue(pol, p) {
      var column := NestedFallsShort(pol, p);
      assert NoiseCount(Walk(pol, s, p).1, column) < Need(pol, p, column);
    } else if HasUnseen(pol, p) {
      var column := UnseenFallsShort(pol, p);
      assert NoiseCount(Walk(pol, s, p).1, column) < Need(pol, p, column);
    }
  }

  /** A plan on which it fails for that reason: the sum of some function of a tagged column is left as it is. */
  lemma WrappedColumnIsMissed(pol: Policy, s: State, kind: string, column: string, table: string)
    requires s.error.None? && column in pol.epsilons
    ensures var sum := AggFunction("sum", [AggOther(kind, [AggColumn(column)])], []);
            var p := Aggregate([], [sum], Approved(pol.contract, pol.tenant, Scan(table)));
            Walk(pol, s, p) == (s, p) && !NestedDue(pol, p) && Need(pol, p, column) == 1
  {
    var part := AggOther(kind, [AggColumn(column)]);
    var sum, scan := AggFunction("sum", [part], []), Approved(pol.contract, pol.tenant, Scan(table));
    OneOf(part);
    OneOf(sum);
    OneOf(AggColumn(column));
    assert Need(pol, Scan(table), column) == 0 && Need(pol, scan, column) == 0;
    assert ReadNames(sum) == [column] by { assert [column] + [] == [column]; }
    assert [] + [column] == [column] && Occurrences([column], column) == 1 by { assert [column][1..] == []; }
    assert ColumnNames(sum) == [];
    assert Walk(pol, s, Scan(table)) == (s, Scan(table));
    assert Walk(pol, s, scan) == (s, scan);
    assert !NestedDue(pol, Scan(table)) && !NestedDue(pol, scan);
    assert Due(pol, [sum], scan) == [];
  }

  lemma OneOf(e: AggExpr)
    ensures AllColumnNames([e]) == ColumnNames(e) && AllReadNames([e]) == ReadNames(e)
  {
    assert [e][1..] == [];
    assert ColumnNames(e) + [] == ColumnNames(e) && ReadNames(e) + [] == ReadNames(e);
  }

  /** A plan on which it fails for the other reason, for any two tagged columns: the inner column gets neither noise nor charge. */
  lemma InnerAggregateIsMissed(pol: Policy, s: State, outer: string, inner: string, table: string)
    requires s.error.None? && outer in pol.epsilons && inner in pol.epsilons && outer != inner
    requires pol.enforced ==> Grants(s.budgets, (pol.tenant, outer), pol.epsilons[outer])
    ensures var below := Aggregate([], [AggColumn(inner)], Approved(pol.contract, pol.tenant, Scan(table)));
            var p := Aggregate([], [AggColumn(outer)], below);
            var (s', q) := Walk(pol, s, p);
            && s'.error.None? && NestedDue(pol, p) && Demand(pol, p, inner) == 1
            && q == Noise(outer, pol.epsilons[outer], p)
            && Remaining(s'.budgets, (pol.tenant, inner)) == Remaining(s.budgets, (pol.tenant, inner))
  {
    OneColumn(pol, outer);
    OneColumn(pol, inner);
    ChargeOne(pol, s, outer);
    var scan := Approved(pol.contract, pol.tenant, Scan(table));
    var below := Aggregate([], [AggColumn(inner)], scan);
    assert Demand(pol, Scan(table), inner) == 0 && Demand(pol, scan, inner) == 0;
    assert Demand(pol, below, inner) == Occurrences([inner], inner) == 1 by { assert [inner][1..] == []; }
    assert Occurrences([outer], inner) == 0 by { assert [outer][1..] == []; }
  }

  lemma ChargeOne(pol: Policy, s: State, column: string)
    requires s.error.None? && column in pol.epsilons
    requires pol.enforced ==> Grants(s.budgets, (pol.tenant, column), pol.epsilons[column])
    ensures ChargeAll(pol, s, [column]) == (Charge(pol, s, column), [column])
    ensures forall p :: Wrap(pol, [column], p) == Noise(column, pol.epsilons[column], p)
  {
    assert [column][1..] == [] && [column] + [] == [column];
    assert ChargeAll(pol, Charge(pol, s, column), []).1 == [];
  }

  lemma OneColumn(pol: Policy, name: string)
    requires name in pol.epsilons
    ensures AllColumnNames([AggColumn(name)]) == [name] && Tagged(pol, [name]) == [name]
  {
    assert [AggColumn(name)][1..] == [] && [name][1..] == [] && [name] + [] == [name];
    assert Tagged(pol, []) == [];
  }

  // ---- when the budget suffices ----

  /** The charges that the walk attempts, in its order: those of the outermost aggregates with a column due. */
  function DueList(pol: Policy, p: Plan): seq<string> {
    match p
    case Scan(_) => []
    case Projection(_, input) => DueList(pol, input)
    case Filter(_, input) => DueList(pol, input)
    case Aggregate(_, aggregates, input) =>
      var due := Due(pol, aggregates, input);
      if due != [] then due else DueList(pol, input)
    case Join(l, r, _) => DueList(pol, l) + DueList(pol, r)
    case Empty(_, _) => []
    case Approved(_, _, input) => DueList(pol, input)
    case Noise(_, _, input) => DueList(pol, input)
  }

  lemma {:induction false} DueListCounts(pol: Policy, p: Plan, column: string)
    ensures Occurrences(DueList(pol, p), column) == OuterDemand(pol, p, column)
  {
    match p
    case Scan(_) =>
    case Empty(_, _) =>
    case Join(l, r, _) =>
      DueListCounts(pol, l, column);
      DueListCounts(pol, r, column);
      OccurrencesAppend(DueList(pol, l), DueList(pol, r), column);
    case Projection(_, input) => DueListCounts(pol, input, column);
    case Filter(_, input) => DueListCounts(pol, input, column);
    case Aggregate(_, _, input) => DueListCounts(pol, input, column);
    case Approved(_, _, input) => DueListCounts(pol, input, column);
    case Noise(_, _, input) => DueListCounts(pol, input, column);
  }

  /** Charging a list, without what was found. */
  function Charged(pol: Policy, s: State, columns: seq<string>): State {
    if s.error.Some? then s else ChargeAll(pol, s, columns).0
  }

  lemma {:induction false} ChargedAppend(pol: Policy, s: State, a: seq<string>, b: seq<string>)
    ensures Charged(pol, s, a + b) == Charged(pol, Charged(pol, s, a), b)
    decreases a
  {
    if s.error.None? {
      if a == [] {
        assert a + b == b;
      } else {
        assert (a + b)[1..] == a[1..] + b;
        ChargedAppend(pol, if a[0] in pol.epsilons then Charge(pol, s, a[0]) else s, a[1..], b);
      }
    }
  }

  lemma {:induction false} ChargedTagged(pol: Policy, s: State, columns: seq<string>)
    ensures Charged(pol, s, columns) == Charged(pol, s, Tagged(pol, columns))
    decreases columns
  {
    if s.error.None? && columns != [] {
      if columns[0] in pol.epsilons {
        var rest := Tagged(pol, columns[1..]);
        assert ([columns[0]] + rest)[0] == columns[0] && ([columns[0]] + rest)[1..] == rest;
        ChargedTagged(pol, Charge(pol, s, columns[0]), columns[1..]);
      } else {
        ChargedTagged(pol, s, columns[1..]);
      }
    }
  }

  /** The walk does to budgets, audit log and error what charging this list does. */
  lemma {:induction false} WalkCharges(pol: Policy, s: State, p: Plan)
    ensures Walk(pol, s, p).0 == Charged(pol, s, DueList(pol, p))
    decreases p, 1
  {
    if s.error.None? {
      if p.Aggregate? && HasApproval(p.input) {
        var columns := AllColumnNames(p.aggregates);
        ChargedTagged(pol, s, columns);
        FoundIffTagged(pol, s, columns);
        if Tagged(pol, columns) == [] && Charged(pol, s, columns).error.None? {
          DescendCharges(pol, s, p);
        }
      } else {
        DescendCharges(pol, s, p);
      }
    }
  }

  lemma FoundIffTagged(pol: Policy, s: State, columns: seq<string>)
    requires s.error.None?
    ensures Tagged(pol, columns) == [] ==> ChargeAll(pol, s, columns) == (s, [])
    ensures ChargeAll(pol, s, columns).0.error.None? ==> ChargeAll(pol, s, columns).1 == Tagged(pol, columns)
  {
    if ChargeAll(pol, s, columns).0.error.None? {
      ChargeAllFindsTagged(pol, s, columns);
    }
    ChargedTagged(pol, s, columns);
    NothingTagged(pol, s, columns);
  }

  lemma {:induction false} NothingTagged(pol: Policy, s: State, columns: seq<string>)
    ensures Tagged(pol, columns) == [] ==> ChargeAll(pol, s, columns) == (s, [])
    decreases columns
  {
    if columns != [] {
      NothingTagged(pol, s, columns[1..]);
    }
  }

  lemma {:induction false} DescendCharges(pol: Policy, s: State, p: Plan)
    requires s.error.None? && (p.Aggregate? ==> Due(pol, p.aggregates, p.input) == [])
    ensures Descend(pol, s, p).0 == Charged(pol, s, DueList(pol, p))
    decreases p, 0
  {
    match p
    case Join(l, r, _) =>
      WalkCharges(pol, s, l);
      WalkCharges(pol, Walk(pol, s, l).0, r);
      ChargedAppend(pol, s, DueList(pol, l), DueList(pol, r));
    case Projection(_, input) => WalkCharges(pol, s, input);
    case Filter(_, input) => WalkCharges(pol, s, input);
    case Aggregate(_, _, input) => WalkCharges(pol, s, input);
    case Approved(_, _, input) => WalkCharges(pol, s, input);
    case Noise(_, _, input) => WalkCharges(pol, s, input);
    case Scan(_) =>
    case Empty(_, _) =>
  }

  /** Each tagged column's budget suffices for as many charges as there are in the list. */
  ghost predicate AllSuffice(pol: Policy, s: State, columns: seq<string>) {
    forall c :: c in pol.epsilons ==> Suffices(Remaining(s.budgets, (pol.tenant, c)), pol.epsilons[c], Occurrences(columns, c))
  }

  lemma OneCharge(pol: Policy, s: State, column: string, rest: seq<string>)
    requires pol.enforced && s.error.None? && column in pol.epsilons
    ensures AllSuffice(pol, s, [column] + rest) <==>
              Charge(pol, s, column).error.None? && AllSuffice(pol, Charge(pol, s, column), rest)
  {
    var s', left := Charge(pol, s, column), Remaining(s.budgets, (pol.tenant, column));
    assert ([column] + rest)[1..] == rest;
    var n := Occurrences([column] + rest, column);
    assert n == Occurrences(rest, column) + 1;
    SufficesStep(left, pol.epsilons[column], n);
    if s'.error.None? {
      forall c | c in pol.epsilons
        ensures Suffices(Remaining(s.budgets, (pol.tenant, c)), pol.epsilons[c], Occurrences([column] + rest, c)) <==>
                Suffices(Remaining(s'.budgets, (pol.tenant, c)), pol.epsilons[c], Occurrences(rest, c))
      {
      }
    } else {
      assert !Suffices(left, pol.epsilons[column], n);
    }
  }

  lemma {:induction false} ChargedSucceedsIff(pol: Policy, s: State, columns: seq<string>)
    requires pol.enforced && s.error.None? && forall c | c in columns :: c in pol.epsilons
    ensures Charged(pol, s, columns).error.None? <==> AllSuffice(pol, s, columns)
    decreases columns
  {
    if columns != [] {
      var s' := Charge(pol, s, columns[0]);
      assert columns == [columns[0]] + columns[1..];
      OneCharge(pol, s, columns[0], columns[1..]);
      if s'.error.None? {
        ChargedSucceedsIff(pol, s', columns[1..]);
      }
    }
  }

  lemma {:induction false} TaggedAreTagged(pol: Policy, columns: seq<string>)
    ensures forall c | c in Tagged(pol, columns) :: c in pol.epsilons
  {
    if columns != [] {
      TaggedAreTagged(pol, columns[1..]);
    }
  }

  lemma {:induction false} DueAreTagged(pol: Policy, p: Plan)
    ensures forall c | c in DueList(pol, p) :: c in pol.epsilons
  {
    match p
    case Scan(_) =>
    case Empty(_, _) =>
    case Join(l, r, _) => DueAreTagged(pol, l); DueAreTagged(pol, r);
    case Projection(_, input) => DueAreTagged(pol, input);
    case Filter(_, input) => DueAreTagged(pol, input);
    case Aggregate(_, aggregates, input) =>
      DueAreTagged(pol, input);
      TaggedAreTagged(pol, AllColumnNames(aggregates));
    case Approved(_, _, input) => DueAreTagged(pol, input);
    case Noise(_, _, input) => DueAreTagged(pol, input);
  }

  lemma {:induction false} UnenforcedNeverFails(pol: Policy, s: State, columns: seq<string>)
    requires !pol.enforced
    ensures Charged(pol, s, columns) == s
    decreases columns
  {
    if s.error.None? && columns != [] {
      UnenforcedNeverFails(pol, s, columns[1..]);
    }
  }

  /**
   Exactly when a plan is rewritten: without enforcement always, and with it if and only if every
   tagged column's remaining budget covers all the charges of the outermost aggregates together,
   within the tolerance. Whatever the order of the charges, nothing else decides.
   */
  lemma RewriteSucceedsIff(pol: Policy, s: State, p: Plan)
    requires s.error.None?
    ensures Walk(pol, s, p).0.error.None? <==>
              !pol.enforced ||
              forall c :: c in pol.epsilons ==>
                Suffices(Remaining(s.budgets, (pol.tenant, c)), pol.epsilons[c], OuterDemand(pol, p, c))
  {
    WalkCharges(pol, s, p);
    if pol.enforced {
      DueAreTagged(pol, p);
      ChargedSucceedsIff(pol, s, DueList(pol, p));
      forall c ensures Occurrences(DueList(pol, p), c) == OuterDemand(pol, p, c) {
        DueListCounts(pol, p, c);
      }
    } else {
      UnenforcedNeverFails(pol, s, DueList(pol, p));
    }
  }

  lemma {:induction false} ChargedRecords(pol: Policy, s: State, columns: seq<string>)
    requires s.error.None?
    ensures var s' := Charged(pol, s, columns);
            && (s'.error.None? ==> s'.audits == s.audits)
            && (s'.error.Some? ==>
                  && pol.enforced && s'.error.value in pol.epsilons
                  && s'.audits == s.audits + [AuditRecord(PrivacyBudgetExhausted, "<aggregate>", pol.tenant, pol.contract)]
                  && pol.epsilons[s'.error.value] - Remaining(s'.budgets, (pol.tenant, s'.error.value)) > 1.0 / 4503599627370496.0)
    decreases columns
  {
    if columns != [] {
      if columns[0] !in pol.epsilons {
        ChargedRecords(pol, s, columns[1..]);
      } else if Charge(pol, s, columns[0]).error.None? {
        ChargedRecords(pol, Charge(pol, s, columns[0]), columns[1..]);
      }
    }
  }

  /** A rewrite that fails names a column whose budget is too small for one more charge, and leaves one record of it; one that succeeds leaves none. */
  lemma RefusalIsRecorded(pol: Policy, s: State, p: Plan)
    requires s.error.None?
    ensures var s' := Walk(pol, s, p).0;
            && (s'.error.None? ==> s'.audits == s.audits)
            && (s'.error.Some? ==>
                  && pol.enforced && s'.error.value in pol.epsilons
                  && s'.audits == s.audits + [AuditRecord(PrivacyBudgetExhausted, "<aggregate>", pol.tenant, pol.contract)]
                  && pol.epsilons[s'.error.value] - Remaining(s'.budgets, (pol.tenant, s'.error.value)) > 1.0 / 4503599627370496.0)
  {
    WalkCharges(pol, s, p);
    ChargedRecords(pol, s, DueList(pol, p));
  }
}
