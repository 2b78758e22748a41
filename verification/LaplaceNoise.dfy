/**
 The physical noise operator, src/physical/laplace_noise_exec.rs. What the random number generator
 yields is an input: `noise(i)` are the two draws of a standard exponential variable for the i-th
 value of the column at hand.
 */
module LaplaceNoise {
  import opened Prelude
  import opened Predicates
  import opened Arrow
  import opened PrivacyBudget

  datatype RawParam = RawParam(epsilon: real, sensitivity: real)

  /** Epsilon and sensitivity of one tagged column, as construction accepts them: both positive. */
  type Param = p: RawParam | p.epsilon > 0.0 && p.sensitivity > 0.0 witness RawParam(1.0, 1.0)

  datatype Config = Config(tenant: string, enforced: bool, params: map<string, Param>)

  type Noise = nat -> (real, real)

  // ---- one column ----

  const I64_MAX: int := 0x7FFF_FFFF_FFFF_FFFF
  const I64_MIN: int := -0x8000_0000_0000_0000

  /** `f64::round`: to the nearest integer, halves away from zero. */
  function Round(x: real): int {
    if x >= 0.0 then (x + 0.5).Floor else -((-x + 0.5).Floor)
  }

  /** `as i64`, which saturates. */
  function ToI64(n: int): int {
    if n > I64_MAX then I64_MAX else if n < I64_MIN then I64_MIN else n
  }

  /** `sample_laplace`: the difference of two exponential draws, scaled. */
  function Sample(draws: (real, real), scale: real): real {
    (draws.0 - draws.1) * scale
  }

  function NoiseValue(v: Value, sample: real): Value {
    match v
    case Float(f) => Float(f + sample)
    case Int(i) => Int(ToI64(Round(i as real + sample)))
    case _ => v
  }

  function NoiseValues(values: seq<Value>, scale: real, noise: Noise): (out: seq<Value>)
    ensures |out| == |values|
    ensures forall i :: 0 <= i < |values| ==> out[i] == NoiseValue(values[i], Sample(noise(i), scale))
  {
    seq(|values|, i requires 0 <= i < |values| => NoiseValue(values[i], Sample(noise(i), scale)))
  }

  /** `apply_laplace_noise_to_column`: None is the unsupported-type error. */
  function NoiseColumn(a: Array, scale: real, noise: Noise): Option<Array> {
    if a.dataType == Float64 || a.dataType == Int64 then
      Some(Array(a.dataType, NoiseValues(a.values, scale, noise)))
    else None
  }

  // ---- one batch ----

  /**
   Everything a batch changes: the budgets, the running total, and `charged`, a history variable
   listing the columns whose charge the tracker accepted.
   */
  datatype Ledger = Ledger(budgets: Budgets, total: real, charged: seq<string>)

  datatype Fault = BudgetExhausted(column: string) | DpTypeUnsupported(column: string) | Internal

  function Consume(cfg: Config, l: Ledger, column: string): Option<Ledger>
    requires column in cfg.params
  {
    var key, epsilon := (cfg.tenant, column), cfg.params[column].epsilon;
    if !cfg.enforced then Some(l.(charged := l.charged + [column]))
    else if Grants(l.budgets, key, epsilon)
    then Some(l.(budgets := Debit(l.budgets, key, epsilon), charged := l.charged + [column]))
    else None
  }

  function Prepend(front: seq<Array>, rest: Result<seq<Array>, Fault>): Result<seq<Array>, Fault> {
    if rest.Ok? then Ok(front + rest.value) else rest
  }

  lemma PrependTwice(a: seq<Array>, b: seq<Array>, rest: Result<seq<Array>, Fault>)
    ensures Prepend(a, Prepend(b, rest)) == Prepend(a + b, rest)
    ensures Prepend([], rest) == rest
  {
    if rest.Ok? {
      assert a + (b + rest.value) == (a + b) + rest.value;
      assert [] + rest.value == rest.value;
    }
  }

  /** One field: charge, then noise, then count. */
  function NoiseField(
      cfg: Config, l: Ledger, name: string, a: Array, noise: Noise): (Ledger, Result<Array, Fault>) {
    if name !in cfg.params then (l, Ok(a))
    else
      match Consume(cfg, l, name)
      case None => (l, Err(BudgetExhausted(name)))
      case Some(l1) =>
        var p := cfg.params[name];
        match NoiseColumn(a, p.sensitivity / p.epsilon, noise)
        case None => (l1, Err(DpTypeUnsupported(name)))
        case Some(noised) => (l1.(total := l1.total + p.epsilon), Ok(noised))
  }

  /** The fields from `i` on, stopping at the first fault. */
  function NoiseFields(
      cfg: Config, l: Ledger, b: Batch, i: nat, noise: nat -> Noise): (Ledger, Result<seq<Array>, Fault>)
    requires |b.columns| == |b.schema|
    decreases |b.schema| - i
  {
    if i >= |b.schema| then (l, Ok([]))
    else
      match NoiseField(cfg, l, b.schema[i].name, b.columns[i], noise(i))
      case (l1, Err(fault)) => (l1, Err(fault))
      case (l1, Ok(column)) =>
        var (l2, rest) := NoiseFields(cfg, l1, b, i + 1, noise);
        (l2, Prepend([column], rest))
  }

  function NoiseBatch(cfg: Config, l: Ledger, b: Batch, noise: nat -> Noise): (Ledger, Result<Batch, Fault>)
    requires |b.columns| == |b.schema|
  {
    var (l', columns) := NoiseFields(cfg, l, b, 0, noise);
    match columns
    case Err(fault) => (l', Err(fault))
    case Ok(cs) => (l', match TryNew(b.schema, cs) case Some(out) => Ok(out) case None => Err(Internal))
  }

  // ---- all partitions ----

  /** The operator while it runs: one accumulator per started partition, one shared report. */
  datatype State = State(budgets: Budgets, totals: seq<real>, report: Option<real>, charged: seq<string>)

  /** A batch arriving on a partition. */
  datatype Arrival = Arrival(partition: nat, batch: Batch, noise: nat -> Noise)

  function Begin(seed: Budgets, partitions: nat): State {
    State(seed, seq(partitions, _ => 0.0), None, [])
  }

  predicate CanArrive(s: State, a: Arrival) {
    a.partition < |s.totals| && |a.batch.columns| == |a.batch.schema|
  }

  function Arrive(cfg: Config, s: State, a: Arrival): (State, Result<Batch, Fault>)
    requires CanArrive(s, a)
  {
    var (l, out) := NoiseBatch(cfg, Ledger(s.budgets, s.totals[a.partition], s.charged), a.batch, a.noise);
    (State(l.budgets, s.totals[a.partition := l.total],
           if out.Ok? && l.total > 0.0 then Some(l.total) else s.report, l.charged),
     out)
  }

  ghost predicate CanRun(partitions: nat, arrivals: seq<Arrival>) {
    forall a | a in arrivals :: a.partition < partitions && |a.batch.columns| == |a.batch.schema|
  }

  function Run(cfg: Config, seed: Budgets, partitions: nat, arrivals: seq<Arrival>): (s: State)
    requires forall a | a in arrivals :: a.partition < partitions && |a.batch.columns| == |a.batch.schema|
    ensures |s.totals| == partitions
  {
    if arrivals == [] then Begin(seed, partitions)
    else
      var last := arrivals[|arrivals| - 1];
      assert last in arrivals;
      Arrive(cfg, Run(cfg, seed, partitions, arrivals[..|arrivals| - 1]), last).0
  }

  // ---- the operator as it runs ----

  /** The figure that `epsilon_consumed` reads. */
  class SharedReport {
    var epsilonConsumed: Option<real>

    constructor ()
      ensures epsilonConsumed == None
    {
      epsilonConsumed := None;
    }
  }

  /** One partition's stream; `budget` and `report` are shared by all partitions of the operator. */
  class Stream {
    const cfg: Config
    const budget: Tracker
    const report: SharedReport
    var total: real
    ghost var charged: seq<string>

    constructor (cfg: Config, budget: Tracker, report: SharedReport)
      requires budget.enabled == cfg.enforced
      ensures this.cfg == cfg && this.budget == budget && this.report == report && total == 0.0 && charged == []
    {
      this.cfg, this.budget, this.report := cfg, budget, report;
      total, charged := 0.0, [];
    }

    ghost function Abstract(): Ledger
      reads this, budget
    {
      Ledger(budget.budgets, total, charged)
    }

    /** The body of the loop over the fields. */
    method ApplyToField(name: string, a: Array, noise: Noise) returns (out: Result<Array, Fault>)
      requires budget.enabled == cfg.enforced
      modifies this, budget
      ensures (Abstract(), out) == NoiseField(cfg, old(Abstract()), name, a, noise)
    {
      if name !in cfg.params {
        return Ok(a);
      }
      var p := cfg.params[name];
      var refused := budget.Consume(cfg.tenant, name, p.epsilon);
      if refused.Some? {
        return Err(BudgetExhausted(name));
      }
      charged := charged + [name];
      var noised := NoiseColumn(a, p.sensitivity / p.epsilon, noise);
      if noised.None? {
        return Err(DpTypeUnsupported(name));
      }
      total := total + p.epsilon;
      return Ok(noised.value);
    }

    /** `apply_dp_to_batch` */
    method ApplyDp(b: Batch, noise: nat -> Noise) returns (out: Result<Batch, Fault>)
      requires |b.columns| == |b.schema| && budget.enabled == cfg.enforced
      modifies this, budget
      ensures (Abstract(), out) == NoiseBatch(cfg, old(Abstract()), b, noise)
    {
      var columns: seq<Array> := [];
      var i := 0;
      PrependTwice([], [], NoiseFields(cfg, Abstract(), b, 0, noise).1);
      while i < |b.schema|
        invariant 0 <= i <= |b.schema| && |columns| == i
        invariant NoiseFields(cfg, Abstract(), b, i, noise).0 == NoiseFields(cfg, old(Abstract()), b, 0, noise).0
        invariant Prepend(columns, NoiseFields(cfg, Abstract(), b, i, noise).1) ==
                  NoiseFields(cfg, old(Abstract()), b, 0, noise).1
      {
        var column := ApplyToField(b.schema[i].name, b.columns[i], noise(i));
        if column.Err? {
          return Err(column.error);
        }
        PrependTwice(columns, [column.value], NoiseFields(cfg, Abstract(), b, i + 1, noise).1);
        columns := columns + [column.value];
        i := i + 1;
      }
      assert columns + [] == columns;
      var built := TryNew(b.schema, columns);
      out := if built.Some? then Ok(built.value) else Err(Internal);
    }

    /** The closure of `execute`: apply, then publish the running total on success. */
    method Next(b: Batch, noise: nat -> Noise) returns (out: Result<Batch, Fault>)
      requires |b.columns| == |b.schema| && budget.enabled == cfg.enforced
      modifies this, budget, report
      ensures (Abstract(), out) == NoiseBatch(cfg, old(Abstract()), b, noise)
      ensures report.epsilonConsumed ==
              if out.Ok? && total > 0.0 then Some(total) else old(report.epsilonConsumed)
    {
      out := ApplyDp(b, noise);
      if out.Ok? && total > 0.0 {
        report.epsilonConsumed := Some(total);
      }
    }
  }

  // ---- results ----

  /** The tagged fields of a schema from position `i` on. */
  function TaggedFrom(cfg: Config, schema: Schema, i: nat): seq<string>
    decreases |schema| - i
  {
    if i >= |schema| then []
    else if schema[i].name in cfg.params then [schema[i].name] + TaggedFrom(cfg, schema, i + 1)
    else TaggedFrom(cfg, schema, i + 1)
  }

  function SumEps(cfg: Config, names: seq<string>): real {
    if names == [] then 0.0
    else SumEps(cfg, names[..|names| - 1]) +
         (var last := names[|names| - 1]; if last in cfg.params then cfg.params[last].epsilon else 0.0)
  }

  function SumEpsFor(cfg: Config, names: seq<string>, column: string): real {
    if names == [] then 0.0
    else SumEpsFor(cfg, names[..|names| - 1], column) +
         (var last := names[|names| - 1]; if last == column && last in cfg.params then cfg.params[last].epsilon else 0.0)
  }

  lemma SumSnoc(cfg: Config, names: seq<string>, last: string)
    requires last in cfg.params
    ensures SumEps(cfg, names + [last]) == SumEps(cfg, names) + cfg.params[last].epsilon
  {
    assert (names + [last])[..|names|] == names;
  }

  lemma SumForSnoc(cfg: Config, names: seq<string>, last: string, column: string)
    requires last in cfg.params
    ensures SumEpsFor(cfg, names + [last], column) ==
            SumEpsFor(cfg, names, column) + (if column == last then cfg.params[last].epsilon else 0.0)
  {
    assert (names + [last])[..|names|] == names;
  }

  lemma {:induction false} SumAppend(cfg: Config, a: seq<string>, b: seq<string>)
    ensures SumEps(cfg, a + b) == SumEps(cfg, a) + SumEps(cfg, b)
  {
    if b == [] {
      assert a + b == a;
    } else {
      assert (a + b)[..|a + b| - 1] == a + b[..|b| - 1];
      SumAppend(cfg, a, b[..|b| - 1]);
    }
  }

  lemma {:induction false} SumNotNegative(cfg: Config, names: seq<string>)
    ensures SumEps(cfg, names) >= 0.0
  {
    if names != [] { SumNotNegative(cfg, names[..|names| - 1]); }
  }

  /** Before a batch that goes through, field `i` goes through and the rest does too. */
  lemma FieldSucceeds(cfg: Config, l: Ledger, b: Batch, i: nat, noise: nat -> Noise) returns (l': Ledger)
    requires |b.columns| == |b.schema| && i < |b.schema| && NoiseFields(cfg, l, b, i, noise).1.Ok?
    ensures NoiseFields(cfg, l', b, i + 1, noise).1.Ok?
    ensures NoiseFields(cfg, l, b, i, noise).0 == NoiseFields(cfg, l', b, i + 1, noise).0
    ensures var name := b.schema[i].name;
            if name !in cfg.params then l' == l
            else l'.charged == l.charged + [name] && l'.total == l.total + cfg.params[name].epsilon
  {
    l' := NoiseField(cfg, l, b.schema[i].name, b.columns[i], noise(i)).0;
  }

  lemma {:induction false} SuccessCounts(cfg: Config, l: Ledger, b: Batch, i: nat, noise: nat -> Noise)
    requires |b.columns| == |b.schema| && NoiseFields(cfg, l, b, i, noise).1.Ok?
    ensures var l' := NoiseFields(cfg, l, b, i, noise).0;
            l'.total - l.total == SumEps(cfg, l'.charged) - SumEps(cfg, l.charged)
    decreases |b.schema| - i
  {
    if i < |b.schema| {
      var l1 := FieldSucceeds(cfg, l, b, i, noise);
      SuccessCounts(cfg, l1, b, i + 1, noise);
      if b.schema[i].name in cfg.params {
        SumSnoc(cfg, l.charged, b.schema[i].name);
      }
    }
  }

  /** A batch that goes through charges every tagged field exactly once and counts every charge. */
  lemma {:induction false} SuccessCharges(cfg: Config, l: Ledger, b: Batch, i: nat, noise: nat -> Noise)
    requires |b.columns| == |b.schema| && NoiseFields(cfg, l, b, i, noise).1.Ok?
    ensures var l' := NoiseFields(cfg, l, b, i, noise).0;
            && l'.charged == l.charged + TaggedFrom(cfg, b.schema, i)
            && l'.total - l.total == SumEps(cfg, l'.charged) - SumEps(cfg, l.charged)
    decreases |b.schema| - i
  {
    SuccessCounts(cfg, l, b, i, noise);
    if i < |b.schema| {
      var l1 := FieldSucceeds(cfg, l, b, i, noise);
      SuccessCharges(cfg, l1, b, i + 1, noise);
      Regroup(l.charged, b.schema[i].name, TaggedFrom(cfg, b.schema, i + 1));
    } else {
      assert l.charged + [] == l.charged;
    }
  }

  lemma Regroup(a: seq<string>, name: string, b: seq<string>)
    ensures (a + [name]) + b == a + ([name] + b)
  {
  }

  /** What the rest of the fields does after field `i` went through. */
  lemma FieldStep(cfg: Config, l: Ledger, b: Batch, i: nat, noise: nat -> Noise)
    requires |b.columns| == |b.schema| && i < |b.schema|
    ensures var name, l' := b.schema[i].name, NoiseFields(cfg, l, b, i, noise).0;
            if name !in cfg.params then l' == NoiseFields(cfg, l, b, i + 1, noise).0
            else if Consume(cfg, l, name).None? then l' == l
            else
              var l1 := Consume(cfg, l, name).value;
              l' == l1 || l' == NoiseFields(cfg, l1.(total := l1.total + cfg.params[name].epsilon), b, i + 1, noise).0
  {
  }

  /** However a batch ends, the total grows by no more than what was charged. */
  lemma {:induction false} NeverOvercounts(cfg: Config, l: Ledger, b: Batch, i: nat, noise: nat -> Noise)
    requires |b.columns| == |b.schema|
    ensures var l' := NoiseFields(cfg, l, b, i, noise).0;
            0.0 <= l'.total - l.total <= SumEps(cfg, l'.charged) - SumEps(cfg, l.charged)
    decreases |b.schema| - i
  {
    if i < |b.schema| {
      var name := b.schema[i].name;
      FieldStep(cfg, l, b, i, noise);
      if name !in cfg.params {
        NeverOvercounts(cfg, l, b, i + 1, noise);
      } else if Consume(cfg, l, name).Some? {
        var l1 := Consume(cfg, l, name).value;
        SumSnoc(cfg, l.charged, name);
        NeverOvercounts(cfg, l1.(total := l1.total + cfg.params[name].epsilon), b, i + 1, noise);
      }
    }
  }

  /** Under enforcement the budget falls by exactly the charges, whatever the outcome. */
  lemma {:induction false} ChargesAreDebits(
      cfg: Config, l: Ledger, b: Batch, i: nat, noise: nat -> Noise, key: Key)
    requires |b.columns| == |b.schema| && cfg.enforced
    ensures var l' := NoiseFields(cfg, l, b, i, noise).0;
            Remaining(l'.budgets, key) == Remaining(l.budgets, key) -
              (if key.0 == cfg.tenant then SumEpsFor(cfg, l'.charged, key.1) - SumEpsFor(cfg, l.charged, key.1) else 0.0)
    decreases |b.schema| - i
  {
    if i < |b.schema| {
      var name := b.schema[i].name;
      FieldStep(cfg, l, b, i, noise);
      if name !in cfg.params {
        ChargesAreDebits(cfg, l, b, i + 1, noise, key);
      } else if Consume(cfg, l, name).Some? {
        var l1 := Consume(cfg, l, name).value;
        SumForSnoc(cfg, l.charged, name, key.1);
        ChargesAreDebits(cfg, l1.(total := l1.total + cfg.params[name].epsilon), b, i + 1, noise, key);
      }
    }
  }

  /** `k` copies of a list of names, one after another. */
  function Times(names: seq<string>, k: nat): seq<string> {
    if k == 0 then [] else Times(names, k - 1) + names
  }

  /** Every arrival of the run is a batch of this schema on partition 0, and it goes through. */
  ghost predicate AllSucceed(cfg: Config, seed: Budgets, schema: Schema, arrivals: seq<Arrival>) {
    && (forall a | a in arrivals :: a.partition == 0 && a.batch.schema == schema && |a.batch.columns| == |schema|)
    && (arrivals != [] ==>
          && AllSucceed(cfg, seed, schema, arrivals[..|arrivals| - 1])
          && CanRun(1, arrivals)
          && Arrive(cfg, Run(cfg, seed, 1, arrivals[..|arrivals| - 1]), arrivals[|arrivals| - 1]).1.Ok?)
  }

  lemma ArriveSucceeds(cfg: Config, s: State, a: Arrival)
    requires CanArrive(s, a) && Arrive(cfg, s, a).1.Ok?
    ensures var s', names := Arrive(cfg, s, a).0, TaggedFrom(cfg, a.batch.schema, 0);
            var total := s.totals[a.partition] + SumEps(cfg, names);
            && s'.charged == s.charged + names
            && s'.totals == s.totals[a.partition := total]
            && s'.report == if total > 0.0 then Some(total) else s.report
  {
    SuccessCharges(cfg, Ledger(s.budgets, s.totals[a.partition], s.charged), a.batch, 0, a.noise);
    SumAppend(cfg, s.charged, TaggedFrom(cfg, a.batch.schema, 0));
  }

  /** `sum` added up `k` times. */
  function Multiple(sum: real, k: nat): real {
    if k == 0 then 0.0 else Multiple(sum, k - 1) + sum
  }

  lemma {:induction false} MultipleIsProduct(sum: real, k: nat)
    ensures Multiple(sum, k) == sum * (k as real)
  {
    if k > 0 {
      MultipleIsProduct(sum, k - 1);
      Distribute(sum, (k - 1) as real);
    }
  }

  lemma Distribute(sum: real, x: real)
    ensures sum * (x + 1.0) == sum * x + sum
  {
  }

  lemma {:induction false} MultiplePositive(sum: real, k: nat)
    requires sum >= 0.0
    ensures Multiple(sum, k) > 0.0 <==> k > 0 && sum > 0.0
    ensures Multiple(sum, k) >= 0.0
  {
    if k > 0 { MultiplePositive(sum, k - 1); }
  }

  /** The state after `k` batches that each charged `names`, worth `sum`, on the only partition. */
  ghost predicate ReportsMultiple(s: State, names: seq<string>, sum: real, k: nat) {
    && s.charged == Times(names, k)
    && |s.totals| == 1 && s.totals[0] == Multiple(sum, k)
    && s.report == if k > 0 && sum > 0.0 then Some(Multiple(sum, k)) else None
  }

  lemma OneMoreBatch(cfg: Config, s: State, a: Arrival, names: seq<string>, sum: real, k: nat)
    requires CanArrive(s, a) && Arrive(cfg, s, a).1.Ok?
    requires names == TaggedFrom(cfg, a.batch.schema, 0) && sum == SumEps(cfg, names)
    requires ReportsMultiple(s, names, sum, k)
    ensures ReportsMultiple(Arrive(cfg, s, a).0, names, sum, k + 1)
  {
    ArriveSucceeds(cfg, s, a);
    SumNotNegative(cfg, names);
    MultiplePositive(sum, k);
    assert s.totals[0] + sum == Multiple(sum, k + 1);
  }

  lemma {:induction false} RunReportsMultiple(
      cfg: Config, seed: Budgets, schema: Schema, arrivals: seq<Arrival>)
    requires CanRun(1, arrivals) && AllSucceed(cfg, seed, schema, arrivals)
    ensures var names := TaggedFrom(cfg, schema, 0);
            ReportsMultiple(Run(cfg, seed, 1, arrivals), names, SumEps(cfg, names), |arrivals|)
  {
    var names := TaggedFrom(cfg, schema, 0);
    if arrivals != [] {
      var rest, last := arrivals[..|arrivals| - 1], arrivals[|arrivals| - 1];
      assert last in arrivals;
      RunReportsMultiple(cfg, seed, schema, rest);
      OneMoreBatch(cfg, Run(cfg, seed, 1, rest), last, names, SumEps(cfg, names), |rest|);
    }
  }

  /** Each of `names` was charged k times, and the report is k times their sum. */
  ghost predicate ReportsProduct(s: State, names: seq<string>, sum: real, k: nat) {
    && s.charged == Times(names, k)
    && (s.report.Some? <==> k > 0 && names != [])
    && (s.report.Some? ==> s.report.value == sum * (k as real))
  }

  lemma MultipleIsReported(s: State, names: seq<string>, sum: real, k: nat)
    requires ReportsMultiple(s, names, sum, k) && (sum > 0.0 <==> names != [])
    ensures ReportsProduct(s, names, sum, k)
  {
    MultipleIsProduct(sum, k);
  }

  /**
   Over any run of k successful batches on one partition every tagged field is charged exactly
   k times, and the reported epsilon is k times the sum.
   */
  lemma ReportsKTimesTheSum(cfg: Config, seed: Budgets, schema: Schema, arrivals: seq<Arrival>)
    requires CanRun(1, arrivals) && AllSucceed(cfg, seed, schema, arrivals)
    ensures var names := TaggedFrom(cfg, schema, 0);
            ReportsProduct(Run(cfg, seed, 1, arrivals), names, SumEps(cfg, names), |arrivals|)
  {
    var names := TaggedFrom(cfg, schema, 0);
    RunReportsMultiple(cfg, seed, schema, arrivals);
    TaggedPositive(cfg, schema, 0);
    MultipleIsReported(Run(cfg, seed, 1, arrivals), names, SumEps(cfg, names), |arrivals|);
  }

  /** What every run keeps: no accumulator and no report exceeds the charges made. */
  lemma {:induction false} ReportNeverExceedsCharges(
      cfg: Config, seed: Budgets, partitions: nat, arrivals: seq<Arrival>)
    requires CanRun(partitions, arrivals)
    ensures var s := Run(cfg, seed, partitions, arrivals);
            && (s.report.Some? ==> s.report.value <= SumEps(cfg, s.charged))
            && (forall p :: 0 <= p < partitions ==> s.totals[p] <= SumEps(cfg, s.charged))
            && (cfg.enforced ==> forall c :: Remaining(s.budgets, (cfg.tenant, c)) ==
                                             Remaining(seed, (cfg.tenant, c)) - SumEpsFor(cfg, s.charged, c))
  {
    if arrivals != [] {
      var rest, last := arrivals[..|arrivals| - 1], arrivals[|arrivals| - 1];
      assert last in arrivals;
      ReportNeverExceedsCharges(cfg, seed, partitions, rest);
      var s := Run(cfg, seed, partitions, rest);
      var l := Ledger(s.budgets, s.totals[last.partition], s.charged);
      NeverOvercounts(cfg, l, last.batch, 0, last.noise);
      if cfg.enforced {
        forall c ensures Remaining(Run(cfg, seed, partitions, arrivals).budgets, (cfg.tenant, c)) ==
                         Remaining(seed, (cfg.tenant, c)) - SumEpsFor(cfg, Run(cfg, seed, partitions, arrivals).charged, c)
        {
          ChargesAreDebits(cfg, l, last.batch, 0, last.noise, (cfg.tenant, c));
        }
      }
    }
  }

  /**
   The report is not the total over partitions: two partitions that each pass one batch of the
   same schema report one batch's epsilon, although both were charged.
   */
  lemma TwoPartitionsUnderReport(cfg: Config, seed: Budgets, first: Arrival, second: Arrival)
    requires first.partition == 0 && second.partition == 1 && first.batch.schema == second.batch.schema
    requires CanRun(2, [first, second]) && SumEps(cfg, TaggedFrom(cfg, first.batch.schema, 0)) > 0.0
    requires Arrive(cfg, Begin(seed, 2), first).1.Ok?
    requires Arrive(cfg, Arrive(cfg, Begin(seed, 2), first).0, second).1.Ok?
    ensures var s, sum := Run(cfg, seed, 2, [first, second]), SumEps(cfg, TaggedFrom(cfg, first.batch.schema, 0));
            s.report == Some(sum) && SumEps(cfg, s.charged) == 2.0 * sum
  {
    var names := TaggedFrom(cfg, first.batch.schema, 0);
    var s0 := Begin(seed, 2);
    var s1 := Arrive(cfg, s0, first).0;
    assert [first, second][..1] == [first] && [first][..0] == [];
    assert Run(cfg, seed, 2, [first]) == s1;
    ArriveSucceeds(cfg, s0, first);
    ArriveSucceeds(cfg, s1, second);
    assert [] + names == names;
    SumAppend(cfg, names, names);
  }

  // ---- when the report is the whole of it ----

  lemma {:induction false} TaggedInParams(cfg: Config, schema: Schema, i: nat)
    ensures forall c | c in TaggedFrom(cfg, schema, i) :: c in cfg.params
    decreases |schema| - i
  {
    if i < |schema| { TaggedInParams(cfg, schema, i + 1); }
  }

  lemma {:induction false} SumPositive(cfg: Config, names: seq<string>)
    requires forall c | c in names :: c in cfg.params
    ensures SumEps(cfg, names) > 0.0 <==> names != []
  {
    if names != [] {
      SumNotNegative(cfg, names[..|names| - 1]);
      assert names[|names| - 1] in names;
    }
  }

  lemma TaggedPositive(cfg: Config, schema: Schema, i: nat)
    ensures SumEps(cfg, TaggedFrom(cfg, schema, i)) > 0.0 <==> TaggedFrom(cfg, schema, i) != []
  {
    TaggedInParams(cfg, schema, i);
    SumPositive(cfg, TaggedFrom(cfg, schema, i));
  }

  /** A charge that no total counts: the column was charged, and then its type was refused. */
  function LostTo<T>(cfg: Config, r: Result<T, Fault>): real {
    if r.Err? && r.error.DpTypeUnsupported? && r.error.column in cfg.params then cfg.params[r.error.column].epsilon else 0.0
  }

  /** Every charge of a batch is counted or lost. */
  lemma {:induction false} FieldsConserve(cfg: Config, l: Ledger, b: Batch, i: nat, noise: nat -> Noise)
    requires |b.columns| == |b.schema|
    ensures var (l', r) := NoiseFields(cfg, l, b, i, noise);
            l'.total - l.total + LostTo(cfg, r) == SumEps(cfg, l'.charged) - SumEps(cfg, l.charged)
    decreases |b.schema| - i
  {
    if i < |b.schema| {
      var (l1, r1) := NoiseField(cfg, l, b.schema[i].name, b.columns[i], noise(i));
      FieldConserves(cfg, l, b.schema[i].name, b.columns[i], noise(i));
      if r1.Ok? {
        FieldsConserve(cfg, l1, b, i + 1, noise);
      }
    }
  }

  lemma FieldCases(cfg: Config, l: Ledger, name: string, a: Array, noise: Noise)
    ensures var (l', r) := NoiseField(cfg, l, name, a, noise);
            || (l' == l && LostTo(cfg, r) == 0.0)
            || (&& name in cfg.params && l'.charged == l.charged + [name]
                && if r.Ok? then l'.total == l.total + cfg.params[name].epsilon
                   else l'.total == l.total && LostTo(cfg, r) == cfg.params[name].epsilon)
  {
  }

  lemma FieldConserves(cfg: Config, l: Ledger, name: string, a: Array, noise: Noise)
    ensures var (l', r) := NoiseField(cfg, l, name, a, noise);
            l'.total - l.total + LostTo(cfg, r) == SumEps(cfg, l'.charged) - SumEps(cfg, l.charged)
  {
    FieldCases(cfg, l, name, a, noise);
    if name in cfg.params {
      SumSnoc(cfg, l.charged, name);
    }
  }

  lemma BatchConserves(cfg: Config, l: Ledger, b: Batch, noise: nat -> Noise)
    requires |b.columns| == |b.schema|
    ensures var (l', r) := NoiseBatch(cfg, l, b, noise);
            l'.total - l.total + LostTo(cfg, r) == SumEps(cfg, l'.charged) - SumEps(cfg, l.charged)
  {
    FieldsConserve(cfg, l, b, 0, noise);
  }

  function SumTotals(totals: seq<real>): real {
    if totals == [] then 0.0 else totals[0] + SumTotals(totals[1..])
  }

  lemma {:induction false} SumTotalsUpdate(totals: seq<real>, p: nat, x: real)
    requires p < |totals|
    ensures SumTotals(totals[p := x]) == SumTotals(totals) - totals[p] + x
  {
    if p > 0 {
      SumTotalsUpdate(totals[1..], p - 1, x);
      assert totals[p := x][1..] == totals[1..][p - 1 := x];
    } else {
      assert totals[p := x][1..] == totals[1..];
    }
  }

  lemma {:induction false} SumTotalsZero(n: nat)
    ensures SumTotals(seq(n, _ => 0.0)) == 0.0
  {
    if n > 0 {
      SumTotalsZero(n - 1);
      assert seq(n, _ => 0.0)[1..] == seq(n - 1, _ => 0.0);
    }
  }

  /** What type faults lost over a whole run. */
  function Lost(cfg: Config, seed: Budgets, partitions: nat, arrivals: seq<Arrival>): real
    requires forall a | a in arrivals :: a.partition < partitions && |a.batch.columns| == |a.batch.schema|
  {
    if arrivals == [] then 0.0
    else
      var rest, last := arrivals[..|arrivals| - 1], arrivals[|arrivals| - 1];
      assert last in arrivals;
      Lost(cfg, seed, partitions, rest) + LostTo(cfg, Arrive(cfg, Run(cfg, seed, partitions, rest), last).1)
  }

  /** The partition that published last. */
  function Publisher(cfg: Config, seed: Budgets, partitions: nat, arrivals: seq<Arrival>): Option<nat>
    requires forall a | a in arrivals :: a.partition < partitions && |a.batch.columns| == |a.batch.schema|
  {
    if arrivals == [] then None
    else
      var rest, last := arrivals[..|arrivals| - 1], arrivals[|arrivals| - 1];
      assert last in arrivals;
      var (s, out) := Arrive(cfg, Run(cfg, seed, partitions, rest), last);
      if out.Ok? && s.totals[last.partition] > 0.0 then Some(last.partition)
      else Publisher(cfg, seed, partitions, rest)
  }

  /** What one arrival does to totals, charges and report. */
  lemma ArriveConserves(cfg: Config, s: State, a: Arrival)
    requires CanArrive(s, a)
    ensures var (s', out) := Arrive(cfg, s, a);
            && |s'.totals| == |s.totals| && s'.totals[a.partition] >= s.totals[a.partition]
            && (forall p :: 0 <= p < |s.totals| && p != a.partition ==> s'.totals[p] == s.totals[p])
            && SumTotals(s'.totals) - SumTotals(s.totals) + LostTo(cfg, out) == SumEps(cfg, s'.charged) - SumEps(cfg, s.charged)
            && s'.report == if out.Ok? && s'.totals[a.partition] > 0.0 then Some(s'.totals[a.partition]) else s.report
  {
    var l := Ledger(s.budgets, s.totals[a.partition], s.charged);
    BatchConserves(cfg, l, a.batch, a.noise);
    NeverOvercounts(cfg, l, a.batch, 0, a.noise);
    SumTotalsUpdate(s.totals, a.partition, NoiseBatch(cfg, l, a.batch, a.noise).0.total);
  }

  /** In every run the charges are the partition totals plus what type faults lost. */
  lemma {:induction false} ChargesAreTotalsAndLosses(
      cfg: Config, seed: Budgets, partitions: nat, arrivals: seq<Arrival>)
    requires CanRun(partitions, arrivals)
    ensures var s := Run(cfg, seed, partitions, arrivals);
            && SumEps(cfg, s.charged) == SumTotals(s.totals) + Lost(cfg, seed, partitions, arrivals)
            && Lost(cfg, seed, partitions, arrivals) >= 0.0
            && forall p :: 0 <= p < partitions ==> s.totals[p] >= 0.0
  {
    if arrivals == [] {
      SumTotalsZero(partitions);
    } else {
      var rest, last := arrivals[..|arrivals| - 1], arrivals[|arrivals| - 1];
      assert last in arrivals;
      ChargesAreTotalsAndLosses(cfg, seed, partitions, rest);
      ArriveConserves(cfg, Run(cfg, seed, partitions, rest), last);
    }
  }

  /** The report is what its publisher's total was when it published. */
  lemma {:induction false} ReportIsPublished(
      cfg: Config, seed: Budgets, partitions: nat, arrivals: seq<Arrival>)
    requires CanRun(partitions, arrivals)
    ensures var s, p := Run(cfg, seed, partitions, arrivals), Publisher(cfg, seed, partitions, arrivals);
            && (s.report.Some? <==> p.Some?)
            && (p.Some? ==> p.value < partitions && 0.0 < s.report.value <= s.totals[p.value])
  {
    if arrivals != [] {
      var rest, last := arrivals[..|arrivals| - 1], arrivals[|arrivals| - 1];
      assert last in arrivals;
      ReportIsPublished(cfg, seed, partitions, rest);
      ArriveConserves(cfg, Run(cfg, seed, partitions, rest), last);
    }
  }

  lemma {:induction false} SumIsOnly(totals: seq<real>, p: nat)
    requires p < |totals| && forall q :: 0 <= q < |totals| ==> totals[q] >= 0.0
    ensures SumTotals(totals) >= totals[p]
    ensures SumTotals(totals) == totals[p] <==> forall q :: 0 <= q < |totals| && q != p ==> totals[q] == 0.0
  {
    AllZero(totals[1..]);
    if p == 0 {
      forall q | 1 <= q < |totals| ensures totals[q] == totals[1..][q - 1] {
      }
    } else {
      SumIsOnly(totals[1..], p - 1);
      forall q | 1 <= q < |totals| ensures totals[q] == totals[1..][q - 1] {
      }
    }
  }

  lemma {:induction false} AllZero(totals: seq<real>)
    requires forall q :: 0 <= q < |totals| ==> totals[q] >= 0.0
    ensures SumTotals(totals) >= 0.0
    ensures SumTotals(totals) == 0.0 <==> forall q :: 0 <= q < |totals| ==> totals[q] == 0.0
  {
    if totals != [] {
      AllZero(totals[1..]);
      forall q | 1 <= q < |totals| ensures totals[q] == totals[1..][q - 1] {
      }
    }
  }

  /**
   The exact condition, for every run that reports anything: the report equals the epsilon charged
   if and only if all of it lies in the publishing partition's total as it was published.
   */
  lemma ReportIsExactIff(cfg: Config, seed: Budgets, partitions: nat, arrivals: seq<Arrival>)
    requires CanRun(partitions, arrivals) && Run(cfg, seed, partitions, arrivals).report.Some?
    ensures Publisher(cfg, seed, partitions, arrivals).Some?
    ensures var s, p := Run(cfg, seed, partitions, arrivals), Publisher(cfg, seed, partitions, arrivals).value;
            && p < partitions
            && (s.report.value == SumEps(cfg, s.charged) <==>
                  && s.report.value == s.totals[p] && Lost(cfg, seed, partitions, arrivals) == 0.0
                  && forall q :: 0 <= q < partitions && q != p ==> s.totals[q] == 0.0)
  {
    ChargesAreTotalsAndLosses(cfg, seed, partitions, arrivals);
    ReportIsPublished(cfg, seed, partitions, arrivals);
    SumIsOnly(Run(cfg, seed, partitions, arrivals).totals, Publisher(cfg, seed, partitions, arrivals).value);
  }

  /** Every batch of the run goes through and has a tagged field. */
  ghost predicate AllGoThrough(cfg: Config, seed: Budgets, partitions: nat, arrivals: seq<Arrival>)
    requires CanRun(partitions, arrivals)
  {
    arrivals != [] ==>
      var rest, last := arrivals[..|arrivals| - 1], arrivals[|arrivals| - 1];
      && AllGoThrough(cfg, seed, partitions, rest)
      && TaggedFrom(cfg, last.batch.schema, 0) != []
      && (assert last in arrivals; Arrive(cfg, Run(cfg, seed, partitions, rest), last).1.Ok?)
  }

  ghost predicate Visited(arrivals: seq<Arrival>, p: nat) {
    exists i :: 0 <= i < |arrivals| && arrivals[i].partition == p
  }

  lemma VisitedSnoc(arrivals: seq<Arrival>, p: nat)
    requires arrivals != []
    ensures Visited(arrivals, p) <==> Visited(arrivals[..|arrivals| - 1], p) || arrivals[|arrivals| - 1].partition == p
  {
    var rest := arrivals[..|arrivals| - 1];
    if Visited(rest, p) {
      var i :| 0 <= i < |rest| && rest[i].partition == p;
      assert arrivals[i].partition == p;
    }
    if Visited(arrivals, p) {
      var i :| 0 <= i < |arrivals| && arrivals[i].partition == p;
      assert i < |rest| ==> rest[i].partition == p;
    }
  }

  lemma {:induction false} GoThroughFacts(cfg: Config, seed: Budgets, partitions: nat, arrivals: seq<Arrival>)
    requires CanRun(partitions, arrivals) && AllGoThrough(cfg, seed, partitions, arrivals)
    ensures var s := Run(cfg, seed, partitions, arrivals);
            && Lost(cfg, seed, partitions, arrivals) == 0.0
            && (arrivals != [] ==>
                  var p := arrivals[|arrivals| - 1].partition;
                  p < partitions && s.report == Some(s.totals[p]) && Publisher(cfg, seed, partitions, arrivals) == Some(p))
            && forall p :: 0 <= p < partitions ==> s.totals[p] >= 0.0 && (s.totals[p] > 0.0 <==> Visited(arrivals, p))
  {
    if arrivals != [] {
      var rest, last := arrivals[..|arrivals| - 1], arrivals[|arrivals| - 1];
      assert last in arrivals;
      GoThroughFacts(cfg, seed, partitions, rest);
      ArriveSucceeds(cfg, Run(cfg, seed, partitions, rest), last);
      TaggedPositive(cfg, last.batch.schema, 0);
      forall p | 0 <= p < partitions ensures Visited(arrivals, p) <==> Visited(rest, p) || last.partition == p {
        VisitedSnoc(arrivals, p);
      }
    }
  }

  /** For a caller whose batches all go through: the report is the charge if and only if one partition got them all. */
  lemma OnePartitionIff(cfg: Config, seed: Budgets, partitions: nat, arrivals: seq<Arrival>)
    requires CanRun(partitions, arrivals) && AllGoThrough(cfg, seed, partitions, arrivals) && arrivals != []
    ensures var s := Run(cfg, seed, partitions, arrivals);
            s.report == Some(SumEps(cfg, s.charged)) <==>
              forall i, j :: 0 <= i < |arrivals| && 0 <= j < |arrivals| ==> arrivals[i].partition == arrivals[j].partition
  {
    GoThroughFacts(cfg, seed, partitions, arrivals);
    ReportIsExactIff(cfg, seed, partitions, arrivals);
    var p := arrivals[|arrivals| - 1].partition;
    if forall q :: 0 <= q < partitions && q != p ==> !Visited(arrivals, q) {
      forall i | 0 <= i < |arrivals| ensures arrivals[i].partition == p {
        assert arrivals[i] in arrivals;
        assert Visited(arrivals, arrivals[i].partition);
      }
    } else {
      var q :| 0 <= q < partitions && q != p && Visited(arrivals, q);
      var i :| 0 <= i < |arrivals| && arrivals[i].partition == q;
      assert arrivals[i].partition != arrivals[|arrivals| - 1].partition;
    }
  }

  // ---- shape ----

  ghost predicate SameNulls(a: Array, b: Array) {
    |a.values| == |b.values| && forall i :: 0 <= i < |a.values| ==> (a.values[i].Null? <==> b.values[i].Null?)
  }

  lemma NoiseColumnShape(a: Array, scale: real, noise: Noise)
    requires ValidArray(a) && NoiseColumn(a, scale, noise).Some?
    ensures var out := NoiseColumn(a, scale, noise).value;
            ValidArray(out) && out.dataType == a.dataType && SameNulls(a, out)
  {
    var out := NoiseColumn(a, scale, noise).value;
    forall i | 0 <= i < |a.values|
      ensures Fits(out.values[i], a.dataType) && (a.values[i].Null? <==> out.values[i].Null?)
    {
      assert Fits(a.values[i], a.dataType);
      assert out.values[i] == NoiseValue(a.values[i], Sample(noise(i), scale));
    }
  }

  ghost predicate FieldKept(cfg: Config, f: Field, before: Array, after: Array) {
    && ValidArray(after) && after.dataType == before.dataType && SameNulls(before, after)
    && (f.name !in cfg.params ==> after == before)
  }

  lemma {:induction false} NoiseFieldsShape(cfg: Config, l: Ledger, b: Batch, i: nat, noise: nat -> Noise)
    requires ValidBatch(b) && i <= |b.schema| && NoiseFields(cfg, l, b, i, noise).1.Ok?
    ensures var cs := NoiseFields(cfg, l, b, i, noise).1.value;
            |cs| == |b.schema| - i
            && forall j :: 0 <= j < |cs| ==> FieldKept(cfg, b.schema[i + j], b.columns[i + j], cs[j])
    decreases |b.schema| - i
  {
    if i < |b.schema| {
      var name := b.schema[i].name;
      assert ValidArray(b.columns[i]);
      if name in cfg.params {
        var l1, p := Consume(cfg, l, name).value, cfg.params[name];
        NoiseColumnShape(b.columns[i], p.sensitivity / p.epsilon, noise(i));
        NoiseFieldsShape(cfg, l1.(total := l1.total + p.epsilon), b, i + 1, noise);
      } else {
        NoiseFieldsShape(cfg, l, b, i + 1, noise);
      }
    }
  }

  /** Noise keeps the schema, the row count, the null positions and every untagged column. */
  lemma NoiseKeepsShape(cfg: Config, l: Ledger, b: Batch, noise: nat -> Noise)
    requires ValidBatch(b) && NoiseBatch(cfg, l, b, noise).1.Ok?
    ensures var out := NoiseBatch(cfg, l, b, noise).1.value;
            && ValidBatch(out) && out.schema == b.schema && out.numRows == b.numRows
            && forall j :: 0 <= j < |b.schema| ==> FieldKept(cfg, b.schema[j], b.columns[j], out.columns[j])
  {
    NoiseFieldsShape(cfg, l, b, 0, noise);
    var out := NoiseBatch(cfg, l, b, noise).1.value;
    assert FieldKept(cfg, b.schema[0], b.columns[0], out.columns[0]);
  }

  // ---- values ----

  /** The integer nearest to `x`, halves away from zero, within the bounds of 64 bits. */
  predicate IsNearest(n: int, x: real) {
    if x > 9223372036854775807.0 then n == 9223372036854775807
    else if x < -9223372036854775808.0 then n == -9223372036854775808
    else
      && -0.5 <= n as real - x <= 0.5
      && (n as real - x == 0.5 ==> x > 0.0) && (n as real - x == -0.5 ==> x < 0.0)
  }

  lemma RoundIsNearest(x: real)
    ensures IsNearest(ToI64(Round(x)), x)
  {
  }

  /** A released value is the true one plus the sample. */
  predicate Noised(v: Value, out: Value, sample: real) {
    || (v.Null? && out.Null?)
    || (v.Float? && out.Float? && out.f - v.f == sample)
    || (v.Int? && out.Int? && IsNearest(out.i, v.i as real + sample))
  }

  lemma NoiseColumnAdds(a: Array, scale: real, noise: Noise, r: nat)
    requires ValidArray(a) && NoiseColumn(a, scale, noise).Some? && r < |a.values|
    ensures |NoiseColumn(a, scale, noise).value.values| == |a.values|
    ensures Noised(a.values[r], NoiseColumn(a, scale, noise).value.values[r], Sample(noise(r), scale))
  {
    assert Fits(a.values[r], a.dataType);
    if a.values[r].Int? {
      RoundIsNearest(a.values[r].i as real + Sample(noise(r), scale));
    }
  }

  lemma {:induction false} NoiseFieldsAdd(cfg: Config, l: Ledger, b: Batch, i: nat, noise: nat -> Noise, j: nat) returns (l': Ledger)
    requires |b.columns| == |b.schema| && i <= j < |b.schema| && NoiseFields(cfg, l, b, i, noise).1.Ok?
    ensures |NoiseFields(cfg, l, b, i, noise).1.value| == |b.schema| - i
    ensures NoiseField(cfg, l', b.schema[j].name, b.columns[j], noise(j)).1 == Ok(NoiseFields(cfg, l, b, i, noise).1.value[j - i])
    decreases j - i
  {
    var l1 := NoiseField(cfg, l, b.schema[i].name, b.columns[i], noise(i)).0;
    FieldsAreMany(cfg, l1, b, i + 1, noise);
    if i == j {
      l' := l;
    } else {
      l' := NoiseFieldsAdd(cfg, l1, b, i + 1, noise, j);
    }
  }

  lemma {:induction false} FieldsAreMany(cfg: Config, l: Ledger, b: Batch, i: nat, noise: nat -> Noise)
    requires |b.columns| == |b.schema| && i <= |b.schema| && NoiseFields(cfg, l, b, i, noise).1.Ok?
    ensures |NoiseFields(cfg, l, b, i, noise).1.value| == |b.schema| - i
    decreases |b.schema| - i
  {
    if i < |b.schema| {
      FieldsAreMany(cfg, NoiseField(cfg, l, b.schema[i].name, b.columns[i], noise(i)).0, b, i + 1, noise);
    }
  }

  lemma ScaleOf(p: Param) returns (scale: real)
    ensures scale == p.sensitivity / p.epsilon && scale * p.epsilon == p.sensitivity
  {
    scale := p.sensitivity / p.epsilon;
  }

  lemma TaggedFieldAdds(cfg: Config, l: Ledger, name: string, a: Array, noise: Noise, scale: real, r: nat)
    requires ValidArray(a) && name in cfg.params && scale == cfg.params[name].sensitivity / cfg.params[name].epsilon
    requires NoiseField(cfg, l, name, a, noise).1.Ok? && r < |a.values|
    ensures var out := NoiseField(cfg, l, name, a, noise).1.value;
            |out.values| == |a.values| && Noised(a.values[r], out.values[r], Sample(noise(r), scale))
  {
    NoiseColumnAdds(a, scale, noise, r);
  }

  lemma ColumnOfBatch(cfg: Config, l: Ledger, b: Batch, noise: nat -> Noise, i: nat) returns (l': Ledger)
    requires |b.columns| == |b.schema| && NoiseBatch(cfg, l, b, noise).1.Ok? && i < |b.schema|
    ensures |NoiseBatch(cfg, l, b, noise).1.value.columns| == |b.schema|
    ensures NoiseField(cfg, l', b.schema[i].name, b.columns[i], noise(i)).1 == Ok(NoiseBatch(cfg, l, b, noise).1.value.columns[i])
  {
    l' := NoiseFieldsAdd(cfg, l, b, 0, noise, i);
  }

  lemma SampleIs(draws: (real, real), scale: real)
    ensures Sample(draws, scale) == (draws.0 - draws.1) * scale
  {
  }

  /**
   What a batch that goes through releases: every value of a tagged column is the true value plus
   the difference of two exponential draws, at the scale that makes epsilon times scale the
   sensitivity; an integer is rounded to the nearest one, within its bounds.
   */
  lemma NoiseIsAdded(cfg: Config, l: Ledger, b: Batch, noise: nat -> Noise, i: nat, r: nat) returns (scale: real, sample: real)
    requires ValidBatch(b) && NoiseBatch(cfg, l, b, noise).1.Ok?
    requires i < |b.schema| && r < b.numRows && b.schema[i].name in cfg.params
    ensures scale * cfg.params[b.schema[i].name].epsilon == cfg.params[b.schema[i].name].sensitivity
    ensures sample == (noise(i)(r).0 - noise(i)(r).1) * scale
    ensures var out := NoiseBatch(cfg, l, b, noise).1.value;
            && |out.columns| == |b.schema| && |out.columns[i].values| == b.numRows
            && Noised(b.columns[i].values[r], out.columns[i].values[r], sample)
  {
    scale := ScaleOf(cfg.params[b.schema[i].name]);
    sample := Sample(noise(i)(r), scale);
    SampleIs(noise(i)(r), scale);
    NoiseIsAddedAt(cfg, l, b, noise, i, r, scale);
  }

  lemma NoiseIsAddedAt(cfg: Config, l: Ledger, b: Batch, noise: nat -> Noise, i: nat, r: nat, scale: real)
    requires ValidBatch(b) && NoiseBatch(cfg, l, b, noise).1.Ok?
    requires i < |b.schema| && r < b.numRows && b.schema[i].name in cfg.params
    requires scale == cfg.params[b.schema[i].name].sensitivity / cfg.params[b.schema[i].name].epsilon
    ensures var out := NoiseBatch(cfg, l, b, noise).1.value;
            && |out.columns| == |b.schema| && |out.columns[i].values| == b.numRows
            && Noised(b.columns[i].values[r], out.columns[i].values[r], Sample(noise(i)(r), scale))
  {
    var l' := ColumnOfBatch(cfg, l, b, noise, i);
    assert ColumnMatches(b.schema[i], b.columns[i], b.numRows);
    TaggedFieldAdds(cfg, l', b.schema[i].name, b.columns[i], noise(i), scale, r);
  }

  // ---- when a batch goes through ----

  function Count(names: seq<string>, column: string): nat {
    if names == [] then 0 else Count(names[1..], column) + if names[0] == column then 1 else 0
  }

  /** Every tagged column from field `i` on holds 64-bit floats or integers. */
  ghost predicate Numeric(cfg: Config, b: Batch, i: nat)
    requires |b.columns| == |b.schema|
  {
    forall j :: i <= j < |b.schema| && b.schema[j].name in cfg.params ==>
      b.columns[j].dataType == Float64 || b.columns[j].dataType == Int64
  }

  /** Each tagged column's budget covers its charges. */
  ghost predicate Covers(cfg: Config, budgets: Budgets, names: seq<string>) {
    !cfg.enforced ||
    forall c :: c in cfg.params ==>
      Suffices(if (cfg.tenant, c) in budgets then budgets[(cfg.tenant, c)] else 0.0, cfg.params[c].epsilon, Count(names, c))
  }

  lemma CoversOne(cfg: Config, l: Ledger, name: string, rest: seq<string>)
    requires name in cfg.params
    ensures Covers(cfg, l.budgets, [name] + rest) <==>
              Consume(cfg, l, name).Some? && Covers(cfg, Consume(cfg, l, name).value.budgets, rest)
  {
    assert ([name] + rest)[1..] == rest;
    if cfg.enforced {
      var left := if (cfg.tenant, name) in l.budgets then l.budgets[(cfg.tenant, name)] else 0.0;
      var n := Count([name] + rest, name);
      assert n == Count(rest, name) + 1;
      SufficesStep(left, cfg.params[name].epsilon, n);
      if Consume(cfg, l, name).Some? {
        var after := Consume(cfg, l, name).value.budgets;
        forall c | c in cfg.params
          ensures Suffices(if (cfg.tenant, c) in l.budgets then l.budgets[(cfg.tenant, c)] else 0.0, cfg.params[c].epsilon, Count([name] + rest, c)) <==>
                  Suffices(if (cfg.tenant, c) in after then after[(cfg.tenant, c)] else 0.0, cfg.params[c].epsilon, Count(rest, c))
        {
        }
      } else {
        assert !Suffices(left, cfg.params[name].epsilon, n);
      }
    }
  }

  lemma NumericFrom(cfg: Config, b: Batch, i: nat)
    requires |b.columns| == |b.schema| && i < |b.schema|
    ensures Numeric(cfg, b, i) <==>
              && (b.schema[i].name in cfg.params ==> b.columns[i].dataType == Float64 || b.columns[i].dataType == Int64)
              && Numeric(cfg, b, i + 1)
  {
  }

  lemma FieldSucceedsIff(cfg: Config, l: Ledger, name: string, a: Array, noise: Noise)
    requires name in cfg.params
    ensures NoiseField(cfg, l, name, a, noise).1.Ok? <==>
              Consume(cfg, l, name).Some? && (a.dataType == Float64 || a.dataType == Int64)
    ensures NoiseField(cfg, l, name, a, noise).1.Ok? ==>
              NoiseField(cfg, l, name, a, noise).0.budgets == Consume(cfg, l, name).value.budgets
  {
  }

  lemma {:induction false} FieldsSucceedIff(cfg: Config, l: Ledger, b: Batch, i: nat, noise: nat -> Noise)
    requires |b.columns| == |b.schema| && i <= |b.schema|
    ensures NoiseFields(cfg, l, b, i, noise).1.Ok? <==>
              Numeric(cfg, b, i) && Covers(cfg, l.budgets, TaggedFrom(cfg, b.schema, i))
    decreases |b.schema| - i
  {
    if i < |b.schema| {
      var name := b.schema[i].name;
      var l1 := NoiseField(cfg, l, name, b.columns[i], noise(i)).0;
      NumericFrom(cfg, b, i);
      if name in cfg.params {
        FieldSucceedsIff(cfg, l, name, b.columns[i], noise(i));
        CoversOne(cfg, l, name, TaggedFrom(cfg, b.schema, i + 1));
      }
      FieldsSucceedIff(cfg, l1, b, i + 1, noise);
    } else {
      assert TaggedFrom(cfg, b.schema, i) == [];
    }
  }

  /** Rebuilding the batch never fails by itself, unless there is no column at all. */
  lemma RebuildsIff(cfg: Config, l: Ledger, b: Batch, noise: nat -> Noise)
    requires ValidBatch(b) && NoiseFields(cfg, l, b, 0, noise).1.Ok?
    ensures NoiseBatch(cfg, l, b, noise).1.Ok? <==> |b.schema| > 0
  {
    NoiseFieldsShape(cfg, l, b, 0, noise);
    var cs := NoiseFields(cfg, l, b, 0, noise).1.value;
    forall j | 0 <= j < |b.schema| ensures ColumnMatches(b.schema[j], cs[j], b.numRows) {
      assert FieldKept(cfg, b.schema[0 + j], b.columns[0 + j], cs[j]);
      assert ColumnMatches(b.schema[j], b.columns[j], b.numRows);
    }
  }

  /**
   Exactly which batches go through: those with a column, whose tagged columns hold 64-bit floats or
   integers, and whose tagged columns' budgets, if they are enforced, cover all charges of the batch.
   */
  lemma BatchSucceedsIff(cfg: Config, l: Ledger, b: Batch, noise: nat -> Noise)
    requires ValidBatch(b)
    ensures NoiseBatch(cfg, l, b, noise).1.Ok? <==>
              |b.schema| > 0 && Numeric(cfg, b, 0) && Covers(cfg, l.budgets, TaggedFrom(cfg, b.schema, 0))
  {
    FieldsSucceedIff(cfg, l, b, 0, noise);
    if NoiseFields(cfg, l, b, 0, noise).1.Ok? {
      RebuildsIff(cfg, l, b, noise);
    }
  }

  /** What a fault says: after it, the named column's budget is too small, or its type is not one of the two. */
  predicate FaultHolds(cfg: Config, after: Budgets, schema: Schema, columns: seq<Array>, fault: Fault)
    requires |columns| == |schema|
  {
    match fault
    case BudgetExhausted(c) =>
      && cfg.enforced && c in cfg.params
      && cfg.params[c].epsilon - (if (cfg.tenant, c) in after then after[(cfg.tenant, c)] else 0.0) > 1.0 / 4503599627370496.0
    case DpTypeUnsupported(c) =>
      c in cfg.params && exists j :: 0 <= j < |schema| && schema[j].name == c && columns[j].dataType != Float64 && columns[j].dataType != Int64
    case Internal => schema == []
  }

  lemma FieldFault(cfg: Config, l: Ledger, b: Batch, i: nat, noise: Noise)
    requires |b.columns| == |b.schema| && i < |b.schema|
    ensures var (l', r) := NoiseField(cfg, l, b.schema[i].name, b.columns[i], noise);
            r.Err? ==> FaultHolds(cfg, l'.budgets, b.schema, b.columns, r.error)
  {
  }

  lemma {:induction false} FieldsFault(cfg: Config, l: Ledger, b: Batch, i: nat, noise: nat -> Noise)
    requires |b.columns| == |b.schema| && i <= |b.schema|
    ensures var (l', r) := NoiseFields(cfg, l, b, i, noise);
            r.Err? ==> FaultHolds(cfg, l'.budgets, b.schema, b.columns, r.error)
    decreases |b.schema| - i
  {
    if i < |b.schema| {
      FieldFault(cfg, l, b, i, noise(i));
      FieldsFault(cfg, NoiseField(cfg, l, b.schema[i].name, b.columns[i], noise(i)).0, b, i + 1, noise);
    }
  }

  /** A batch that does not go through names its reason truly. */
  lemma FaultIsTrue(cfg: Config, l: Ledger, b: Batch, noise: nat -> Noise)
    requires ValidBatch(b)
    ensures var (l', r) := NoiseBatch(cfg, l, b, noise);
            r.Err? ==> FaultHolds(cfg, l'.budgets, b.schema, b.columns, r.error)
  {
    FieldsFault(cfg, l, b, 0, noise);
    if NoiseFields(cfg, l, b, 0, noise).1.Ok? {
      RebuildsIff(cfg, l, b, noise);
    }
  }
}
