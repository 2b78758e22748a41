/**
 The governed table scan without noise: src/contract_table_provider.rs over
 src/physical/row_filter_exec.rs and src/physical/masking_exec.rs. A table is one ordered
 stream of batches, split in any way.
 */
module GovernedScan {
  import opened Prelude
  import opened Predicates
  import opened Arrow
  import opened Masking
  import opened Typing

  /** What the contract bundle says; the maps are what its JSON parses to. */
  datatype Contract = Contract(id: string, maskTexts: map<string, string>, rowFilter: Option<string>)

  /** The engine's parts: predicate evaluation and its kernels, the SQL parser, hashing and casting. */
  datatype World = World(engine: Engine, kernels: Kernels, parse: string -> Option<SqlExpr>, oracles: Oracles)

  datatype Fault = ContractNotApproved | UnknownMaskPolicy | ExecutionFailed

  // ---- filtering a batch ----

  predicate DistinctNames(schema: Schema) {
    forall i, j :: 0 <= i < j < |schema| ==> schema[i].name != schema[j].name
  }

  /** A tuple as the predicate sees it: by column name. */
  function Named(schema: Schema, t: Tuple): Row
    requires |t| == |schema|
  {
    if schema == [] then map[] else Named(schema[1..], t[1..])[schema[0].name := t[0]]
  }

  /**
   None: no filter. The text must parse and translate, the schema must have distinct names, and
   the columns must exist.
   */
  function CompileFilter(w: World, text: Option<string>, schema: Schema): Result<Option<Expr>, Fault> {
    if text.None? || text.value == "" then Ok(None)
    else
      match w.parse(text.value)
      case None => Err(ExecutionFailed)
      case Some(tree) =>
        match TranslatePhysical(w.engine, tree)
        case None => Err(ExecutionFailed)
        case Some(e) =>
          if DistinctNames(schema) && Known(schema, e) then Ok(Some(e))
          else Err(ExecutionFailed)
  }

  predicate KeepsTuple(w: World, filter: Option<Expr>, schema: Schema, t: Tuple)
    requires |t| == |schema|
  {
    filter.None? || Keeps(w.engine, filter.value, Named(schema, t))
  }

  /** The positions below `n` whose row is kept, in order. */
  ghost function KeptBelow(w: World, filter: Option<Expr>, b: Batch, n: nat): (at: seq<nat>)
    requires ValidBatch(b) && n <= b.numRows
    ensures forall i :: 0 <= i < |at| ==> at[i] < n
  {
    if n == 0 then []
    else
      KeptBelow(w, filter, b, n - 1) +
      (if KeepsTuple(w, filter, b.schema, RowsOf(b)[n - 1]) then [n - 1] else [])
  }

  /** Taking the rows at these positions from every column. */
  ghost function Take(b: Batch, at: seq<nat>): Batch
    requires ValidBatch(b) && forall i :: 0 <= i < |at| ==> at[i] < b.numRows
  {
    Batch(b.schema,
          seq(|b.columns|, j requires 0 <= j < |b.columns| => TakeArray(b.columns[j], at)),
          |at|)
  }

  function TakeArray(a: Array, at: seq<nat>): Array
    requires forall i :: 0 <= i < |at| ==> at[i] < |a.values|
  {
    Array(a.dataType, seq(|at|, i requires 0 <= i < |at| => a.values[at[i]]))
  }

  /** `apply_filter_to_batch`: keep exactly the rows whose predicate is TRUE. */
  ghost function FilterBatch(w: World, filter: Option<Expr>, b: Batch): Batch
    requires ValidBatch(b)
  {
    if filter.None? then b else Take(b, KeptBelow(w, filter, b, b.numRows))
  }

  // ---- masking, projecting and limiting ----

  ghost function MaskStep(w: World, policies: map<string, Policy>, b: Batch): Option<Batch>
    requires ValidBatch(b)
  {
    if policies.Keys == {} then Some(b) else MaskBatch(w.oracles, policies, b)
  }

  /** The projection by index that sits on top of the governed plan. */
  function ProjectBatch(projection: Option<seq<nat>>, b: Batch): Batch
    requires |b.columns| == |b.schema|
    requires InRange(projection, b.schema)
  {
    if projection.None? then b
    else
      var ix := projection.value;
      Batch(seq(|ix|, j requires 0 <= j < |ix| => b.schema[ix[j]]),
            seq(|ix|, j requires 0 <= j < |ix| => b.columns[ix[j]]),
            b.numRows)
  }

  /** What one batch becomes through row filter, masking and projection, if its filter runs. */
  ghost function Passing(
      w: World, filter: Option<Expr>, policies: map<string, Policy>,
      projection: Option<seq<nat>>, b: Batch): Option<Batch>
    requires ValidBatch(b) && InRange(projection, b.schema)
  {
    FilterValid(w, filter, b);
    var filtered := FilterBatch(w, filter, b);
    MaskStepShape(w, policies, filtered);
    match MaskStep(w, policies, filtered)
    case None => None
    case Some(masked) => Some(ProjectBatch(projection, masked))
  }

  /** The kernels evaluate the filter on this batch, to booleans. */
  ghost predicate FilterRuns(w: World, filter: Option<Expr>, b: Batch)
    requires ValidBatch(b)
  {
    filter.None? || RunKernels(w.kernels, w.engine, b.schema, filter.value, NamedRows(b)) == Some(TRUTH)
  }

  ghost function NamedRows(b: Batch): seq<Row>
    requires ValidBatch(b)
  {
    seq(b.numRows, i requires 0 <= i < b.numRows => Named(b.schema, RowsOf(b)[i]))
  }

  /** One batch through row filter, masking and projection. */
  ghost function Pass(
      w: World, filter: Option<Expr>, policies: map<string, Policy>,
      projection: Option<seq<nat>>, b: Batch): Option<Batch>
    requires ValidBatch(b) && InRange(projection, b.schema)
  {
    if FilterRuns(w, filter, b) then Passing(w, filter, policies, projection, b) else None
  }

  predicate InRange(projection: Option<seq<nat>>, schema: Schema) {
    projection.Some? ==> forall j :: 0 <= j < |projection.value| ==> projection.value[j] < |schema|
  }

  function FirstRows(n: nat): seq<nat> {
    seq(n, i requires 0 <= i => i)
  }

  /**
   `GlobalLimitExec`: pass batches on while they leave room, cut the one that fills the limit and
   ask for no more. With a limit of zero one batch is still asked for, so its error surfaces.
   */
  ghost function Limit(stream: seq<Option<Batch>>, limit: Option<nat>): Result<seq<Batch>, Fault>
    requires forall b | b in stream :: b.Some? ==> ValidBatch(b.value)
    decreases |stream|
  {
    if stream == [] then Ok([])
    else if stream[0].None? then Err(ExecutionFailed)
    else
      var b := stream[0].value;
      assert stream[0] in stream;
      if limit.None? || b.numRows < limit.value then
        var rest := Limit(stream[1..], if limit.None? then None else Some(limit.value - b.numRows));
        if rest.Ok? then Ok([b] + rest.value) else rest
      else if limit.value > 0 then Ok([Take(b, FirstRows(limit.value))])
      else Ok([])
  }

  // ---- the provider ----

  /** `ContractTableProvider::schema`: the masked schema, or the raw one if the policies do not parse. */
  function ProviderSchema(c: Contract, inner: Schema): Schema {
    match ParsePolicies(c.maskTexts)
    case None => inner
    case Some(policies) => MaskedSchema(inner, policies)
  }

  ghost predicate IsTable(schema: Schema, table: seq<Batch>) {
    forall b | b in table :: ValidBatch(b) && b.schema == schema
  }

  ghost function PassingAll(
      w: World, filter: Option<Expr>, policies: map<string, Policy>,
      projection: Option<seq<nat>>, schema: Schema, table: seq<Batch>): (out: seq<Option<Batch>>)
    requires IsTable(schema, table) && InRange(projection, schema)
    ensures |out| == |table|
    ensures forall b | b in out :: b.Some? ==> ValidBatch(b.value)
  {
    if table == [] then []
    else
      assert table[0] in table;
      PassingValid(w, filter, policies, projection, table[0]);
      [Passing(w, filter, policies, projection, table[0])] + PassingAll(w, filter, policies, projection, schema, table[1..])
  }

  ghost function PassAll(
      w: World, filter: Option<Expr>, policies: map<string, Policy>,
      projection: Option<seq<nat>>, schema: Schema, table: seq<Batch>): (out: seq<Option<Batch>>)
    requires IsTable(schema, table) && InRange(projection, schema)
    ensures |out| == |table|
    ensures forall b | b in out :: b.Some? ==> ValidBatch(b.value)
  {
    if table == [] then []
    else
      assert table[0] in table;
      PassingValid(w, filter, policies, projection, table[0]);
      [Pass(w, filter, policies, projection, table[0])] + PassAll(w, filter, policies, projection, schema, table[1..])
  }

  /** `scan` and the execution of the plan it returns. */
  ghost function Scan(
      w: World, c: Contract, schema: Schema, table: seq<Batch>, projection: Option<seq<nat>>,
      limit: Option<nat>): Result<seq<Batch>, Fault>
    requires IsTable(schema, table) && InRange(projection, schema)
  {
    if c.id == "" then Err(ContractNotApproved)
    else
      match ParsePolicies(c.maskTexts)
      case None => Err(UnknownMaskPolicy)
      case Some(policies) =>
        match CompileFilter(w, c.rowFilter, schema)
        case Err(fault) => if table == [] then Ok([]) else Err(fault)
        case Ok(filter) => Limit(PassAll(w, filter, policies, projection, schema, table), limit)
  }

  // ---- batches stay valid ----

  lemma TakeValid(b: Batch, at: seq<nat>)
    requires ValidBatch(b) && forall i :: 0 <= i < |at| ==> at[i] < b.numRows
    ensures ValidBatch(Take(b, at))
    ensures forall i :: 0 <= i < |at| ==> RowsOf(Take(b, at))[i] == RowsOf(b)[at[i]]
  {
    var out := Take(b, at);
    forall j | 0 <= j < |b.columns|
      ensures ColumnMatches(b.schema[j], out.columns[j], |at|) && ValidArray(out.columns[j])
    {
      var a := b.columns[j];
      assert ColumnMatches(b.schema[j], a, b.numRows) && ValidArray(a);
      if !b.schema[j].nullable {
        assert forall i :: 0 <= i < |at| ==> out.columns[j].values[i] in a.values;
      }
    }
  }

  lemma FilterValid(w: World, filter: Option<Expr>, b: Batch)
    requires ValidBatch(b)
    ensures ValidBatch(FilterBatch(w, filter, b)) && FilterBatch(w, filter, b).schema == b.schema
  {
    if filter.Some? {
      TakeValid(b, KeptBelow(w, filter, b, b.numRows));
    }
  }

  lemma MaskStepShape(w: World, policies: map<string, Policy>, b: Batch)
    requires ValidBatch(b)
    ensures MaskStep(w, policies, b).Some? ==>
              var out := MaskStep(w, policies, b).value;
              ValidBatch(out) && out.schema == MaskedSchema(b.schema, policies) && out.numRows == b.numRows
  {
    if policies.Keys == {} {
      assert MaskedSchema(b.schema, policies) == b.schema;
    } else {
      MaskingMatchesSchema(w.oracles, policies, b);
    }
  }

  lemma ProjectValid(projection: Option<seq<nat>>, b: Batch)
    requires ValidBatch(b) && InRange(projection, b.schema)
    ensures ValidBatch(ProjectBatch(projection, b))
  {
    if projection.Some? {
      var ix := projection.value;
      forall j | 0 <= j < |ix|
        ensures ColumnMatches(b.schema[ix[j]], b.columns[ix[j]], b.numRows) && ValidArray(b.columns[ix[j]])
      {
      }
    }
  }

  lemma PassingValid(
      w: World, filter: Option<Expr>, policies: map<string, Policy>,
      projection: Option<seq<nat>>, b: Batch)
    requires ValidBatch(b) && InRange(projection, b.schema)
    ensures Passing(w, filter, policies, projection, b).Some? ==> ValidBatch(Passing(w, filter, policies, projection, b).value)
  {
    FilterValid(w, filter, b);
    var filtered := FilterBatch(w, filter, b);
    if MaskStep(w, policies, filtered).Some? {
      MaskStepShape(w, policies, filtered);
      ProjectValid(projection, MaskStep(w, policies, filtered).value);
    }
  }

  // ---- what a governed table is, row by row ----

  function FilterTuples(w: World, filter: Option<Expr>, schema: Schema, rows: seq<Tuple>): (out: seq<Tuple>)
    requires forall t | t in rows :: |t| == |schema|
    ensures forall t | t in out :: t in rows
  {
    if rows == [] then []
    else
      var n := |rows| - 1;
      assert rows[n] in rows;
      FilterTuples(w, filter, schema, rows[..n]) + (if KeepsTuple(w, filter, schema, rows[n]) then [rows[n]] else [])
  }

  function MaskTuple(w: World, policies: map<string, Policy>, schema: Schema, t: Tuple): (out: Tuple)
    requires |t| == |schema|
    ensures |out| == |t|
  {
    seq(|t|, j requires 0 <= j < |t| => MaskValue(w.oracles, schema[j].dataType, PolicyFor(policies, schema[j].name), t[j]))
  }

  function ProjectTuple(projection: Option<seq<nat>>, t: Tuple): Tuple
    requires projection.Some? ==> forall j :: 0 <= j < |projection.value| ==> projection.value[j] < |t|
  {
    if projection.None? then t
    else seq(|projection.value|, j requires 0 <= j < |projection.value| => t[projection.value[j]])
  }

  /** Mask, then project, one row. */
  function PresentRow(
      w: World, policies: map<string, Policy>, projection: Option<seq<nat>>, schema: Schema,
      t: Tuple): Tuple
    requires InRange(projection, schema) && |t| == |schema|
  {
    ProjectTuple(projection, MaskTuple(w, policies, schema, t))
  }

  function Present(
      w: World, policies: map<string, Policy>, projection: Option<seq<nat>>, schema: Schema,
      rows: seq<Tuple>): (out: seq<Tuple>)
    requires InRange(projection, schema) && forall t | t in rows :: |t| == |schema|
    ensures |out| == |rows|
    ensures forall i :: 0 <= i < |rows| ==> |rows[i]| == |schema| && out[i] == PresentRow(w, policies, projection, schema, rows[i])
  {
    seq(|rows|, i requires 0 <= i < |rows| => assert rows[i] in rows; PresentRow(w, policies, projection, schema, rows[i]))
  }

  /** The projection of the masked rows of the filtered table. */
  function Governed(
      w: World, filter: Option<Expr>, policies: map<string, Policy>,
      projection: Option<seq<nat>>, schema: Schema, rows: seq<Tuple>): seq<Tuple>
    requires InRange(projection, schema) && forall t | t in rows :: |t| == |schema|
  {
    Present(w, policies, projection, schema, FilterTuples(w, filter, schema, rows))
  }

  function Prefix(rows: seq<Tuple>, limit: Option<nat>): seq<Tuple> {
    if limit.None? || |rows| <= limit.value then rows else rows[..limit.value]
  }

  // ---- each operator, row by row ----

  lemma FilterSnoc(w: World, filter: Option<Expr>, schema: Schema, a: seq<Tuple>, t: Tuple)
    requires (forall u | u in a :: |u| == |schema|) && |t| == |schema|
    ensures FilterTuples(w, filter, schema, a + [t]) ==
            FilterTuples(w, filter, schema, a) + (if KeepsTuple(w, filter, schema, t) then [t] else [])
  {
    assert (a + [t])[..|a|] == a;
  }

  lemma {:induction false} FilterAppend(
      w: World, filter: Option<Expr>, schema: Schema, a: seq<Tuple>, b: seq<Tuple>)
    requires (forall t | t in a :: |t| == |schema|) && (forall t | t in b :: |t| == |schema|)
    ensures FilterTuples(w, filter, schema, a + b) == FilterTuples(w, filter, schema, a) + FilterTuples(w, filter, schema, b)
    decreases |b|
  {
    if b == [] {
      assert a + b == a;
    } else {
      var b', t := b[..|b| - 1], b[|b| - 1];
      assert t in b;
      assert b' + [t] == b;
      Reassociate(a, b', [t]);
      var last := if KeepsTuple(w, filter, schema, t) then [t] else [];
      FilterAppend(w, filter, schema, a, b');
      FilterSnoc(w, filter, schema, b', t);
      FilterSnoc(w, filter, schema, a + b', t);
      Reassociate(FilterTuples(w, filter, schema, a), FilterTuples(w, filter, schema, b'), last);
    }
  }

  lemma WidthsSplit(schema: Schema, a: seq<Tuple>, b: seq<Tuple>)
    requires forall t | t in a + b :: |t| == |schema|
    ensures (forall t | t in a :: |t| == |schema|) && (forall t | t in b :: |t| == |schema|)
  {
    assert forall t | t in a :: t in a + b;
    assert forall t | t in b :: t in a + b;
  }

  lemma RowWidths(b: Batch)
    requires ValidBatch(b)
    ensures forall t | t in RowsOf(b) :: |t| == |b.schema|
  {
  }

  /** The rows of `b` at these positions. */
  ghost predicate AreRowsAt(b: Batch, at: seq<nat>, out: seq<Tuple>)
    requires ValidBatch(b)
  {
    |at| == |out| && forall i :: 0 <= i < |at| ==> at[i] < b.numRows && out[i] == RowsOf(b)[at[i]]
  }

  lemma RowsAtSnoc(b: Batch, at: seq<nat>, out: seq<Tuple>, n: nat)
    requires ValidBatch(b) && n < b.numRows && AreRowsAt(b, at, out)
    ensures AreRowsAt(b, at + [n], out + [RowsOf(b)[n]]) && AreRowsAt(b, at + [], out + [])
  {
  }

  lemma KeptOneMore(w: World, filter: Option<Expr>, b: Batch, n: nat, rows: seq<Tuple>, t: Tuple)
    requires ValidBatch(b) && n < b.numRows && t == RowsOf(b)[n] && |t| == |b.schema| && forall u | u in rows :: |u| == |b.schema|
    requires AreRowsAt(b, KeptBelow(w, filter, b, n), FilterTuples(w, filter, b.schema, rows))
    ensures AreRowsAt(b, KeptBelow(w, filter, b, n + 1), FilterTuples(w, filter, b.schema, rows + [t]))
  {
    FilterSnoc(w, filter, b.schema, rows, t);
    RowsAtSnoc(b, KeptBelow(w, filter, b, n), FilterTuples(w, filter, b.schema, rows), n);
  }

  lemma FirstRowsSnoc(b: Batch, n: nat)
    requires ValidBatch(b) && n < b.numRows
    ensures RowsOf(b)[..n + 1] == RowsOf(b)[..n] + [RowsOf(b)[n]]
    ensures (forall t | t in RowsOf(b)[..n] :: |t| == |b.schema|) && |RowsOf(b)[n]| == |b.schema|
  {
  }

  lemma {:induction false} KeptAreFiltered(w: World, filter: Option<Expr>, b: Batch, n: nat)
    requires ValidBatch(b) && n <= b.numRows && forall t | t in RowsOf(b)[..n] :: |t| == |b.schema|
    ensures AreRowsAt(b, KeptBelow(w, filter, b, n), FilterTuples(w, filter, b.schema, RowsOf(b)[..n]))
  {
    if n > 0 {
      FirstRowsSnoc(b, n - 1);
      KeptAreFiltered(w, filter, b, n - 1);
      KeptOneMore(w, filter, b, n - 1, RowsOf(b)[..n - 1], RowsOf(b)[n - 1]);
    }
  }

  lemma {:induction false} AllKept(w: World, schema: Schema, rows: seq<Tuple>)
    requires forall t | t in rows :: |t| == |schema|
    ensures FilterTuples(w, None, schema, rows) == rows
  {
    if rows != [] {
      var rest, t := rows[..|rows| - 1], rows[|rows| - 1];
      assert t in rows;
      assert rows == rest + [t];
      AllKept(w, schema, rest);
      FilterSnoc(w, None, schema, rest, t);
    }
  }

  lemma FilterRowsOf(w: World, filter: Option<Expr>, b: Batch)
    requires ValidBatch(b)
    ensures ValidBatch(FilterBatch(w, filter, b)) && forall t | t in RowsOf(b) :: |t| == |b.schema|
    ensures RowsOf(FilterBatch(w, filter, b)) == FilterTuples(w, filter, b.schema, RowsOf(b))
  {
    FilterValid(w, filter, b);
    RowWidths(b);
    if filter.None? {
      AllKept(w, b.schema, RowsOf(b));
    } else {
      assert RowsOf(b)[..b.numRows] == RowsOf(b);
      KeptAreFiltered(w, filter, b, b.numRows);
      TakeValid(b, KeptBelow(w, filter, b, b.numRows));
    }
  }

  lemma MaskRowsOf(w: World, policies: map<string, Policy>, b: Batch, i: nat)
    requires ValidBatch(b) && MaskStep(w, policies, b).Some? && i < b.numRows
    ensures ValidBatch(MaskStep(w, policies, b).value) && MaskStep(w, policies, b).value.numRows == b.numRows
    ensures RowsOf(MaskStep(w, policies, b).value)[i] == MaskTuple(w, policies, b.schema, RowsOf(b)[i])
  {
    MaskStepShape(w, policies, b);
    var out, t := MaskStep(w, policies, b).value, RowsOf(b)[i];
    if policies.Keys != {} {
      MaskingMatchesSchema(w.oracles, policies, b);
    }
    forall j | 0 <= j < |b.columns|
      ensures out.columns[j].values[i] == MaskValue(w.oracles, b.schema[j].dataType, PolicyFor(policies, b.schema[j].name), t[j])
    {
      assert ColumnMatches(b.schema[j], b.columns[j], b.numRows);
    }
    assert RowsOf(out)[i] == MaskTuple(w, policies, b.schema, t);
  }

  lemma ProjectRowsOf(projection: Option<seq<nat>>, b: Batch)
    requires ValidBatch(b) && InRange(projection, b.schema)
    ensures ValidBatch(ProjectBatch(projection, b)) && ProjectBatch(projection, b).numRows == b.numRows
    ensures forall i :: 0 <= i < b.numRows ==>
              |RowsOf(b)[i]| == |b.schema| && RowsOf(ProjectBatch(projection, b))[i] == ProjectTuple(projection, RowsOf(b)[i])
  {
    ProjectValid(projection, b);
  }

  lemma MaskedRowsOf(w: World, policies: map<string, Policy>, projection: Option<seq<nat>>, b: Batch)
    requires ValidBatch(b) && InRange(projection, b.schema) && MaskStep(w, policies, b).Some?
    ensures var masked := MaskStep(w, policies, b).value;
            && ValidBatch(masked) && InRange(projection, masked.schema)
            && ValidBatch(ProjectBatch(projection, masked)) && (forall t | t in RowsOf(b) :: |t| == |b.schema|)
            && RowsOf(ProjectBatch(projection, masked)) == Present(w, policies, projection, b.schema, RowsOf(b))
  {
    MaskStepShape(w, policies, b);
    var masked := MaskStep(w, policies, b).value;
    ProjectRowsOf(projection, masked);
    RowWidths(b);
    forall i | 0 <= i < b.numRows
      ensures RowsOf(masked)[i] == MaskTuple(w, policies, b.schema, RowsOf(b)[i])
    {
      MaskRowsOf(w, policies, b, i);
    }
  }

  lemma PassingRows(
      w: World, filter: Option<Expr>, policies: map<string, Policy>,
      projection: Option<seq<nat>>, b: Batch)
    requires ValidBatch(b) && InRange(projection, b.schema) && Passing(w, filter, policies, projection, b).Some?
    ensures ValidBatch(Passing(w, filter, policies, projection, b).value) && forall t | t in RowsOf(b) :: |t| == |b.schema|
    ensures RowsOf(Passing(w, filter, policies, projection, b).value) ==
            Governed(w, filter, policies, projection, b.schema, RowsOf(b))
  {
    FilterValid(w, filter, b);
    FilterRowsOf(w, filter, b);
    MaskedRowsOf(w, policies, projection, FilterBatch(w, filter, b));
  }

  lemma PresentAppend(
      w: World, policies: map<string, Policy>, projection: Option<seq<nat>>, schema: Schema,
      a: seq<Tuple>, b: seq<Tuple>)
    requires InRange(projection, schema) && (forall t | t in a :: |t| == |schema|) && (forall t | t in b :: |t| == |schema|)
    ensures Present(w, policies, projection, schema, a + b) ==
            Present(w, policies, projection, schema, a) + Present(w, policies, projection, schema, b)
  {
    var pa, pb := Present(w, policies, projection, schema, a), Present(w, policies, projection, schema, b);
    var both := Present(w, policies, projection, schema, a + b);
    forall i | 0 <= i < |a| ensures both[i] == (pa + pb)[i] {
      assert (a + b)[i] == a[i];
    }
    forall i | |a| <= i < |a + b| ensures both[i] == (pa + pb)[i] {
      assert (a + b)[i] == b[i - |a|];
    }
  }

  lemma GovernedAppend(
      w: World, filter: Option<Expr>, policies: map<string, Policy>,
      projection: Option<seq<nat>>, schema: Schema, a: seq<Tuple>, b: seq<Tuple>)
    requires InRange(projection, schema) && forall t | t in a + b :: |t| == |schema|
    ensures (forall t | t in a :: |t| == |schema|) && (forall t | t in b :: |t| == |schema|)
    ensures Governed(w, filter, policies, projection, schema, a + b) ==
            Governed(w, filter, policies, projection, schema, a) + Governed(w, filter, policies, projection, schema, b)
  {
    WidthsSplit(schema, a, b);
    FilterAppend(w, filter, schema, a, b);
    PresentAppend(w, policies, projection, schema, FilterTuples(w, filter, schema, a), FilterTuples(w, filter, schema, b));
  }

  lemma {:induction false} TableWidths(schema: Schema, table: seq<Batch>)
    requires IsTable(schema, table)
    ensures forall t | t in AllRows(table) :: |t| == |schema|
  {
    if table != [] {
      assert table[0] in table;
      RowWidths(table[0]);
      TableWidths(schema, table[1..]);
    }
  }

  lemma PrefixAppend(a: seq<Tuple>, b: seq<Tuple>, n: nat)
    ensures |a| <= n ==> Prefix(a + b, Some(n)) == a + Prefix(b, Some(n - |a|))
    ensures |a| >= n ==> Prefix(a + b, Some(n)) == a[..n]
  {
  }

  lemma FirstRowsOf(b: Batch, n: nat)
    requires ValidBatch(b) && n <= b.numRows
    ensures ValidBatch(Take(b, FirstRows(n))) && AllRows([Take(b, FirstRows(n))]) == RowsOf(b)[..n]
  {
    TakeValid(b, FirstRows(n));
    var cut := Take(b, FirstRows(n));
    assert [cut][1..] == [] && AllRows([]) == [];
    assert RowsOf(cut) + [] == RowsOf(b)[..n];
  }

  ghost predicate AllValid(stream: seq<Option<Batch>>) {
    forall b | b in stream :: b.Some? && ValidBatch(b.value)
  }

  ghost function RowsOfStream(stream: seq<Option<Batch>>): seq<Tuple>
    requires AllValid(stream)
  {
    if stream == [] then []
    else
      assert stream[0] in stream;
      RowsOf(stream[0].value) + RowsOfStream(stream[1..])
  }

  lemma OneMoreBatch(b: Batch, rest: seq<Batch>)
    requires ValidBatch(b) && forall c | c in rest :: ValidBatch(c)
    ensures (forall c | c in [b] + rest :: ValidBatch(c)) && AllRows([b] + rest) == RowsOf(b) + AllRows(rest)
  {
    assert ([b] + rest)[1..] == rest;
  }

  /** The limit operator yields exactly the first rows of its input. */
  lemma {:induction false} LimitTakesPrefix(stream: seq<Option<Batch>>, limit: Option<nat>)
    requires AllValid(stream)
    ensures Limit(stream, limit).Ok?
    ensures var out := Limit(stream, limit).value;
            (forall b | b in out :: ValidBatch(b)) && AllRows(out) == Prefix(RowsOfStream(stream), limit)
    decreases |stream|
  {
    if stream != [] {
      assert stream[0] in stream;
      var b := stream[0].value;
      var later := RowsOfStream(stream[1..]);
      if limit.None? {
        LimitTakesPrefix(stream[1..], None);
        OneMoreBatch(b, Limit(stream[1..], None).value);
      } else {
        PrefixAppend(RowsOf(b), later, limit.value);
        if b.numRows < limit.value {
          var left := Some(limit.value - b.numRows);
          LimitTakesPrefix(stream[1..], left);
          OneMoreBatch(b, Limit(stream[1..], left).value);
        } else if limit.value > 0 {
          FirstRowsOf(b, limit.value);
        }
      }
    }
  }

  /** Masking a batch fails for its schema, never for its data. */
  predicate MaskingWorks(w: World, policies: map<string, Policy>, schema: Schema) {
    policies.Keys == {} || (AllSupported(w.oracles, policies, schema) && |schema| > 0)
  }

  lemma PassingWorks(
      w: World, filter: Option<Expr>, policies: map<string, Policy>,
      projection: Option<seq<nat>>, b: Batch)
    requires ValidBatch(b) && InRange(projection, b.schema)
    ensures Passing(w, filter, policies, projection, b).Some? <==> MaskingWorks(w, policies, b.schema)
  {
    FilterValid(w, filter, b);
    if policies.Keys != {} {
      MaskingMatchesSchema(w.oracles, policies, FilterBatch(w, filter, b));
    }
  }

  lemma {:induction false} PassingAllRows(
      w: World, filter: Option<Expr>, policies: map<string, Policy>,
      projection: Option<seq<nat>>, schema: Schema, table: seq<Batch>)
    requires IsTable(schema, table) && InRange(projection, schema) && MaskingWorks(w, policies, schema)
    ensures forall t | t in AllRows(table) :: |t| == |schema|
    ensures AllValid(PassingAll(w, filter, policies, projection, schema, table))
    ensures RowsOfStream(PassingAll(w, filter, policies, projection, schema, table)) ==
            Governed(w, filter, policies, projection, schema, AllRows(table))
    decreases |table|
  {
    TableWidths(schema, table);
    if table != [] {
      var b, rest := table[0], table[1..];
      assert b in table;
      PassingWorks(w, filter, policies, projection, b);
      PassingRows(w, filter, policies, projection, b);
      PassingAllRows(w, filter, policies, projection, schema, rest);
      GovernedAppend(w, filter, policies, projection, schema, RowsOf(b), AllRows(rest));
      StreamStep(Passing(w, filter, policies, projection, b), PassingAll(w, filter, policies, projection, schema, rest));
    }
  }

  lemma StreamStep(first: Option<Batch>, rest: seq<Option<Batch>>)
    requires first.Some? && ValidBatch(first.value) && AllValid(rest)
    ensures AllValid([first] + rest) && RowsOfStream([first] + rest) == RowsOf(first.value) + RowsOfStream(rest)
  {
    assert ([first] + rest)[1..] == rest;
  }

  lemma LimitedRows(
      w: World, filter: Option<Expr>, policies: map<string, Policy>,
      projection: Option<seq<nat>>, schema: Schema, table: seq<Batch>, limit: Option<nat>)
    requires IsTable(schema, table) && InRange(projection, schema) && (table == [] || MaskingWorks(w, policies, schema))
    ensures forall t | t in AllRows(table) :: |t| == |schema|
    ensures Limit(PassingAll(w, filter, policies, projection, schema, table), limit).Ok?
    ensures var out := Limit(PassingAll(w, filter, policies, projection, schema, table), limit).value;
            && (forall b | b in out :: ValidBatch(b))
            && AllRows(out) == Prefix(Governed(w, filter, policies, projection, schema, AllRows(table)), limit)
  {
    if table != [] {
      PassingAllRows(w, filter, policies, projection, schema, table);
      LimitTakesPrefix(PassingAll(w, filter, policies, projection, schema, table), limit);
    }
  }

  // ---- faults ----

  /** How many batches a limit asks for. */
  ghost function AskedCount(stream: seq<Option<Batch>>, limit: Option<nat>): (n: nat)
    ensures n <= |stream| && (stream != [] ==> n > 0)
  {
    if stream == [] then 0
    else if stream[0].Some? && limit.Some? && stream[0].value.numRows >= limit.value then 1
    else
      1 + AskedCount(stream[1..], if stream[0].Some? && limit.Some? then Some(limit.value - stream[0].value.numRows) else limit)
  }

  /** `a` is `b` with some batches replaced by faults. */
  ghost predicate FaultyVersion(a: seq<Option<Batch>>, b: seq<Option<Batch>>) {
    |a| == |b| && forall i :: 0 <= i < |a| ==> a[i].None? || a[i] == b[i]
  }

  /** A fault matters exactly if its batch is asked for; without one, the output is as if there were none. */
  lemma {:induction false} LimitOkIff(a: seq<Option<Batch>>, b: seq<Option<Batch>>, limit: Option<nat>)
    requires AllValid(b) && FaultyVersion(a, b) && forall x | x in a :: x.Some? ==> ValidBatch(x.value)
    ensures Limit(a, limit).Ok? <==> forall i :: 0 <= i < AskedCount(b, limit) ==> a[i].Some?
    ensures Limit(a, limit).Ok? ==> Limit(a, limit) == Limit(b, limit)
    decreases |a|
  {
    if a != [] {
      assert b[0] in b;
      var n := b[0].value.numRows;
      if a[0].Some? && (limit.None? || n < limit.value) {
        var left := if limit.None? then None else Some(limit.value - n);
        assert forall i :: 0 <= i < |a| - 1 ==> a[1..][i] == a[i + 1] && b[1..][i] == b[i + 1];
        LimitOkIff(a[1..], b[1..], left);
        AskedLater(a, b, limit, left);
      }
    }
  }

  lemma AskedLater(a: seq<Option<Batch>>, b: seq<Option<Batch>>, limit: Option<nat>, left: Option<nat>)
    requires |a| == |b| && a != [] && a[0].Some? && AskedCount(b, limit) == 1 + AskedCount(b[1..], left)
    ensures (forall i :: 0 <= i < AskedCount(b, limit) ==> a[i].Some?) <==>
            (forall i :: 0 <= i < AskedCount(b[1..], left) ==> a[1..][i].Some?)
  {
    forall i | 1 <= i < AskedCount(b, limit) ensures a[i] == a[1..][i - 1] {
    }
    forall i | 0 <= i < AskedCount(b[1..], left) ensures a[1..][i] == a[i + 1] {
    }
  }

  /** On which batches the filter runs. */
  ghost function Runs(w: World, filter: Option<Expr>, schema: Schema, table: seq<Batch>): (runs: seq<bool>)
    requires IsTable(schema, table)
    ensures |runs| == |table|
  {
    if table == [] then []
    else
      assert table[0] in table;
      [FilterRuns(w, filter, table[0])] + Runs(w, filter, schema, table[1..])
  }

  ghost predicate FaultsAt(a: seq<Option<Batch>>, b: seq<Option<Batch>>, runs: seq<bool>) {
    |a| == |b| == |runs| && forall i :: 0 <= i < |a| ==> a[i] == if runs[i] then b[i] else None
  }

  lemma FaultsCons(x: Option<Batch>, a: seq<Option<Batch>>, y: Option<Batch>, b: seq<Option<Batch>>, run: bool, runs: seq<bool>)
    requires FaultsAt(a, b, runs) && x == if run then y else None
    ensures FaultsAt([x] + a, [y] + b, [run] + runs)
  {
  }

  lemma {:induction false} PassAllFaults(
      w: World, filter: Option<Expr>, policies: map<string, Policy>,
      projection: Option<seq<nat>>, schema: Schema, table: seq<Batch>)
    requires IsTable(schema, table) && InRange(projection, schema)
    ensures FaultsAt(PassAll(w, filter, policies, projection, schema, table),
                     PassingAll(w, filter, policies, projection, schema, table), Runs(w, filter, schema, table))
    decreases |table|
  {
    if table != [] {
      var first, rest := table[0], table[1..];
      assert first in table;
      PassAllFaults(w, filter, policies, projection, schema, rest);
      FaultsCons(Pass(w, filter, policies, projection, first), PassAll(w, filter, policies, projection, schema, rest),
                 Passing(w, filter, policies, projection, first), PassingAll(w, filter, policies, projection, schema, rest),
                 FilterRuns(w, filter, first), Runs(w, filter, schema, rest));
    }
  }

  lemma LimitRuns(a: seq<Option<Batch>>, b: seq<Option<Batch>>, runs: seq<bool>, limit: Option<nat>)
    requires AllValid(b) && FaultsAt(a, b, runs) && forall x | x in a :: x.Some? ==> ValidBatch(x.value)
    ensures Limit(a, limit).Ok? <==> forall i :: 0 <= i < AskedCount(b, limit) ==> runs[i]
    ensures Limit(a, limit).Ok? ==> Limit(a, limit) == Limit(b, limit)
  {
    LimitOkIff(a, b, limit);
    forall i | 0 <= i < |a| ensures a[i].Some? <==> runs[i] {
      assert b[i] in b;
    }
  }

  /** The filter runs on every batch that the limit asks for. */
  ghost predicate AskedRun(
      w: World, filter: Option<Expr>, policies: map<string, Policy>, projection: Option<seq<nat>>,
      schema: Schema, table: seq<Batch>, limit: Option<nat>)
    requires IsTable(schema, table) && InRange(projection, schema)
  {
    forall i :: 0 <= i < AskedCount(PassingAll(w, filter, policies, projection, schema, table), limit) ==>
      Runs(w, filter, schema, table)[i]
  }

  lemma FaultsDecide(
      w: World, filter: Option<Expr>, policies: map<string, Policy>, projection: Option<seq<nat>>,
      schema: Schema, table: seq<Batch>, limit: Option<nat>)
    requires IsTable(schema, table) && InRange(projection, schema) && MaskingWorks(w, policies, schema)
    ensures var a, b := PassAll(w, filter, policies, projection, schema, table), PassingAll(w, filter, policies, projection, schema, table);
            && (Limit(a, limit).Ok? <==> AskedRun(w, filter, policies, projection, schema, table, limit))
            && (forall x | x in b :: x.Some? ==> ValidBatch(x.value))
            && (Limit(a, limit).Ok? ==> Limit(a, limit) == Limit(b, limit))
  {
    PassingAllRows(w, filter, policies, projection, schema, table);
    PassAllFaults(w, filter, policies, projection, schema, table);
    LimitRuns(PassAll(w, filter, policies, projection, schema, table),
              PassingAll(w, filter, policies, projection, schema, table), Runs(w, filter, schema, table), limit);
  }

  lemma {:induction false} RunsAt(w: World, filter: Option<Expr>, schema: Schema, table: seq<Batch>, i: nat)
    requires IsTable(schema, table) && i < |table|
    ensures table[i] in table && Runs(w, filter, schema, table)[i] == FilterRuns(w, filter, table[i])
  {
    assert table[0] in table;
    if i > 0 {
      RunsAt(w, filter, schema, table[1..], i - 1);
    }
  }

  lemma MaskingFails(
      w: World, filter: Option<Expr>, policies: map<string, Policy>, projection: Option<seq<nat>>,
      schema: Schema, table: seq<Batch>, limit: Option<nat>)
    requires IsTable(schema, table) && InRange(projection, schema) && !MaskingWorks(w, policies, schema) && table != []
    ensures Limit(PassAll(w, filter, policies, projection, schema, table), limit).Err?
  {
    assert table[0] in table;
    PassingWorks(w, filter, policies, projection, table[0]);
  }

  // ---- main results ----

  /**
   When a scan succeeds: the contract has an id, its policies parse, and, if there is any batch at
   all, its filter compiles and runs on every batch that is asked for, and every masked column's
   type supports its policy.
   */
  lemma ScanSucceedsIff(
      w: World, c: Contract, schema: Schema, table: seq<Batch>, projection: Option<seq<nat>>,
      limit: Option<nat>)
    requires IsTable(schema, table) && InRange(projection, schema)
    ensures Scan(w, c, schema, table, projection, limit).Ok? <==>
            && c.id != "" && ParsePolicies(c.maskTexts).Some?
            && (table == [] ||
                (&& CompileFilter(w, c.rowFilter, schema).Ok? && MaskingWorks(w, ParsePolicies(c.maskTexts).value, schema)
                 && AskedRun(w, CompileFilter(w, c.rowFilter, schema).value, ParsePolicies(c.maskTexts).value,
                             projection, schema, table, limit)))
  {
    if c.id != "" && ParsePolicies(c.maskTexts).Some? && CompileFilter(w, c.rowFilter, schema).Ok? && table != [] {
      var filter, policies := CompileFilter(w, c.rowFilter, schema).value, ParsePolicies(c.maskTexts).value;
      if MaskingWorks(w, policies, schema) {
        FaultsDecide(w, filter, policies, projection, schema, table, limit);
      } else {
        MaskingFails(w, filter, policies, projection, schema, table, limit);
      }
    }
  }

  /** There is no filter, or its text is a predicate of type Boolean over the schema. */
  predicate FilterTyped(w: World, text: Option<string>, schema: Schema) {
    || text.None? || text.value == ""
    || (&& w.parse(text.value).Some? && TranslatePhysical(w.engine, w.parse(text.value).value).Some?
        && DistinctNames(schema)
        && TypeOf(w.kernels.accepts, schema, TranslatePhysical(w.engine, w.parse(text.value).value).value) == Some(TRUTH))
  }

  lemma TypedRuns(w: World, text: Option<string>, schema: Schema, b: Batch)
    requires ValidBatch(b) && b.schema == schema
    ensures FilterTyped(w, text, schema) ==>
              CompileFilter(w, text, schema).Ok? && FilterRuns(w, CompileFilter(w, text, schema).value, b)
    ensures !w.kernels.lazy && CompileFilter(w, text, schema).Ok? && FilterRuns(w, CompileFilter(w, text, schema).value, b) ==>
              FilterTyped(w, text, schema)
  {
    if text.Some? && text.value != "" && w.parse(text.value).Some? && TranslatePhysical(w.engine, w.parse(text.value).value).Some? {
      var e := TranslatePhysical(w.engine, w.parse(text.value).value).value;
      if TypeOf(w.kernels.accepts, schema, e).Some? {
        TypedIsKnown(w.kernels.accepts, schema, e);
        TypedNeverFaults(w.kernels, w.engine, schema, e, NamedRows(b));
      }
      if !w.kernels.lazy {
        EagerIsTyping(w.kernels, w.engine, schema, e, NamedRows(b));
      }
    }
  }

  /**
   When a filter compiles: it is absent or empty, or its text parses and translates, no two columns
   of the schema have one name, and every column that it names is there.
   */
  lemma CompilesIff(w: World, text: Option<string>, schema: Schema)
    ensures CompileFilter(w, text, schema).Ok? <==>
              || text.None? || text.value == ""
              || (&& w.parse(text.value).Some? && TranslatePhysical(w.engine, w.parse(text.value).value).Some?
                  && (forall i, j :: 0 <= i < |schema| && 0 <= j < |schema| && i != j ==> schema[i].name != schema[j].name)
                  && forall name :: Mentions(TranslatePhysical(w.engine, w.parse(text.value).value).value, name) ==> HasColumn(schema, name))
  {
    if text.Some? && text.value != "" && w.parse(text.value).Some? && TranslatePhysical(w.engine, w.parse(text.value).value).Some? {
      KnownIff(schema, TranslatePhysical(w.engine, w.parse(text.value).value).value);
    }
  }

  lemma {:induction false} LimitFault(stream: seq<Option<Batch>>, limit: Option<nat>)
    requires forall b | b in stream :: b.Some? ==> ValidBatch(b.value)
    ensures Limit(stream, limit).Err? ==> Limit(stream, limit).error == ExecutionFailed
    decreases |stream|
  {
    if stream != [] && stream[0].Some? {
      assert stream[0] in stream;
      if limit.None? || stream[0].value.numRows < limit.value {
        LimitFault(stream[1..], if limit.None? then None else Some(limit.value - stream[0].value.numRows));
      }
    }
  }

  /** What each fault of a scan says: no contract, an unknown policy text in it, or a failure while running. */
  lemma ScanFaultIff(
      w: World, c: Contract, schema: Schema, table: seq<Batch>, projection: Option<seq<nat>>,
      limit: Option<nat>)
    requires IsTable(schema, table) && InRange(projection, schema)
    ensures var r := Scan(w, c, schema, table, projection, limit);
            && (r == Err(ContractNotApproved) <==> c.id == "")
            && (r == Err(UnknownMaskPolicy) <==>
                  && c.id != ""
                  && exists k :: k in c.maskTexts && c.maskTexts[k] !in {"redact", "hash_sha256", "tokenize", "noop", "partial", "null"})
  {
    UnknownPolicyFails(c.maskTexts);
    if c.id != "" && ParsePolicies(c.maskTexts).Some? && CompileFilter(w, c.rowFilter, schema).Ok? {
      LimitFault(PassAll(w, CompileFilter(w, c.rowFilter, schema).value, ParsePolicies(c.maskTexts).value, projection, schema, table), limit);
    }
  }

  /**
   With a filter that has a type, and with kernels that are not lazy in any case, a scan succeeds or
   fails for reasons of contract and schema, never of data.
   */
  lemma ScanSucceedsForSchemaIff(
      w: World, c: Contract, schema: Schema, table: seq<Batch>, projection: Option<seq<nat>>,
      limit: Option<nat>)
    requires IsTable(schema, table) && InRange(projection, schema)
    requires FilterTyped(w, c.rowFilter, schema) || !w.kernels.lazy
    ensures Scan(w, c, schema, table, projection, limit).Ok? <==>
            && c.id != "" && ParsePolicies(c.maskTexts).Some?
            && (table == [] || (FilterTyped(w, c.rowFilter, schema) && MaskingWorks(w, ParsePolicies(c.maskTexts).value, schema)))
  {
    ScanSucceedsIff(w, c, schema, table, projection, limit);
    forall i | 0 <= i < |table|
      ensures FilterTyped(w, c.rowFilter, schema) <==>
              CompileFilter(w, c.rowFilter, schema).Ok? && Runs(w, CompileFilter(w, c.rowFilter, schema).value, schema, table)[i]
    {
      assert table[i] in table;
      TypedRuns(w, c.rowFilter, schema, table[i]);
      if CompileFilter(w, c.rowFilter, schema).Ok? {
        RunsAt(w, CompileFilter(w, c.rowFilter, schema).value, schema, table, i);
      }
    }
    if table != [] {
      assert table[0] in table;
      TypedRuns(w, c.rowFilter, schema, table[0]);
    }
    if table != [] && ParsePolicies(c.maskTexts).Some? && CompileFilter(w, c.rowFilter, schema).Ok? {
      var filter, policies := CompileFilter(w, c.rowFilter, schema).value, ParsePolicies(c.maskTexts).value;
      AskedRunIffFirst(w, filter, policies, projection, schema, table, limit);
    }
  }

  lemma AskedRunIffFirst(
      w: World, filter: Option<Expr>, policies: map<string, Policy>, projection: Option<seq<nat>>,
      schema: Schema, table: seq<Batch>, limit: Option<nat>)
    requires IsTable(schema, table) && InRange(projection, schema) && table != []
    requires forall i :: 0 <= i < |table| ==> Runs(w, filter, schema, table)[i] == Runs(w, filter, schema, table)[0]
    ensures AskedRun(w, filter, policies, projection, schema, table, limit) <==> Runs(w, filter, schema, table)[0]
  {
    assert AskedCount(PassingAll(w, filter, policies, projection, schema, table), limit) > 0;
  }

  /**
   For every table and every way of splitting it into batches, a governed scan that succeeds
   yields the first n rows of the projection of the masked rows of the filtered full table, in
   order, whether or not the filter's columns are projected.
   */
  lemma ScanIsGoverned(
      w: World, c: Contract, schema: Schema, table: seq<Batch>, projection: Option<seq<nat>>,
      limit: Option<nat>)
    requires IsTable(schema, table) && InRange(projection, schema)
    requires Scan(w, c, schema, table, projection, limit).Ok? && CompileFilter(w, c.rowFilter, schema).Ok?
    ensures forall t | t in AllRows(table) :: |t| == |schema|
    ensures var out := Scan(w, c, schema, table, projection, limit).value;
            && (forall b | b in out :: ValidBatch(b))
            && AllRows(out) ==
               Prefix(Governed(w, CompileFilter(w, c.rowFilter, schema).value, ParsePolicies(c.maskTexts).value,
                               projection, schema, AllRows(table)), limit)
  {
    ScanSucceedsIff(w, c, schema, table, projection, limit);
    var filter, policies := CompileFilter(w, c.rowFilter, schema).value, ParsePolicies(c.maskTexts).value;
    LimitedRows(w, filter, policies, projection, schema, table, limit);
    if table != [] {
      FaultsDecide(w, filter, policies, projection, schema, table, limit);
    }
  }

  /** So the split into batches is invisible. */
  lemma SplitIsInvisible(
      w: World, c: Contract, schema: Schema, table1: seq<Batch>, table2: seq<Batch>,
      projection: Option<seq<nat>>, limit: Option<nat>)
    requires IsTable(schema, table1) && IsTable(schema, table2) && InRange(projection, schema)
    requires AllRows(table1) == AllRows(table2) && CompileFilter(w, c.rowFilter, schema).Ok?
    requires Scan(w, c, schema, table1, projection, limit).Ok? && Scan(w, c, schema, table2, projection, limit).Ok?
    ensures (forall b | b in Scan(w, c, schema, table1, projection, limit).value :: ValidBatch(b))
    ensures (forall b | b in Scan(w, c, schema, table2, projection, limit).value :: ValidBatch(b))
    ensures AllRows(Scan(w, c, schema, table1, projection, limit).value) ==
            AllRows(Scan(w, c, schema, table2, projection, limit).value)
  {
    ScanIsGoverned(w, c, schema, table1, projection, limit);
    ScanIsGoverned(w, c, schema, table2, projection, limit);
  }

  /** Every batch of a scan carries the schema that the provider published, projected. */
  lemma PassHasProviderSchema(
      w: World, c: Contract, filter: Option<Expr>, projection: Option<seq<nat>>, b: Batch)
    requires ValidBatch(b) && InRange(projection, b.schema) && ParsePolicies(c.maskTexts).Some?
    requires Pass(w, filter, ParsePolicies(c.maskTexts).value, projection, b).Some?
    ensures |ProviderSchema(c, b.schema)| == |b.schema|
    ensures var out := Pass(w, filter, ParsePolicies(c.maskTexts).value, projection, b).value;
            if projection.None? then out.schema == ProviderSchema(c, b.schema)
            else && |out.schema| == |projection.value|
                 && forall j :: 0 <= j < |projection.value| ==> out.schema[j] == ProviderSchema(c, b.schema)[projection.value[j]]
  {
  }

  // ---- what the output does not depend on ----

  /** All that a policy lets through of a value. */
  ghost predicate Indistinguishable(w: World, p: Policy, t: DataType, v1: Value, v2: Value) {
    match p
    case Noop => v1 == v2
    case Redact => v1.Null? <==> v2.Null?
    case NullPolicy => v1.Null? <==> v2.Null?
    case Partial =>
      (v1.Null? <==> v2.Null?) && (!v1.Null? ==> LastFour(TextOf(w.oracles, v1)) == LastFour(TextOf(w.oracles, v2)))
    case _ =>
      (v1.Null? <==> v2.Null?) &&
      (!v1.Null? ==> w.oracles.sha256Hex(TextOf(w.oracles, v1)) == w.oracles.sha256Hex(TextOf(w.oracles, v2)))
  }

  /** Two rows that agree on unmasked columns, on masked images and on the filter's verdict. */
  ghost predicate Alike(
      w: World, filter: Option<Expr>, policies: map<string, Policy>, schema: Schema, t1: Tuple,
      t2: Tuple)
    requires |t1| == |t2| == |schema|
  {
    && (forall j :: 0 <= j < |schema| ==>
          Indistinguishable(w, PolicyFor(policies, schema[j].name), schema[j].dataType, t1[j], t2[j]))
    && (KeepsTuple(w, filter, schema, t1) <==> KeepsTuple(w, filter, schema, t2))
  }

  lemma MaskHides(w: World, p: Policy, t: DataType, v1: Value, v2: Value)
    requires Indistinguishable(w, p, t, v1, v2) && Supported(w.oracles, t, p)
    ensures MaskValue(w.oracles, t, p, v1) == MaskValue(w.oracles, t, p, v2)
  {
  }

  lemma TupleHides(w: World, policies: map<string, Policy>, schema: Schema, t1: Tuple, t2: Tuple)
    requires |t1| == |t2| == |schema| && AllSupported(w.oracles, policies, schema)
    requires forall j :: 0 <= j < |schema| ==>
               Indistinguishable(w, PolicyFor(policies, schema[j].name), schema[j].dataType, t1[j], t2[j])
    ensures MaskTuple(w, policies, schema, t1) == MaskTuple(w, policies, schema, t2)
  {
    forall j | 0 <= j < |schema|
      ensures MaskTuple(w, policies, schema, t1)[j] == MaskTuple(w, policies, schema, t2)[j]
    {
      MaskHides(w, PolicyFor(policies, schema[j].name), schema[j].dataType, t1[j], t2[j]);
    }
  }

  ghost predicate AllAlike(
      w: World, filter: Option<Expr>, policies: map<string, Policy>, schema: Schema,
      rows1: seq<Tuple>, rows2: seq<Tuple>) {
    |rows1| == |rows2| && forall i :: 0 <= i < |rows1| ==>
      |rows1[i]| == |rows2[i]| == |schema| && Alike(w, filter, policies, schema, rows1[i], rows2[i])
  }

  lemma AlikeFront(
      w: World, filter: Option<Expr>, policies: map<string, Policy>, schema: Schema,
      rows1: seq<Tuple>, rows2: seq<Tuple>)
    requires AllAlike(w, filter, policies, schema, rows1, rows2) && rows1 != []
    ensures AllAlike(w, filter, policies, schema, rows1[..|rows1| - 1], rows2[..|rows1| - 1])
  {
  }

  lemma AlikeSnoc(
      w: World, filter: Option<Expr>, policies: map<string, Policy>, schema: Schema,
      a1: seq<Tuple>, t1: Tuple, a2: seq<Tuple>, t2: Tuple)
    requires AllAlike(w, filter, policies, schema, a1, a2)
    requires |t1| == |t2| == |schema| && Alike(w, filter, policies, schema, t1, t2)
    ensures AllAlike(w, filter, policies, schema, a1 + [t1], a2 + [t2]) && AllAlike(w, filter, policies, schema, a1 + [], a2 + [])
  {
    assert a1 + [] == a1 && a2 + [] == a2;
  }

  lemma FilterHidesLast(
      w: World, filter: Option<Expr>, policies: map<string, Policy>, schema: Schema,
      a1: seq<Tuple>, t1: Tuple, a2: seq<Tuple>, t2: Tuple)
    requires (forall t | t in a1 :: |t| == |schema|) && (forall t | t in a2 :: |t| == |schema|)
    requires |t1| == |t2| == |schema| && Alike(w, filter, policies, schema, t1, t2)
    requires AllAlike(w, filter, policies, schema, FilterTuples(w, filter, schema, a1), FilterTuples(w, filter, schema, a2))
    ensures AllAlike(w, filter, policies, schema, FilterTuples(w, filter, schema, a1 + [t1]), FilterTuples(w, filter, schema, a2 + [t2]))
  {
    FilterSnoc(w, filter, schema, a1, t1);
    FilterSnoc(w, filter, schema, a2, t2);
    AlikeSnoc(w, filter, policies, schema, FilterTuples(w, filter, schema, a1), t1, FilterTuples(w, filter, schema, a2), t2);
  }

  lemma LastApart(schema: Schema, rows: seq<Tuple>)
    requires rows != [] && forall t | t in rows :: |t| == |schema|
    ensures rows == rows[..|rows| - 1] + [rows[|rows| - 1]] && forall t | t in rows[..|rows| - 1] :: |t| == |schema|
  {
  }

  /** Rows that are alike stay so when both tables are filtered: the filter keeps both or neither. */
  lemma {:induction false} FilterHides(
      w: World, filter: Option<Expr>, policies: map<string, Policy>, schema: Schema,
      rows1: seq<Tuple>, rows2: seq<Tuple>)
    requires (forall t | t in rows1 :: |t| == |schema|) && (forall t | t in rows2 :: |t| == |schema|)
    requires AllAlike(w, filter, policies, schema, rows1, rows2)
    ensures AllAlike(w, filter, policies, schema, FilterTuples(w, filter, schema, rows1), FilterTuples(w, filter, schema, rows2))
    decreases |rows1|
  {
    if rows1 != [] {
      var n := |rows1| - 1;
      LastApart(schema, rows1);
      LastApart(schema, rows2);
      AlikeFront(w, filter, policies, schema, rows1, rows2);
      FilterHides(w, filter, policies, schema, rows1[..n], rows2[..n]);
      FilterHidesLast(w, filter, policies, schema, rows1[..n], rows1[n], rows2[..n], rows2[n]);
    }
  }

  lemma PresentHides(
      w: World, filter: Option<Expr>, policies: map<string, Policy>,
      projection: Option<seq<nat>>, schema: Schema, rows1: seq<Tuple>, rows2: seq<Tuple>)
    requires InRange(projection, schema) && (rows1 == [] || AllSupported(w.oracles, policies, schema))
    requires (forall t | t in rows1 :: |t| == |schema|) && (forall t | t in rows2 :: |t| == |schema|)
    requires AllAlike(w, filter, policies, schema, rows1, rows2)
    ensures Present(w, policies, projection, schema, rows1) == Present(w, policies, projection, schema, rows2)
  {
    forall i | 0 <= i < |rows1|
      ensures MaskTuple(w, policies, schema, rows1[i]) == MaskTuple(w, policies, schema, rows2[i])
    {
      TupleHides(w, policies, schema, rows1[i], rows2[i]);
    }
  }

  lemma GovernedHides(
      w: World, filter: Option<Expr>, policies: map<string, Policy>,
      projection: Option<seq<nat>>, schema: Schema, rows1: seq<Tuple>, rows2: seq<Tuple>)
    requires InRange(projection, schema) && (rows1 == [] || AllSupported(w.oracles, policies, schema))
    requires (forall t | t in rows1 :: |t| == |schema|) && (forall t | t in rows2 :: |t| == |schema|)
    requires AllAlike(w, filter, policies, schema, rows1, rows2)
    ensures Governed(w, filter, policies, projection, schema, rows1) == Governed(w, filter, policies, projection, schema, rows2)
  {
    FilterHides(w, filter, policies, schema, rows1, rows2);
    PresentHides(w, filter, policies, projection, schema, FilterTuples(w, filter, schema, rows1), FilterTuples(w, filter, schema, rows2));
  }

  /**
   Two tables whose rows agree on the unmasked columns, on the row filter's verdicts and, for
   each masked column, only on what its policy shows, give identical governed output.
   */
  lemma GovernedOutputHidesMaskedData(
      w: World, c: Contract, schema: Schema, table1: seq<Batch>, table2: seq<Batch>,
      projection: Option<seq<nat>>, limit: Option<nat>)
    requires IsTable(schema, table1) && IsTable(schema, table2) && InRange(projection, schema)
    requires Scan(w, c, schema, table1, projection, limit).Ok? && Scan(w, c, schema, table2, projection, limit).Ok?
    requires CompileFilter(w, c.rowFilter, schema).Ok?
    requires AllAlike(w, CompileFilter(w, c.rowFilter, schema).value, ParsePolicies(c.maskTexts).value, schema,
                      AllRows(table1), AllRows(table2))
    ensures (forall b | b in Scan(w, c, schema, table1, projection, limit).value :: ValidBatch(b))
    ensures (forall b | b in Scan(w, c, schema, table2, projection, limit).value :: ValidBatch(b))
    ensures AllRows(Scan(w, c, schema, table1, projection, limit).value) ==
            AllRows(Scan(w, c, schema, table2, projection, limit).value)
  {
    ScanIsGoverned(w, c, schema, table1, projection, limit);
    ScanIsGoverned(w, c, schema, table2, projection, limit);
    ScanSucceedsIff(w, c, schema, table1, projection, limit);
    ScanSucceedsIff(w, c, schema, table2, projection, limit);
    GovernedHides(w, CompileFilter(w, c.rowFilter, schema).value, ParsePolicies(c.maskTexts).value, projection, schema,
                  AllRows(table1), AllRows(table2));
  }

  // ---- what a compiled filter is ----

  lemma {:induction false} NamedFits(schema: Schema, t: Tuple, name: string)
    requires |t| == |schema| && DistinctNames(schema) && forall j :: 0 <= j < |t| ==> Fits(t[j], schema[j].dataType)
    ensures name in Named(schema, t) <==> ColumnType(schema, name).Some?
    ensures name in Named(schema, t) ==> HasType(Named(schema, t)[name], ColumnType(schema, name).value)
  {
    if schema != [] && schema[0].name != name {
      NamedFits(schema[1..], t[1..], name);
    }
  }

  /** On every row of a batch on which it runs, a filter is true, false or unknown, never anything else. */
  lemma RunningFilterIsTruth(w: World, text: Option<string>, b: Batch, i: nat)
    requires ValidBatch(b) && i < b.numRows && CompileFilter(w, text, b.schema).Ok? && CompileFilter(w, text, b.schema).value.Some?
    requires FilterRuns(w, CompileFilter(w, text, b.schema).value, b)
    ensures |RowsOf(b)[i]| == |b.schema|
    ensures var v := Eval(w.engine, CompileFilter(w, text, b.schema).value.value, Named(b.schema, RowsOf(b)[i]));
            v.Null? || v.Bool?
  {
    var t, e := RowsOf(b)[i], CompileFilter(w, text, b.schema).value.value;
    forall j | 0 <= j < |t| ensures Fits(t[j], b.schema[j].dataType) {
      assert ColumnMatches(b.schema[j], b.columns[j], b.numRows) && ValidArray(b.columns[j]);
    }
    forall name ensures name in Named(b.schema, t) && ColumnType(b.schema, name).Some? ==>
                          HasType(Named(b.schema, t)[name], ColumnType(b.schema, name).value)
    {
      NamedFits(b.schema, t, name);
    }
    RunEvaluates(w.kernels, w.engine, b.schema, e, NamedRows(b), Named(b.schema, t));
  }

  /** A filter that is a bare column compiles and runs exactly if that is a boolean column. */
  lemma BareColumnFilter(w: World, text: string, name: string, b: Batch)
    requires ValidBatch(b) && text != "" && w.parse(text) == Some(Identifier(name))
    ensures CompileFilter(w, Some(text), b.schema).Ok? && FilterRuns(w, CompileFilter(w, Some(text), b.schema).value, b) <==>
              && DistinctNames(b.schema)
              && exists j :: 0 <= j < |b.schema| && b.schema[j].name == name && b.schema[j].dataType == DataType.Boolean
  {
    var schema := b.schema;
    ColumnTypeFound(schema, name);
    if DistinctNames(schema) && ColumnType(schema, name).Some? {
      var j :| 0 <= j < |schema| && schema[j].name == name;
      ColumnTypeAt(schema, j);
      forall k | 0 <= k < |schema| && schema[k].name == name ensures k == j {
      }
    }
  }
}
