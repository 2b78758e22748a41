/**
 Column masking, src/physical/masking_exec.rs. The mask values are the ones the code writes:
 three asterisks, the empty string, zero, false. Hashing and the Arrow cast to string are
 parameters, `Oracles`.
 */
module Masking {
  import opened Prelude
  import opened Predicates
  import opened Arrow

  datatype Policy = Redact | HashSha256 | Partial | NullPolicy | Noop | Tokenize

  /** `render` is the canonical string form of a non-null value of a castable type. */
  datatype Oracles = Oracles(sha256Hex: string -> string, castable: DataType -> bool, render: Value -> string)

  // ---- the policy map ----

  function ParsePolicy(text: string): Option<Policy> {
    if text == "redact" then Some(Redact)
    else if text == "hash_sha256" then Some(HashSha256)
    else if text == "tokenize" then Some(Tokenize)
    else if text == "noop" then Some(Noop)
    else if text == "partial" then Some(Partial)
    else if text == "null" then Some(NullPolicy)
    else None
  }

  /** `parse_masking_bundle`: one unknown policy string fails the whole map. */
  function ParsePolicies(texts: map<string, string>): Option<map<string, Policy>> {
    if forall c | c in texts :: ParsePolicy(texts[c]).Some?
    then Some(map c | c in texts :: ParsePolicy(texts[c]).value)
    else None
  }

  function PolicyFor(policies: map<string, Policy>, column: string): Policy {
    if column in policies then policies[column] else Noop
  }

  // ---- types ----

  predicate IsString(t: DataType) {
    t.Utf8? || t.LargeUtf8?
  }

  predicate StringProducing(p: Policy) {
    p.HashSha256? || p.Tokenize? || p.Partial?
  }

  function MaskedFieldType(t: DataType, p: Policy): DataType {
    if p.Noop? then t
    else if IsString(t) then Utf8
    else if StringProducing(p) then Utf8
    else t
  }

  function MaskedField(f: Field, policies: map<string, Policy>): Field {
    var p := PolicyFor(policies, f.name);
    if p.Noop? || MaskedFieldType(f.dataType, p) == f.dataType then f
    else Field(f.name, MaskedFieldType(f.dataType, p), f.nullable)
  }

  /** `masked_output_schema` */
  function MaskedSchema(schema: Schema, policies: map<string, Policy>): (out: Schema)
    ensures |out| == |schema|
  {
    seq(|schema|, i requires 0 <= i < |schema| => MaskedField(schema[i], policies))
  }

  // ---- one value ----

  function LastFour(s: string): string {
    if |s| <= 4 then s else s[|s| - 4..]
  }

  /** `mask_string_value` */
  function MaskString(o: Oracles, s: string, p: Policy): string {
    match p
    case Redact => "***"
    case HashSha256 => o.sha256Hex(s)
    case Tokenize => o.sha256Hex(s)
    case Partial => "***" + LastFour(s)
    case NullPolicy => ""
    case Noop => s
  }

  function TextOf(o: Oracles, v: Value): string {
    if v.Str? then v.s else o.render(v)
  }

  /** What masking does to one value of a column of type `t`; nulls stay null. */
  function MaskValue(o: Oracles, t: DataType, p: Policy, v: Value): Value {
    if v.Null? || p.Noop? then v
    else if IsString(t) || StringProducing(p) then Str(MaskString(o, TextOf(o, v), p))
    else
      match t
      case Int64 => Int(0)
      case Float64 => Float(0.0)
      case Boolean => Bool(false)
      case _ => v
  }

  /** The combinations that do not end in `MaskTypeUnsupported`. */
  predicate Supported(o: Oracles, t: DataType, p: Policy) {
    || p.Noop? || IsString(t)
    || (if StringProducing(p) then o.castable(t) else t.Int64? || t.Float64? || t.Boolean?)
  }

  function MaskValues(o: Oracles, t: DataType, p: Policy, values: seq<Value>): (out: seq<Value>)
    ensures |out| == |values|
    ensures forall i :: 0 <= i < |values| ==> out[i] == MaskValue(o, t, p, values[i])
  {
    if values == [] then [] else [MaskValue(o, t, p, values[0])] + MaskValues(o, t, p, values[1..])
  }

  /** A column as masking leaves it, or None for the unsupported-type error. */
  function MaskColumn(o: Oracles, a: Array, p: Policy): Option<Array> {
    if Supported(o, a.dataType, p)
    then Some(Array(MaskedFieldType(a.dataType, p), MaskValues(o, a.dataType, p, a.values)))
    else None
  }

  // ---- the code, arm by arm ----

  /** The string arms and the cast path: mask every non-null text. */
  method MaskTexts(o: Oracles, values: seq<Value>, p: Policy) returns (out: seq<Value>)
    ensures |out| == |values|
    ensures forall i :: 0 <= i < |values| ==>
              out[i] == if values[i].Null? then Null else Str(MaskString(o, TextOf(o, values[i]), p))
  {
    out := [];
    for i := 0 to |values|
      invariant |out| == i
      invariant forall j :: 0 <= j < i ==>
                  out[j] == if values[j].Null? then Null else Str(MaskString(o, TextOf(o, values[j]), p))
    {
      if values[i].Null? {
        out := out + [Null];
      } else {
        out := out + [Str(MaskString(o, TextOf(o, values[i]), p))];
      }
    }
  }

  /** The numeric and boolean arms: fill a builder with one constant, keeping nulls. */
  method FillConstant(values: seq<Value>, constant: Value) returns (out: seq<Value>)
    ensures |out| == |values|
    ensures forall i :: 0 <= i < |values| ==> out[i] == if values[i].Null? then Null else constant
  {
    out := [];
    for i := 0 to |values|
      invariant |out| == i
      invariant forall j :: 0 <= j < i ==> out[j] == if values[j].Null? then Null else constant
    {
      if values[i].Null? {
        out := out + [Null];
      } else {
        out := out + [constant];
      }
    }
  }

  /** `apply_mask_to_column` */
  method ApplyMaskToColumn(o: Oracles, a: Array, p: Policy) returns (masked: Option<Array>)
    ensures masked == MaskColumn(o, a, p)
  {
    if p.Noop? {
      assert MaskValues(o, a.dataType, p, a.values) == a.values;
      return Some(a);
    }
    if StringProducing(p) && !IsString(a.dataType) {
      if !o.castable(a.dataType) {
        return None;
      }
      var texts := MaskTexts(o, a.values, p);
      assert texts == MaskValues(o, a.dataType, p, a.values);
      return Some(Array(Utf8, texts));
    }
    if IsString(a.dataType) {
      var texts := MaskTexts(o, a.values, p);
      assert texts == MaskValues(o, a.dataType, p, a.values);
      return Some(Array(Utf8, texts));
    }
    if !(a.dataType.Int64? || a.dataType.Float64? || a.dataType.Boolean?) {
      return None;
    }
    var zero := if a.dataType.Int64? then Int(0) else if a.dataType.Float64? then Float(0.0) else Bool(false);
    var zeros := FillConstant(a.values, zero);
    assert zeros == MaskValues(o, a.dataType, p, a.values);
    return Some(Array(a.dataType, zeros));
  }

  // ---- a batch ----

  predicate AllSupported(o: Oracles, policies: map<string, Policy>, schema: Schema) {
    forall i :: 0 <= i < |schema| ==> Supported(o, schema[i].dataType, PolicyFor(policies, schema[i].name))
  }

  function MaskedColumns(o: Oracles, policies: map<string, Policy>, b: Batch): (out: seq<Array>)
    requires |b.columns| == |b.schema|
    ensures |out| == |b.columns|
  {
    seq(|b.columns|, i requires 0 <= i < |b.columns| =>
      var p := PolicyFor(policies, b.schema[i].name);
      Array(MaskedFieldType(b.columns[i].dataType, p), MaskValues(o, b.columns[i].dataType, p, b.columns[i].values)))
  }

  /** `apply_masking_to_batch` under the operator's own output schema. */
  function MaskBatch(o: Oracles, policies: map<string, Policy>, b: Batch): Option<Batch>
    requires ColumnsMatch(b.schema, b.columns, b.numRows)
  {
    if AllSupported(o, policies, b.schema)
    then TryNew(MaskedSchema(b.schema, policies), MaskedColumns(o, policies, b))
    else None
  }

  method ApplyMaskingToBatch(o: Oracles, policies: map<string, Policy>, b: Batch) returns (out: Option<Batch>)
    requires ColumnsMatch(b.schema, b.columns, b.numRows)
    ensures out == MaskBatch(o, policies, b)
  {
    var columns: seq<Array> := [];
    var i := 0;
    while i < |b.schema|
      invariant 0 <= i <= |b.schema|
      invariant columns == MaskedColumns(o, policies, b)[..i]
      invariant forall j :: 0 <= j < i ==> Supported(o, b.schema[j].dataType, PolicyFor(policies, b.schema[j].name))
    {
      var name := b.schema[i].name;
      assert b.columns[i].dataType == b.schema[i].dataType;
      if name in policies && policies[name] != Noop {
        var masked := ApplyMaskToColumn(o, b.columns[i], policies[name]);
        if masked.None? {
          return None;
        }
        columns := columns + [masked.value];
      } else {
        assert MaskValues(o, b.columns[i].dataType, Noop, b.columns[i].values) == b.columns[i].values;
        columns := columns + [b.columns[i]];
      }
      i := i + 1;
    }
    assert columns == MaskedColumns(o, policies, b);
    return TryNew(MaskedSchema(b.schema, policies), columns);
  }

  // ---- results ----

  lemma MaskedColumnMatches(o: Oracles, policies: map<string, Policy>, b: Batch, i: nat)
    requires ValidBatch(b) && i < |b.schema|
    requires Supported(o, b.schema[i].dataType, PolicyFor(policies, b.schema[i].name))
    ensures var a := MaskedColumns(o, policies, b)[i];
            && ColumnMatches(MaskedSchema(b.schema, policies)[i], a, b.numRows) && ValidArray(a)
            && forall r :: 0 <= r < b.numRows ==> (a.values[r].Null? <==> b.columns[i].values[r].Null?)
  {
  }

  /**
   Masking a batch succeeds exactly when every masked column's type supports its policy (and
   there is a column at all); then the batch has the published schema, the same rows and the
   same null positions.
   */
  lemma MaskingMatchesSchema(o: Oracles, policies: map<string, Policy>, b: Batch)
    requires ValidBatch(b)
    ensures MaskBatch(o, policies, b).Some? <==> AllSupported(o, policies, b.schema) && |b.schema| > 0
    ensures MaskBatch(o, policies, b).Some? ==>
              var out := MaskBatch(o, policies, b).value;
              && ValidBatch(out) && out.schema == MaskedSchema(b.schema, policies) && out.numRows == b.numRows
              && out.columns == MaskedColumns(o, policies, b)
    ensures MaskBatch(o, policies, b).Some? ==>
              forall i, r :: 0 <= i < |b.columns| && 0 <= r < b.numRows ==>
                (MaskBatch(o, policies, b).value.columns[i].values[r].Null? <==> b.columns[i].values[r].Null?)
  {
    if AllSupported(o, policies, b.schema) {
      forall i | 0 <= i < |b.schema|
        ensures var a := MaskedColumns(o, policies, b)[i];
                && ColumnMatches(MaskedSchema(b.schema, policies)[i], a, b.numRows) && ValidArray(a)
                && forall r :: 0 <= r < b.numRows ==> (a.values[r].Null? <==> b.columns[i].values[r].Null?)
      {
        MaskedColumnMatches(o, policies, b, i);
      }
    }
  }

  /** Parsing fails exactly when some policy string is unknown; no typo becomes "unmasked". */
  lemma UnknownPolicyFails(texts: map<string, string>)
    ensures ParsePolicies(texts).None? <==>
              exists c :: c in texts && texts[c] !in {"redact", "hash_sha256", "tokenize", "noop", "partial", "null"}
    ensures ParsePolicies(texts).Some? ==>
              forall c :: c in texts ==>
                c in ParsePolicies(texts).value && (ParsePolicies(texts).value[c] == Noop <==> texts[c] == "noop")
  {
    if ParsePolicies(texts).None? {
      var c :| c in texts && ParsePolicy(texts[c]).None?;
      assert texts[c] !in {"redact", "hash_sha256", "tokenize", "noop", "partial", "null"};
    }
  }
}
