/**
 What a contract's masks let out of a table, from the texts of its policies to the rows of a scan:
 src/contract_table_provider.rs over src/physical/masking_exec.rs.
 */
module MaskedOutput {
  import opened Prelude
  import opened Predicates
  import opened Arrow
  import opened Masking
  import opened GovernedScan

  /** The policy text of a column, if it has one. */
  function TextFor(texts: map<string, string>, column: string): Option<string> {
    if column in texts then Some(texts[column]) else None
  }

  predicate Unmasked(text: Option<string>) {
    text == None || text == Some("noop")
  }

  /** The text of a value: itself for a string, and its canonical form otherwise. */
  function Plain(o: Oracles, v: Value): string {
    if v.Str? then v.s else o.render(v)
  }

  /** What stands in the output for a value of a column of type `t` under a policy text. */
  function Written(o: Oracles, t: DataType, text: Option<string>, v: Value): Value {
    if v.Null? || Unmasked(text) then v
    else if text == Some("hash_sha256") || text == Some("tokenize") then Str(o.sha256Hex(Plain(o, v)))
    else if text == Some("partial") then Str("***" + LastFour(Plain(o, v)))
    else if t == Utf8 || t == LargeUtf8 then Str(if text == Some("redact") then "***" else "")
    else if t == Int64 then Int(0)
    else if t == Float64 then Float(0.0)
    else Bool(false)
  }

  // ---- one value ----

  /** The policies that a column's type allows, in the words of the contract. */
  lemma SupportedIff(o: Oracles, texts: map<string, string>, t: DataType, column: string)
    requires ParsePolicies(texts).Some?
    ensures Supported(o, t, PolicyFor(ParsePolicies(texts).value, column)) <==>
              || Unmasked(TextFor(texts, column)) || t == Utf8 || t == LargeUtf8
              || (if TextFor(texts, column) in {Some("redact"), Some("null")} then t in {Int64, Float64, DataType.Boolean}
                  else o.castable(t))
  {
    UnknownPolicyFails(texts);
    if column in texts {
      KnownText(texts, column);
    }
  }

  lemma KnownText(texts: map<string, string>, column: string)
    requires ParsePolicies(texts).Some? && column in texts
    ensures texts[column] in {"redact", "hash_sha256", "tokenize", "noop", "partial", "null"}
    ensures ParsePolicy(texts[column]) == Some(ParsePolicies(texts).value[column])
  {
  }

  lemma WrittenByPolicy(o: Oracles, t: DataType, text: string, v: Value)
    requires ParsePolicy(text).Some? && Supported(o, t, ParsePolicy(text).value)
    ensures MaskValue(o, t, ParsePolicy(text).value, v) == Written(o, t, Some(text), v)
  {
  }

  lemma WrittenIs(o: Oracles, texts: map<string, string>, t: DataType, column: string, v: Value)
    requires ParsePolicies(texts).Some? && Supported(o, t, PolicyFor(ParsePolicies(texts).value, column))
    ensures MaskValue(o, t, PolicyFor(ParsePolicies(texts).value, column), v) == Written(o, t, TextFor(texts, column), v)
  {
    if column in texts {
      KnownText(texts, column);
      WrittenByPolicy(o, t, texts[column], v);
    }
  }

  /** The last four characters of two texts are the same. */
  predicate SameEnd(a: string, b: string) {
    var n := if |a| <= 4 then |a| else 4;
    n == (if |b| <= 4 then |b| else 4) && forall k :: |a| - n <= k < |a| ==> a[k] == b[|b| - |a| + k]
  }

  /** What a policy text shows of a value is the same for both. */
  predicate ShownAlike(o: Oracles, text: Option<string>, v1: Value, v2: Value) {
    if Unmasked(text) then v1 == v2
    else
      && (v1.Null? <==> v2.Null?)
      && (text == Some("partial") && !v1.Null? ==> SameEnd(Plain(o, v1), Plain(o, v2)))
      && (text in {Some("hash_sha256"), Some("tokenize")} && !v1.Null? ==>
            o.sha256Hex(Plain(o, v1)) == o.sha256Hex(Plain(o, v2)))
  }

  lemma EndsAlike(a: string, b: string)
    ensures SameEnd(a, b) <==> LastFour(a) == LastFour(b)
  {
    var x, y := LastFour(a), LastFour(b);
    if x == y {
      forall k | |a| - |x| <= k < |a| ensures a[k] == b[|b| - |a| + k] {
        assert x[k - (|a| - |x|)] == y[k - (|a| - |x|)];
      }
    }
    if SameEnd(a, b) {
      forall k | 0 <= k < |x| ensures x[k] == y[k] {
        assert a[|a| - |x| + k] == b[|b| - |a| + (|a| - |x| + k)];
      }
    }
  }

  lemma PartialAlike(a: string, b: string)
    ensures Str("***" + LastFour(a)) == Str("***" + LastFour(b)) <==> SameEnd(a, b)
  {
    EndsAlike(a, b);
    assert ("***" + LastFour(a))[3..] == LastFour(a) && ("***" + LastFour(b))[3..] == LastFour(b);
  }

  predicate Known(text: Option<string>) {
    text.Some? ==> text.value in {"redact", "hash_sha256", "tokenize", "noop", "partial", "null"}
  }

  lemma NullsApart(o: Oracles, t: DataType, text: Option<string>, v: Value)
    ensures Written(o, t, text, v).Null? <==> v.Null?
  {
  }

  /** Two values come out alike exactly if what the policy text shows of them is the same. */
  lemma WrittenAlikeIff(o: Oracles, t: DataType, text: Option<string>, v1: Value, v2: Value)
    requires Known(text)
    ensures Written(o, t, text, v1) == Written(o, t, text, v2) <==> ShownAlike(o, text, v1, v2)
  {
    NullsApart(o, t, text, v1);
    NullsApart(o, t, text, v2);
    if !v1.Null? && !v2.Null? && text == Some("partial") {
      PartialAlike(Plain(o, v1), Plain(o, v2));
    }
  }

  // ---- a whole scan ----

  predicate Shown(projection: Option<seq<nat>>, j: nat) {
    projection.None? || j in projection.value
  }

  /** What a contract's mask texts show of two rows is the same in every column that is asked for. */
  ghost predicate RowsAlike(
      w: World, texts: map<string, string>, projection: Option<seq<nat>>, schema: Schema, t1: Tuple, t2: Tuple)
    requires |t1| == |t2| == |schema|
  {
    forall j: nat :: j < |schema| && Shown(projection, j) ==>
      ShownAlike(w.oracles, TextFor(texts, schema[j].name), t1[j], t2[j])
  }

  /** The masks' policies all apply to the schema's types. */
  ghost predicate MasksApply(w: World, texts: map<string, string>, schema: Schema) {
    ParsePolicies(texts).Some? && AllSupported(w.oracles, ParsePolicies(texts).value, schema)
  }

  lemma ValueAlikeIff(w: World, texts: map<string, string>, schema: Schema, j: nat, v1: Value, v2: Value)
    requires MasksApply(w, texts, schema) && j < |schema|
    ensures var p := PolicyFor(ParsePolicies(texts).value, schema[j].name);
            MaskValue(w.oracles, schema[j].dataType, p, v1) == MaskValue(w.oracles, schema[j].dataType, p, v2) <==>
            ShownAlike(w.oracles, TextFor(texts, schema[j].name), v1, v2)
  {
    var column := schema[j].name;
    assert Supported(w.oracles, schema[j].dataType, PolicyFor(ParsePolicies(texts).value, column));
    WrittenIs(w.oracles, texts, schema[j].dataType, column, v1);
    WrittenIs(w.oracles, texts, schema[j].dataType, column, v2);
    if column in texts {
      KnownText(texts, column);
    }
    WrittenAlikeIff(w.oracles, schema[j].dataType, TextFor(texts, column), v1, v2);
  }

  lemma PresentedAt(
      w: World, texts: map<string, string>, projection: Option<seq<nat>>, schema: Schema, t: Tuple, k: nat)
    requires MasksApply(w, texts, schema) && InRange(projection, schema) && |t| == |schema|
    requires k < if projection.None? then |schema| else |projection.value|
    ensures var out, j := PresentRow(w, ParsePolicies(texts).value, projection, schema, t), if projection.None? then k else projection.value[k];
            && |out| == (if projection.None? then |schema| else |projection.value|)
            && out[k] == MaskValue(w.oracles, schema[j].dataType, PolicyFor(ParsePolicies(texts).value, schema[j].name), t[j])
            && out[k] == Written(w.oracles, schema[j].dataType, TextFor(texts, schema[j].name), t[j])
  {
    var j := if projection.None? then k else projection.value[k];
    assert Supported(w.oracles, schema[j].dataType, PolicyFor(ParsePolicies(texts).value, schema[j].name));
    WrittenIs(w.oracles, texts, schema[j].dataType, schema[j].name, t[j]);
  }

  lemma RowAlikeIff(
      w: World, texts: map<string, string>, projection: Option<seq<nat>>, schema: Schema, t1: Tuple, t2: Tuple)
    requires MasksApply(w, texts, schema) && InRange(projection, schema) && |t1| == |t2| == |schema|
    ensures PresentRow(w, ParsePolicies(texts).value, projection, schema, t1) ==
            PresentRow(w, ParsePolicies(texts).value, projection, schema, t2) <==>
            RowsAlike(w, texts, projection, schema, t1, t2)
  {
    var policies := ParsePolicies(texts).value;
    var a, b := PresentRow(w, policies, projection, schema, t1), PresentRow(w, policies, projection, schema, t2);
    if a == b {
      forall j: nat | j < |schema| && Shown(projection, j)
        ensures ShownAlike(w.oracles, TextFor(texts, schema[j].name), t1[j], t2[j])
      {
        var k := Place(projection, j);
        PresentedAt(w, texts, projection, schema, t1, k);
        PresentedAt(w, texts, projection, schema, t2, k);
        ValueAlikeIff(w, texts, schema, j, t1[j], t2[j]);
      }
    }
    if RowsAlike(w, texts, projection, schema, t1, t2) {
      forall k: nat | k < |a| ensures a[k] == b[k] {
        var j := if projection.None? then k else projection.value[k];
        PresentedAt(w, texts, projection, schema, t1, k);
        PresentedAt(w, texts, projection, schema, t2, k);
        ValueAlikeIff(w, texts, schema, j, t1[j], t2[j]);
      }
    }
  }

  /** Where a shown column stands in the output. */
  lemma Place(projection: Option<seq<nat>>, j: nat) returns (k: nat)
    requires Shown(projection, j)
    ensures projection.None? ==> k == j
    ensures projection.Some? ==> k < |projection.value| && projection.value[k] == j
  {
    if projection.None? {
      k := j;
    } else {
      k :| 0 <= k < |projection.value| && projection.value[k] == j;
    }
  }

  /** The rows that the contract's filter keeps of a table, up to the limit: those behind the output's rows. */
  ghost function Behind(w: World, c: Contract, schema: Schema, table: seq<Batch>, limit: Option<nat>): (rows: seq<Tuple>)
    requires IsTable(schema, table) && CompileFilter(w, c.rowFilter, schema).Ok?
    ensures forall t | t in rows :: |t| == |schema|
  {
    TableWidths(schema, table);
    var kept := FilterTuples(w, CompileFilter(w, c.rowFilter, schema).value, schema, AllRows(table));
    if limit.None? || |kept| <= limit.value then kept else kept[..limit.value]
  }

  /** Without a limit these are the rows of which the filter's SQL text is TRUE, and all rows without a filter. */
  lemma BehindIsSqlTruth(w: World, c: Contract, schema: Schema, table: seq<Batch>, t: Tuple)
    requires IsTable(schema, table) && CompileFilter(w, c.rowFilter, schema).Ok?
    ensures c.rowFilter in {None, Some("")} ==> (t in Behind(w, c, schema, table, None) <==> t in AllRows(table))
    ensures c.rowFilter !in {None, Some("")} ==> w.parse(c.rowFilter.value).Some?
    ensures c.rowFilter !in {None, Some("")} && ParserTree(w.parse(c.rowFilter.value).value) ==>
              (t in Behind(w, c, schema, table, None) <==>
                 && t in AllRows(table) && |t| == |schema|
                 && ToTruth(SqlEval(w.engine, w.parse(c.rowFilter.value).value, Named(schema, t))) == True)
  {
    TableWidths(schema, table);
    KeptMembers(w, CompileFilter(w, c.rowFilter, schema).value, schema, AllRows(table), t);
    if c.rowFilter !in {None, Some("")} && t in AllRows(table) && ParserTree(w.parse(c.rowFilter.value).value) {
      BothKeepTheSameRows(w.engine, w.parse(c.rowFilter.value).value, Named(schema, t));
    }
  }

  lemma {:induction false} KeptMembers(w: World, filter: Option<Expr>, schema: Schema, rows: seq<Tuple>, t: Tuple)
    requires forall u | u in rows :: |u| == |schema|
    ensures t in FilterTuples(w, filter, schema, rows) <==> t in rows && |t| == |schema| && KeepsTuple(w, filter, schema, t)
  {
    if rows != [] {
      var n := |rows| - 1;
      KeptMembers(w, filter, schema, rows[..n], t);
      assert rows == rows[..n] + [rows[n]];
    }
  }

  /** The output of a scan, row by row. */
  lemma ScanRows(
      w: World, c: Contract, schema: Schema, table: seq<Batch>, projection: Option<seq<nat>>, limit: Option<nat>)
    requires IsTable(schema, table) && InRange(projection, schema)
    requires Scan(w, c, schema, table, projection, limit).Ok? && CompileFilter(w, c.rowFilter, schema).Ok?
    ensures ParsePolicies(c.maskTexts).Some? && (forall b | b in Scan(w, c, schema, table, projection, limit).value :: ValidBatch(b))
    ensures var out, rows := AllRows(Scan(w, c, schema, table, projection, limit).value), Behind(w, c, schema, table, limit);
            && |out| == |rows|
            && forall i :: 0 <= i < |rows| ==>
                 rows[i] in rows && out[i] == PresentRow(w, ParsePolicies(c.maskTexts).value, projection, schema, rows[i])
  {
    ScanSucceedsIff(w, c, schema, table, projection, limit);
    ScanIsGoverned(w, c, schema, table, projection, limit);
  }

  /** A table with a row has batches, so its masks apply. */
  lemma RowsMeanMasksApply(
      w: World, c: Contract, schema: Schema, table: seq<Batch>, projection: Option<seq<nat>>, limit: Option<nat>)
    requires IsTable(schema, table) && InRange(projection, schema)
    requires Scan(w, c, schema, table, projection, limit).Ok? && CompileFilter(w, c.rowFilter, schema).Ok?
    requires Behind(w, c, schema, table, limit) != []
    ensures MasksApply(w, c.maskTexts, schema)
  {
    ScanSucceedsIff(w, c, schema, table, projection, limit);
    assert table != [];
  }

  /**
   What a contract's masks write: value by value, the output of a scan holds what the policy text of
   the column says, for the rows that the filter keeps.
   */
  lemma ScanWrites(
      w: World, c: Contract, schema: Schema, table: seq<Batch>, projection: Option<seq<nat>>, limit: Option<nat>,
      i: nat, k: nat)
    requires IsTable(schema, table) && InRange(projection, schema)
    requires Scan(w, c, schema, table, projection, limit).Ok? && CompileFilter(w, c.rowFilter, schema).Ok?
    requires i < |Behind(w, c, schema, table, limit)|
    requires k < if projection.None? then |schema| else |projection.value|
    ensures forall b | b in Scan(w, c, schema, table, projection, limit).value :: ValidBatch(b)
    ensures var out, row := AllRows(Scan(w, c, schema, table, projection, limit).value), Behind(w, c, schema, table, limit)[i];
            var j := if projection.None? then k else projection.value[k];
            && |out| == |Behind(w, c, schema, table, limit)| && |row| == |schema|
            && |out[i]| == (if projection.None? then |schema| else |projection.value|)
            && out[i][k] == Written(w.oracles, schema[j].dataType, TextFor(c.maskTexts, schema[j].name), row[j])
  {
    ScanRows(w, c, schema, table, projection, limit);
    RowsMeanMasksApply(w, c, schema, table, projection, limit);
    assert Behind(w, c, schema, table, limit)[i] in Behind(w, c, schema, table, limit);
    PresentedAt(w, c.maskTexts, projection, schema, Behind(w, c, schema, table, limit)[i], k);
  }

  /**
   Exactly what a scan reveals: two tables give identical output if and only if as many rows stand
   behind it, and row by row, in every column that is asked for, the mask texts show the same of
   their values: all of it without a mask, the last four characters for "partial", the digest for
   "hash_sha256" and "tokenize", and only whether there is a value for "redact" and "null".
   */
  lemma ScanRevealsIff(
      w: World, c: Contract, schema: Schema, table1: seq<Batch>, table2: seq<Batch>,
      projection: Option<seq<nat>>, limit: Option<nat>)
    requires IsTable(schema, table1) && IsTable(schema, table2) && InRange(projection, schema)
    requires Scan(w, c, schema, table1, projection, limit).Ok? && Scan(w, c, schema, table2, projection, limit).Ok?
    requires CompileFilter(w, c.rowFilter, schema).Ok?
    ensures forall b | b in Scan(w, c, schema, table1, projection, limit).value :: ValidBatch(b)
    ensures forall b | b in Scan(w, c, schema, table2, projection, limit).value :: ValidBatch(b)
    ensures var rows1, rows2 := Behind(w, c, schema, table1, limit), Behind(w, c, schema, table2, limit);
            AllRows(Scan(w, c, schema, table1, projection, limit).value) ==
            AllRows(Scan(w, c, schema, table2, projection, limit).value) <==>
            && |rows1| == |rows2|
            && forall i :: 0 <= i < |rows1| ==>
                 rows1[i] in rows1 && rows2[i] in rows2 && RowsAlike(w, c.maskTexts, projection, schema, rows1[i], rows2[i])
  {
    ScanRows(w, c, schema, table1, projection, limit);
    ScanRows(w, c, schema, table2, projection, limit);
    var rows1, rows2 := Behind(w, c, schema, table1, limit), Behind(w, c, schema, table2, limit);
    if |rows1| == |rows2| {
      forall i | 0 <= i < |rows1|
        ensures rows1[i] in rows1 && rows2[i] in rows2
        ensures PresentRow(w, ParsePolicies(c.maskTexts).value, projection, schema, rows1[i]) ==
                PresentRow(w, ParsePolicies(c.maskTexts).value, projection, schema, rows2[i]) <==>
                RowsAlike(w, c.maskTexts, projection, schema, rows1[i], rows2[i])
      {
        RowsMeanMasksApply(w, c, schema, table1, projection, limit);
        RowAlikeIff(w, c.maskTexts, projection, schema, rows1[i], rows2[i]);
      }
    }
  }
}
