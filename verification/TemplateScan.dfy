/**
 The text scanners that read masks and the row filter out of a SQL template,
 src/platform/bundle.rs. Texts are sequences of characters; every cut the code makes falls on a
 character boundary, so its byte offsets and these offsets cut alike.
 */
module TemplateScan {
  import opened Prelude
  import opened Texts

  datatype Action = HashSha256 | Redact | Tokenize

  /** The four functions the scanner knows, in the order it looks for them. */
  datatype MaskFunction = Sha256Hex | MaskHashSha256 | MaskRedact | MaskTokenize

  const FUNCTIONS: seq<MaskFunction> := [Sha256Hex, MaskHashSha256, MaskRedact, MaskTokenize]

  function Opening(f: MaskFunction): string {
    match f
    case Sha256Hex => "sha256_hex("
    case MaskHashSha256 => "mask_hash_sha256("
    case MaskRedact => "mask_redact("
    case MaskTokenize => "mask_tokenize("
  }

  function ActionOf(f: MaskFunction): Action {
    match f
    case Sha256Hex => HashSha256
    case MaskHashSha256 => HashSha256
    case MaskRedact => Redact
    case MaskTokenize => Tokenize
  }

  // ---- the scanners ----

  function ColumnIn(argument: string): string {
    TrimMatches(Trim(argument), '"')
  }

  function Insert(masks: map<string, Action>, column: string, action: Action): map<string, Action> {
    if column == "" then masks else masks[column := action]
  }

  datatype Call = Call(argument: string, rest: string)

  /** The next call that opens with `opening`: its argument, and the text behind it. */
  function NextCall(opening: string, text: string): (r: Option<Call>)
    ensures r.Some? ==> |r.value.rest| < |text|
  {
    match Find(text, opening)
    case None => None
    case Some(at) =>
      var after := text[at + |opening|..];
      match Find(after, ")")
      case None => None
      case Some(close) => Some(Call(after[..close], after[close + 1..]))
  }

  function ScanFor(
      opening: string, action: Action, text: string, masks: map<string, Action>): map<string, Action>
    decreases |text|
  {
    match NextCall(opening, text)
    case None => masks
    case Some(call) => ScanFor(opening, action, call.rest, Insert(masks, ColumnIn(call.argument), action))
  }

  function ScanForAll(fs: seq<MaskFunction>, text: string, masks: map<string, Action>): map<string, Action> {
    if fs == [] then masks else ScanForAll(fs[1..], text, ScanFor(Opening(fs[0]), ActionOf(fs[0]), text, masks))
  }

  /** `masks_from_sql` */
  method MasksFromSql(sql: string) returns (masks: map<string, Action>)
    ensures masks == ScanForAll(FUNCTIONS, sql, map[])
  {
    masks := map[];
    for k := 0 to |FUNCTIONS|
      invariant ScanForAll(FUNCTIONS[k..], sql, masks) == ScanForAll(FUNCTIONS, sql, map[])
    {
      var f := FUNCTIONS[k];
      assert FUNCTIONS[k..][0] == f && FUNCTIONS[k..][1..] == FUNCTIONS[k + 1..];
      masks := CollectCalls(Opening(f), ActionOf(f), sql, masks);
    }
  }

  /** The inner loop, over a slice that moves past each call. */
  method CollectCalls(
      opening: string, action: Action, sql: string, already: map<string, Action>)
    returns (masks: map<string, Action>)
    ensures masks == ScanFor(opening, action, sql, already)
  {
    masks := already;
    var rest := sql;
    var position := Find(rest, opening);
    while position.Some?
      invariant position == Find(rest, opening)
      invariant ScanFor(opening, action, rest, masks) == ScanFor(opening, action, sql, already)
      decreases |rest|
    {
      var after := rest[position.value + |opening|..];
      var close := Find(after, ")");
      if close.None? {
        return;
      }
      var column := ColumnIn(after[..close.value]);
      if column != "" {
        masks := masks[column := action];
      }
      rest := after[close.value + 1..];
      position := Find(rest, opening);
    }
  }

  const WHERE := " WHERE "

  /** The clause as a filter: none if it is blank or spells 1=1. */
  function FilterOf(clause: string): Option<string> {
    var trimmed := Trim(clause);
    if Squash(trimmed) == "" || Squash(trimmed) == "1=1" then None else Some(trimmed)
  }

  /** `row_filter_from_sql` */
  function RowFilterFromSql(sql: string): Option<string> {
    match Find(Upper(sql), WHERE)
    case None => None
    case Some(at) => FilterOf(sql[at + |WHERE|..])
  }

  // ---- templates ----

  /** A selected column: bare, or wrapped in a mask function and given its own name again. */
  datatype Item =
    | Bare(column: string)
    | Masked(column: string, via: MaskFunction, quoted: bool)

  predicate IsName(s: string) {
    s != "" && forall i :: 0 <= i < |s| ==> !IsWhitespace(s[i]) && s[i] != '(' && s[i] != ')' && s[i] != '"'
  }

  ghost predicate AreItems(items: seq<Item>) {
    forall i :: 0 <= i < |items| ==> IsName(items[i].column)
  }

  function Argument(item: Item): string
    requires item.Masked?
  {
    if item.quoted then "\"" + (item.column + "\"") else item.column
  }

  function CallText(item: Item): string
    requires item.Masked?
  {
    Opening(item.via) + (Argument(item) + ")")
  }

  function ItemText(item: Item): string {
    match item
    case Bare(column) => column
    case Masked(column, _, _) => CallText(item) + (" AS " + column)
  }

  function SelectList(items: seq<Item>): string {
    if items == [] then ""
    else if |items| == 1 then ItemText(items[0])
    else ItemText(items[0]) + (", " + SelectList(items[1..]))
  }

  function Template(items: seq<Item>, clause: string): string {
    "SELECT " + (SelectList(items) + FromWhere(clause))
  }

  function FromWhere(clause: string): string {
    " FROM" + (" {table}" + (WHERE + clause))
  }

  /** What the stencil means: for each function its columns, later functions over earlier ones. */
  function MasksBy(f: MaskFunction, items: seq<Item>): map<string, Action> {
    if items == [] then map[]
    else
      var rest := MasksBy(f, items[1..]);
      if items[0].Masked? && items[0].via == f then map[items[0].column := ActionOf(f)] + rest else rest
  }

  function MaskMap(items: seq<Item>): map<string, Action> {
    MasksBy(Sha256Hex, items) + MasksBy(MaskHashSha256, items) + MasksBy(MaskRedact, items) + MasksBy(MaskTokenize, items)
  }

  /** The rest of the list after its first item, down to the end of the template. */
  function Onward(items: seq<Item>, clause: string): (t: string)
    ensures t != "" && (t[0] == ' ' || t[0] == ',')
  {
    if items == [] then FromWhere(clause)
    else ", " + (ItemText(items[0]) + Onward(items[1..], clause))
  }

  lemma {:induction false} TemplateUnfolds(items: seq<Item>, clause: string)
    requires items != []
    ensures SelectList(items) + FromWhere(clause) == ItemText(items[0]) + Onward(items[1..], clause)
  {
    if |items| > 1 {
      TemplateUnfolds(items[1..], clause);
      var list := SelectList(items[1..]);
      Reassociate(ItemText(items[0]), ", " + list, FromWhere(clause));
      Reassociate(", ", list, FromWhere(clause));
    }
  }

  // ---- scanning for one function ----

  lemma OpeningShape(f: MaskFunction)
    ensures |Opening(f)| >= 2 && Opening(f)[|Opening(f)| - 1] == '('
    ensures forall i :: 0 <= i < |Opening(f)| - 1 ==> Opening(f)[i] != '('
    ensures forall i :: 0 <= i < |Opening(f)| ==> !IsWhitespace(Opening(f)[i]) && Opening(f)[i] != ',' && Opening(f)[i] != ')' && Opening(f)[i] != '"'
  {
  }

  lemma OpeningsDiffer(f: MaskFunction, g: MaskFunction)
    requires f != g
    ensures |Opening(f)| >= 2 && |Opening(g)| >= 2 && Opening(f)[|Opening(f)| - 2] != Opening(g)[|Opening(g)| - 2]
  {
  }

  predicate NoOpening(s: string) {
    forall i :: 0 <= i < |s| ==> s[i] != '('
  }

  predicate Breaks(c: char) {
    IsWhitespace(c) || c == ',' || c == ')' || c == '"'
  }

  /** No call starts in text without an opening parenthesis that a separator ends or follows. */
  lemma NoCallStarts(f: MaskFunction, a: string, s: string, i: nat)
    requires i < |a| && NoOpening(a) && (Breaks(a[|a| - 1]) || (s != "" && Breaks(s[0])))
    ensures !StartsAt(a + s, i, Opening(f))
  {
    OpeningShape(f);
    var p, t := Opening(f), a + s;
    if i + |p| <= |t| {
      var last := i + |p| - 1;
      assert t[i..i + |p|][|p| - 1] == t[last];
      if last >= |a| - 1 {
        assert t[i..i + |p|][|a| - 1 - i] == t[|a| - 1];
      }
      if last >= |a| {
        assert t[i..i + |p|][|a| - i] == t[|a|];
      }
    }
  }

  /** Nor inside the name of another mask function. */
  lemma NoOtherCallStarts(f: MaskFunction, g: MaskFunction, s: string, i: nat)
    requires f != g && i < |Opening(g)|
    ensures !StartsAt(Opening(g) + s, i, Opening(f))
  {
    OpeningShape(f);
    OpeningShape(g);
    OpeningsDiffer(f, g);
    Mismatch(Opening(f), Opening(g), s, i);
  }

  /** Two words that hold their last characters nowhere else, and differ before them. */
  lemma Mismatch(p: string, a: string, s: string, i: nat)
    requires |p| >= 2 && |a| >= 2 && i < |a| && p[|p| - 1] == a[|a| - 1] && p[|p| - 2] != a[|a| - 2]
    requires (forall k :: 0 <= k < |p| - 1 ==> p[k] != p[|p| - 1]) && (forall k :: 0 <= k < |a| - 1 ==> a[k] != a[|a| - 1])
    ensures !StartsAt(a + s, i, p)
  {
    var t, n := a + s, i + |p|;
    if n <= |t| {
      if n > |a| {
        var k := |a| - 1 - i;
        assert t[i..n][k] == a[|a| - 1] && p[k] != p[|p| - 1];
      } else if n == |a| {
        assert t[i..n][|p| - 2] == a[|a| - 2];
      } else {
        assert t[i..n][|p| - 1] == a[n - 1];
      }
    }
  }

  lemma NextCallSkip(opening: string, a: string, s: string)
    requires opening != "" && forall i :: 0 <= i < |a| ==> !StartsAt(a + s, i, opening)
    ensures NextCall(opening, a + s) == NextCall(opening, s)
  {
    FindSkip(a, s, opening);
    if Find(s, opening).Some? {
      var at := Find(s, opening).value + |opening|;
      assert (a + s)[|a| + at..] == s[at..];
    }
  }

  /** The scan for one mask function. */
  function ScanWith(f: MaskFunction, text: string, masks: map<string, Action>): map<string, Action> {
    ScanFor(Opening(f), ActionOf(f), text, masks)
  }

  lemma ScanSkip(f: MaskFunction, a: string, s: string, masks: map<string, Action>)
    requires forall i :: 0 <= i < |a| ==> !StartsAt(a + s, i, Opening(f))
    ensures ScanWith(f, a + s, masks) == ScanWith(f, s, masks)
  {
    var opening := Opening(f);
    assert opening != "";
    NextCallSkip(opening, a, s);
  }

  lemma ScanPast(f: MaskFunction, a: string, s: string, masks: map<string, Action>)
    requires a == "" || (NoOpening(a) && (Breaks(a[|a| - 1]) || (s != "" && Breaks(s[0]))))
    ensures ScanWith(f, a + s, masks) == ScanWith(f, s, masks)
  {
    forall i | 0 <= i < |a| ensures !StartsAt(a + s, i, Opening(f)) {
      NoCallStarts(f, a, s, i);
    }
    ScanSkip(f, a, s, masks);
  }

  lemma ArgumentIsColumn(item: Item)
    requires item.Masked? && IsName(item.column)
    ensures ColumnIn(Argument(item)) == item.column
    ensures forall i :: 0 <= i < |Argument(item)| ==> !IsWhitespace(Argument(item)[i]) && Argument(item)[i] != '(' && Argument(item)[i] != ')'
  {
    var a, c := Argument(item), item.column;
    assert TrimEnd(a) == a && TrimStart(a) == a;
    assert TrimMatches(c, '"') == c;
    if item.quoted {
      assert a[..|a| - 1] == "\"" + c;
      assert ("\"" + c)[1..] == c;
      assert TrimMatches("\"" + c, '"') == c;
    }
  }

  lemma {:induction false} ClosingFound(a: string, s: string)
    requires forall i :: 0 <= i < |a| ==> a[i] != ')'
    ensures Find(a + (")" + s), ")") == Some(|a|)
  {
    var t := a + (")" + s);
    forall i | 0 <= i < |a| ensures !StartsAt(t, i, ")") {
      assert t[i..i + 1] == [a[i]];
    }
    FindSkip(a, ")" + s, ")");
    assert (")" + s)[..1] == ")";
  }

  /** A call is read as its argument. */
  lemma CallIsRead(item: Item, s: string)
    requires item.Masked? && IsName(item.column)
    ensures NextCall(Opening(item.via), CallText(item) + s) == Some(Call(Argument(item), s))
  {
    var f, arg := item.via, Argument(item);
    ArgumentIsColumn(item);
    Reassociate(Opening(f), arg + ")", s);
    Reassociate(arg, ")", s);
    var t := Opening(f) + (arg + (")" + s));
    assert t[..|Opening(f)|] == Opening(f);
    assert t[|Opening(f)|..] == arg + (")" + s);
    ClosingFound(arg, s);
    assert (arg + (")" + s))[..|arg|] == arg && (arg + (")" + s))[|arg| + 1..] == s;
  }

  function After(f: MaskFunction, item: Item, masks: map<string, Action>): map<string, Action> {
    if item.Masked? && item.via == f then masks[item.column := ActionOf(f)] else masks
  }

  lemma OtherOpeningIsPassed(f: MaskFunction, g: MaskFunction, s: string, masks: map<string, Action>)
    requires f != g
    ensures ScanWith(f, Opening(g) + s, masks) == ScanWith(f, s, masks)
  {
    forall i | 0 <= i < |Opening(g)| ensures !StartsAt(Opening(g) + s, i, Opening(f)) {
      NoOtherCallStarts(f, g, s, i);
    }
    ScanSkip(f, Opening(g), s, masks);
  }

  lemma OwnCallIsPassed(item: Item, s: string, masks: map<string, Action>)
    requires item.Masked? && IsName(item.column)
    ensures ScanWith(item.via, CallText(item) + s, masks) == ScanWith(item.via, s, masks[item.column := ActionOf(item.via)])
  {
    ArgumentIsColumn(item);
    CallIsRead(item, s);
  }

  lemma OtherCallIsPassed(f: MaskFunction, item: Item, s: string, masks: map<string, Action>)
    requires item.Masked? && IsName(item.column) && f != item.via
    ensures ScanWith(f, CallText(item) + s, masks) == ScanWith(f, s, masks)
  {
    var g, arg := item.via, Argument(item) + ")";
    ArgumentIsColumn(item);
    Reassociate(Opening(g), arg, s);
    OtherOpeningIsPassed(f, g, arg + s, masks);
    ScanPast(f, arg, s, masks);
  }

  lemma CallIsPassed(f: MaskFunction, item: Item, s: string, masks: map<string, Action>)
    requires item.Masked? && IsName(item.column)
    ensures ScanWith(f, CallText(item) + s, masks) == ScanWith(f, s, After(f, item, masks))
  {
    if f == item.via {
      OwnCallIsPassed(item, s, masks);
    } else {
      OtherCallIsPassed(f, item, s, masks);
    }
  }

  lemma ItemIsPassed(f: MaskFunction, item: Item, s: string, masks: map<string, Action>)
    requires IsName(item.column) && s != "" && Breaks(s[0])
    ensures ScanWith(f, ItemText(item) + s, masks) == ScanWith(f, s, After(f, item, masks))
  {
    if item.Bare? {
      ScanPast(f, item.column, s, masks);
    } else {
      MaskedIsPassed(f, item, " AS " + item.column, s, masks);
    }
  }

  lemma MaskedIsPassed(f: MaskFunction, item: Item, alias: string, s: string, masks: map<string, Action>)
    requires item.Masked? && IsName(item.column) && alias != "" && NoOpening(alias) && s != "" && Breaks(s[0])
    ensures ScanWith(f, (CallText(item) + alias) + s, masks) == ScanWith(f, s, After(f, item, masks))
  {
    Reassociate(CallText(item), alias, s);
    CallIsPassed(f, item, alias + s, masks);
    ScanPast(f, alias, s, After(f, item, masks));
  }

  function AfterAll(f: MaskFunction, items: seq<Item>, masks: map<string, Action>): map<string, Action> {
    if items == [] then masks else AfterAll(f, items[1..], After(f, items[0], masks))
  }

  /** A clause in which no mask function is called, such as one without parentheses. */
  predicate NoCalls(clause: string) {
    forall f: MaskFunction :: Find(clause, Opening(f)).None?
  }

  lemma NoParenthesesNoCalls(clause: string)
    requires NoOpening(clause)
    ensures NoCalls(clause)
  {
    forall f: MaskFunction ensures Find(clause, Opening(f)).None? {
      OpeningShape(f);
      FindIsFirst(clause, Opening(f));
      forall i: nat ensures !StartsAt(clause, i, Opening(f)) {
        NoCallWithin(f, clause, i);
      }
    }
  }

  lemma NoCallWithin(f: MaskFunction, s: string, i: nat)
    requires NoOpening(s)
    ensures !StartsAt(s, i, Opening(f))
  {
    OpeningShape(f);
    var p := Opening(f);
    if i + |p| <= |s| {
      assert s[i..i + |p|][|p| - 1] == s[i + |p| - 1];
    }
  }

  lemma {:induction false} OnwardIsScanned(
      f: MaskFunction, items: seq<Item>, clause: string, masks: map<string, Action>)
    requires AreItems(items) && NoCalls(clause)
    ensures ScanWith(f, Onward(items, clause), masks) == AfterAll(f, items, masks)
    decreases |items|
  {
    if items == [] {
      EndIsPassed(f, clause, masks);
    } else {
      var more := Onward(items[1..], clause);
      ScanPast(f, ", ", ItemText(items[0]) + more, masks);
      ItemIsPassed(f, items[0], more, masks);
      OnwardIsScanned(f, items[1..], clause, After(f, items[0], masks));
    }
  }

  lemma EndIsPassed(f: MaskFunction, clause: string, masks: map<string, Action>)
    requires NoCalls(clause)
    ensures ScanWith(f, FromWhere(clause), masks) == masks
  {
    ScanPast(f, " FROM", " {table}" + (WHERE + clause), masks);
    ScanPast(f, " {table}", WHERE + clause, masks);
    ScanPast(f, WHERE, clause, masks);
    assert Find(clause, Opening(f)).None?;
  }

  lemma ListIsScanned(f: MaskFunction, items: seq<Item>, clause: string, masks: map<string, Action>)
    requires AreItems(items) && NoCalls(clause)
    ensures ScanWith(f, SelectList(items) + FromWhere(clause), masks) == AfterAll(f, items, masks)
  {
    if items == [] {
      assert SelectList(items) + FromWhere(clause) == FromWhere(clause);
      EndIsPassed(f, clause, masks);
    } else {
      TemplateUnfolds(items, clause);
      ItemIsPassed(f, items[0], Onward(items[1..], clause), masks);
      OnwardIsScanned(f, items[1..], clause, After(f, items[0], masks));
    }
  }

  lemma TemplateIsScanned(f: MaskFunction, items: seq<Item>, clause: string, masks: map<string, Action>)
    requires AreItems(items) && NoCalls(clause)
    ensures ScanWith(f, Template(items, clause), masks) == AfterAll(f, items, masks)
  {
    ScanPast(f, "SELECT ", SelectList(items) + FromWhere(clause), masks);
    ListIsScanned(f, items, clause, masks);
  }

  lemma {:induction false} AfterAllIsOverride(f: MaskFunction, items: seq<Item>, masks: map<string, Action>)
    ensures AfterAll(f, items, masks) == masks + MasksBy(f, items)
    decreases |items|
  {
    if items != [] {
      AfterAllIsOverride(f, items[1..], After(f, items[0], masks));
      MergeAssociates(masks, items[0].column, ActionOf(f), MasksBy(f, items[1..]));
    }
  }

  lemma MergeAssociates(masks: map<string, Action>, column: string, action: Action, rest: map<string, Action>)
    ensures masks[column := action] + rest == masks + (map[column := action] + rest)
  {
  }

  /** Scanning a rendered stencil recovers exactly its mask map. */
  lemma MasksAreRecovered(items: seq<Item>, clause: string)
    requires AreItems(items) && NoCalls(clause)
    ensures ScanForAll(FUNCTIONS, Template(items, clause), map[]) == MaskMap(items)
  {
    var text := Template(items, clause);
    forall f: MaskFunction, masks: map<string, Action> ensures ScanWith(f, text, masks) == masks + MasksBy(f, items) {
      TemplateIsScanned(f, items, clause, masks);
      AfterAllIsOverride(f, items, masks);
    }
    var m1 := ScanWith(Sha256Hex, text, map[]);
    assert m1 == MasksBy(Sha256Hex, items);
    FourFunctions(text);
  }

  lemma FourFunctions(text: string)
    ensures ScanForAll(FUNCTIONS, text, map[]) ==
            ScanWith(MaskTokenize, text, ScanWith(MaskRedact, text, ScanWith(MaskHashSha256, text, ScanWith(Sha256Hex, text, map[]))))
  {
    var fs := FUNCTIONS;
    var one := ScanWith(Sha256Hex, text, map[]);
    var two := ScanWith(MaskHashSha256, text, one);
    var three := ScanWith(MaskRedact, text, two);
    assert fs[1..] == [MaskHashSha256, MaskRedact, MaskTokenize] && fs[1..][1..] == [MaskRedact, MaskTokenize];
    assert [MaskRedact, MaskTokenize][1..] == [MaskTokenize] && [MaskTokenize][1..] == [];
    assert ScanForAll([MaskTokenize], text, three) == ScanWith(MaskTokenize, text, three);
    assert ScanForAll([MaskRedact, MaskTokenize], text, two) == ScanForAll([MaskTokenize], text, three);
    assert ScanForAll(fs[1..], text, one) == ScanForAll(fs[1..][1..], text, two);
    assert ScanForAll(fs, text, map[]) == ScanForAll(fs[1..], text, one);
  }

  predicate Masks(item: Item, column: string) {
    item.Masked? && item.column == column
  }

  lemma {:induction false} InMasksBy(items: seq<Item>, f: MaskFunction, column: string)
    ensures column in MasksBy(f, items) <==> exists j :: 0 <= j < |items| && Masks(items[j], column) && items[j].via == f
    ensures column in MasksBy(f, items) ==> MasksBy(f, items)[column] == ActionOf(f)
  {
    if items != [] {
      var tail := items[1..];
      InMasksBy(tail, f, column);
      if j :| 0 <= j < |tail| && Masks(tail[j], column) && tail[j].via == f {
        assert items[j + 1] == tail[j];
      }
      if j :| 0 < j < |items| && Masks(items[j], column) && items[j].via == f {
        assert tail[j - 1] == items[j];
      }
    }
  }

  /** The merged map, column by column. */
  lemma MaskMapDomain(items: seq<Item>, column: string)
    ensures column in MaskMap(items) <==> exists j :: 0 <= j < |items| && Masks(items[j], column)
  {
    InAllMasks(items, column);
    if j :| 0 <= j < |items| && Masks(items[j], column) {
      assert column in MasksBy(items[j].via, items);
    }
  }

  lemma InAllMasks(items: seq<Item>, column: string)
    ensures forall f: MaskFunction :: column in MasksBy(f, items) <==>
              exists j :: 0 <= j < |items| && Masks(items[j], column) && items[j].via == f
    ensures forall f: MaskFunction :: column in MasksBy(f, items) ==> MasksBy(f, items)[column] == ActionOf(f)
  {
    forall f: MaskFunction
      ensures column in MasksBy(f, items) <==> exists j :: 0 <= j < |items| && Masks(items[j], column) && items[j].via == f
      ensures column in MasksBy(f, items) ==> MasksBy(f, items)[column] == ActionOf(f)
    {
      InMasksBy(items, f, column);
    }
  }

  lemma MaskMapValue(items: seq<Item>, i: nat)
    requires i < |items| && items[i].Masked?
    requires forall j :: 0 <= j < |items| && Masks(items[j], items[i].column) ==> items[j].via == items[i].via
    ensures items[i].column in MaskMap(items) && MaskMap(items)[items[i].column] == ActionOf(items[i].via)
  {
    var column := items[i].column;
    assert Masks(items[i], column);
    InAllMasks(items, column);
    assert forall f: MaskFunction :: column in MasksBy(f, items) <==> f == items[i].via;
  }

  lemma OneMaskMap(f: MaskFunction, column: string)
    ensures MaskMap([Masked(column, f, false)]) == map[column := ActionOf(f)]
  {
    MasksByOne(Sha256Hex, f, column);
    MasksByOne(MaskHashSha256, f, column);
    MasksByOne(MaskRedact, f, column);
    MasksByOne(MaskTokenize, f, column);
  }

  lemma MasksByOne(g: MaskFunction, f: MaskFunction, column: string)
    ensures MasksBy(g, [Masked(column, f, false)]) == if g == f then map[column := ActionOf(f)] else map[]
  {
    assert [Masked(column, f, false)][1..] == [];
  }

  /** Each function by its name: what a template with one call of it says. */
  lemma OneCallIsRead(name: string, action: Action, column: string, clause: string)
    requires (name, action) in {("sha256_hex", HashSha256), ("mask_hash_sha256", HashSha256), ("mask_redact", Redact), ("mask_tokenize", Tokenize)}
    requires IsName(column) && NoCalls(clause)
    ensures var item := (name + "(" + (column + ")")) + (" AS " + column);
            ScanForAll(FUNCTIONS, "SELECT " + (item + FromWhere(clause)), map[]) == map[column := action]
  {
    var f := if name == "sha256_hex" then Sha256Hex else if name == "mask_hash_sha256" then MaskHashSha256
             else if name == "mask_redact" then MaskRedact else MaskTokenize;
    assert name + "(" == Opening(f);
    MasksAreRecovered([Masked(column, f, false)], clause);
    OneMaskMap(f, column);
  }

  /** So a column is masked exactly when some item masks it, and with its function's action if they agree. */
  lemma EachColumnIsRecovered(items: seq<Item>, clause: string, column: string)
    requires AreItems(items) && NoCalls(clause)
    ensures var masks := ScanForAll(FUNCTIONS, Template(items, clause), map[]);
            && (column in masks <==> exists i :: 0 <= i < |items| && Masks(items[i], column))
            && forall i :: 0 <= i < |items| && Masks(items[i], column) &&
                           (forall j :: 0 <= j < |items| && Masks(items[j], column) ==> items[j].via == items[i].via) ==>
                 column in masks && masks[column] == ActionOf(items[i].via)
  {
    MasksAreRecovered(items, clause);
    MaskMapDomain(items, column);
    forall i | 0 <= i < |items| && Masks(items[i], column) &&
               (forall j :: 0 <= j < |items| && Masks(items[j], column) ==> items[j].via == items[i].via)
      ensures column in MaskMap(items) && MaskMap(items)[column] == ActionOf(items[i].via)
    {
      MaskMapValue(items, i);
    }
  }

  // ---- finding the clause ----

  function FindWhere(s: string): Option<nat> {
    Find(Upper(s), WHERE)
  }

  lemma UpperAppend(a: string, s: string)
    ensures Upper(a + s) == Upper(a) + Upper(s)
  {
  }

  predicate NoSpace(s: string) {
    forall i :: 0 <= i < |s| ==> s[i] != ' '
  }

  lemma SkipTo(a: string, s: string)
    requires forall i :: 0 <= i < |a| ==> !StartsAt(Upper(a + s), i, WHERE)
    ensures FindWhere(a + s) == Shift(FindWhere(s), |a|)
  {
    UpperAppend(a, s);
    FindSkip(Upper(a), Upper(s), WHERE);
  }

  lemma SpaceStarts(t: string, i: nat)
    requires i < |t| && t[i] != ' '
    ensures !StartsAt(Upper(t), i, WHERE)
  {
    if i + 7 <= |t| {
      assert Upper(t)[i..i + 7][0] == Upper(t)[i];
    }
  }

  lemma SkipNoSpace(a: string, s: string)
    requires NoSpace(a)
    ensures FindWhere(a + s) == Shift(FindWhere(s), |a|)
  {
    forall i | 0 <= i < |a| ensures !StartsAt(Upper(a + s), i, WHERE) {
      SpaceStarts(a + s, i);
    }
    SkipTo(a, s);
  }

  predicate IsWhere(word: string) {
    Upper(word) == "WHERE"
  }

  lemma WordIsNotWhere(word: string, s: string)
    requires NoSpace(word) && s != "" && (s[0] == ',' || (s[0] == ' ' && !IsWhere(word)))
    ensures !StartsAt(Upper(" " + (word + s)), 0, WHERE)
  {
    var t := " " + (word + s);
    var u := Upper(t);
    if 7 <= |t| {
      if |word| < 5 {
        assert u[0..7][1 + |word|] == u[1 + |word|] == s[0];
      } else if |word| > 5 {
        assert u[0..7][6] == u[6] == AsciiUpper(word[5]);
      } else {
        assert u[0..7][6] == u[6] == s[0];
        assert u[1..6] == Upper(word);
        assert u[0..7][1..6] == u[1..6];
      }
    }
  }

  /** A word after a space is passed over unless it is WHERE with a space behind it. */
  lemma SkipWord(word: string, s: string)
    requires NoSpace(word) && s != "" && (s[0] == ',' || (s[0] == ' ' && !IsWhere(word)))
    ensures FindWhere((" " + word) + s) == Shift(FindWhere(s), 1 + |word|)
  {
    var a := " " + word;
    Reassociate(" ", word, s);
    forall i | 0 <= i < |a| ensures !StartsAt(Upper(a + s), i, WHERE) {
      if i == 0 {
        WordIsNotWhere(word, s);
      } else {
        SpaceStarts(a + s, i);
      }
    }
    SkipTo(a, s);
  }

  lemma FoundHere(word: string, s: string)
    requires IsWhere(word) && s != "" && s[0] == ' '
    ensures FindWhere((" " + word) + s) == Some(0)
  {
    var t := (" " + word) + s;
    var u := Upper(t);
    assert u[1..6] == Upper(word);
    assert u[..7] == [u[0]] + u[1..6] + [u[6]];
  }

  lemma CallIsAWord(item: Item)
    requires item.Masked? && IsName(item.column)
    ensures NoSpace(CallText(item)) && !IsWhere(CallText(item))
  {
    ArgumentIsColumn(item);
    OpeningShape(item.via);
    var t := CallText(item);
    assert t[|t| - 1] == ')';
    assert Upper(t)[|t| - 1] == ')';
  }

  /** The search in `t` ends just before `clause`, with which `t` ends. */
  predicate TakenAt(t: string, clause: string) {
    |t| >= |clause| + 7 && FindWhere(t) == Some(|t| - |clause| - 7)
  }

  lemma WordPassed(word: string, s: string, clause: string)
    requires TakenAt(s, clause)
    requires NoSpace(word) && (s[0] == ',' || (s[0] == ' ' && !IsWhere(word)))
    ensures TakenAt((" " + word) + s, clause)
  {
    SkipWord(word, s);
  }

  lemma ShortIsNotWhere(word: string)
    requires |word| != 5
    ensures !IsWhere(word)
  {
  }

  lemma TwoWordsPassed(one: string, two: string, s: string, clause: string)
    requires TakenAt(s, clause) && s[0] == ' '
    requires NoSpace(one) && NoSpace(two) && !IsWhere(one) && !IsWhere(two)
    ensures TakenAt((" " + one) + ((" " + two) + s), clause)
  {
    WordPassed(two, s, clause);
    WordPassed(one, (" " + two) + s, clause);
  }

  lemma AliasText(call: string, sep: string, column: string, s: string)
    ensures (" " + (call + (sep + column))) + s == (" " + call) + (sep + (column + s))
  {
    Reassociate(sep, column, s);
    Reassociate(call, sep + column, s);
    Reassociate(" ", call + (sep + column), s);
    Reassociate(" ", call, sep + (column + s));
  }

  lemma AsText(column: string, s: string)
    ensures " AS " + (column + s) == (" " + "AS") + ((" " + column) + s)
  {
  }

  /** A wrapped item ends like a bare one. */
  lemma AliasPassed(item: Item, s: string, clause: string)
    requires item.Masked? && IsName(item.column) && TakenAt((" " + item.column) + s, clause)
    ensures TakenAt((" " + ItemText(item)) + s, clause)
  {
    var call, word, alias := CallText(item), "AS", (" " + item.column) + s;
    CallIsAWord(item);
    ShortIsNotWhere(word);
    TwoWordsPassed(call, word, alias, clause);
    AliasText(call, " AS ", item.column, s);
    AsText(item.column, s);
  }

  /** An item not yet at the end, or whose name is not WHERE, is passed over. */
  lemma ItemPassed(item: Item, s: string, clause: string)
    requires IsName(item.column) && TakenAt(s, clause)
    requires s[0] == ',' || (s[0] == ' ' && !IsWhere(item.column))
    ensures TakenAt((" " + ItemText(item)) + s, clause)
  {
    WordPassed(item.column, s, clause);
    if item.Masked? {
      AliasPassed(item, s, clause);
    }
  }

  /** An item at the end whose name is WHERE stops the search. */
  lemma ItemStops(item: Item, s: string)
    requires IsName(item.column) && IsWhere(item.column) && s != "" && s[0] == ' '
    ensures TakenAt((" " + ItemText(item)) + s, s[1..])
  {
    FoundHere(item.column, s);
    if item.Masked? {
      AliasPassed(item, s, s[1..]);
    }
  }

  predicate EndsInWhere(items: seq<Item>) {
    items != [] && IsWhere(items[|items| - 1].column)
  }

  /** What the search takes for the clause. */
  function TakenFor(items: seq<Item>, clause: string): string {
    if EndsInWhere(items) then FromWhere(clause)[1..] else clause
  }

  lemma WhereFound(clause: string)
    ensures TakenAt(WHERE + clause, clause)
  {
    FoundHere("WHERE", " " + clause);
    assert (" " + "WHERE") + (" " + clause) == WHERE + clause;
  }

  lemma EndTaken(clause: string)
    ensures TakenAt(FromWhere(clause), clause)
  {
    WhereFound(clause);
    FromWords();
    TwoWordsPassed("FROM", "{table}", WHERE + clause, clause);
    assert " " + "FROM" == " FROM" && " " + "{table}" == " {table}";
  }

  lemma FromWords()
    ensures NoSpace("FROM") && NoSpace("{table}") && !IsWhere("FROM") && !IsWhere("{table}")
  {
    ShortIsNotWhere("FROM");
    ShortIsNotWhere("{table}");
  }

  lemma LastTaken(item: Item, clause: string)
    requires IsName(item.column)
    ensures TakenAt((" " + ItemText(item)) + FromWhere(clause), TakenFor([item], clause))
  {
    var end := FromWhere(clause);
    EndTaken(clause);
    if IsWhere(item.column) {
      ItemStops(item, end);
    } else {
      ItemPassed(item, end, clause);
    }
  }

  lemma CommaPassed(s: string, clause: string)
    requires TakenAt(s, clause)
    ensures TakenAt("," + s, clause)
  {
    SkipNoSpace(",", s);
  }

  /** The items with a space in front, down to the end. */
  function Listed(items: seq<Item>, clause: string): string
    requires items != []
  {
    (" " + ItemText(items[0])) + Onward(items[1..], clause)
  }

  lemma OnwardIsListed(items: seq<Item>, clause: string)
    requires items != []
    ensures Onward(items, clause) == "," + Listed(items, clause)
  {
    var item, more := ItemText(items[0]), Onward(items[1..], clause);
    assert ", " + (item + more) == "," + ((" " + item) + more);
  }

  lemma MoreTaken(item: Item, rest: seq<Item>, clause: string)
    requires IsName(item.column) && rest != [] && TakenAt(Listed(rest, clause), TakenFor(rest, clause))
    ensures TakenAt((" " + ItemText(item)) + Onward(rest, clause), TakenFor(rest, clause))
  {
    OnwardIsListed(rest, clause);
    CommaPassed(Listed(rest, clause), TakenFor(rest, clause));
    ItemPassed(item, Onward(rest, clause), TakenFor(rest, clause));
  }

  lemma OneTaken(items: seq<Item>, clause: string)
    requires AreItems(items) && |items| == 1
    ensures TakenAt(Listed(items, clause), TakenFor(items, clause))
  {
    assert items == [items[0]];
    LastTaken(items[0], clause);
  }

  lemma SameEnd(items: seq<Item>, clause: string)
    requires |items| > 1
    ensures TakenFor(items, clause) == TakenFor(items[1..], clause)
  {
    assert items[1..][|items| - 2] == items[|items| - 1];
  }

  lemma {:induction false} ListTaken(items: seq<Item>, clause: string)
    requires AreItems(items) && items != []
    ensures TakenAt(Listed(items, clause), TakenFor(items, clause))
    decreases |items|
  {
    if |items| == 1 {
      OneTaken(items, clause);
    } else {
      ListTaken(items[1..], clause);
      MoreTaken(items[0], items[1..], clause);
      SameEnd(items, clause);
    }
  }

  lemma SelectPassed(list: string, s: string, clause: string)
    requires TakenAt((" " + list) + s, clause)
    ensures TakenAt("SELECT " + (list + s), clause)
  {
    var t := (" " + list) + s;
    SkipNoSpace("SELECT", t);
    assert "SELECT" + t == "SELECT " + (list + s);
  }

  lemma TemplateTaken(items: seq<Item>, clause: string)
    requires AreItems(items)
    ensures TakenAt(Template(items, clause), TakenFor(items, clause))
  {
    if items == [] {
      EndTaken(clause);
      WordPassed("", FromWhere(clause), clause);
      SelectPassed("", FromWhere(clause), clause);
    } else {
      ListTaken(items, clause);
      TemplateUnfolds(items, clause);
      SelectPassed(ItemText(items[0]), Onward(items[1..], clause), TakenFor(items, clause));
    }
  }

  predicate EndsWith(t: string, c: string) {
    |c| <= |t| && t[|t| - |c|..] == c
  }

  lemma AppendEndsWith(a: string, s: string, c: string)
    requires EndsWith(s, c)
    ensures EndsWith(a + s, c)
  {
    assert (a + s)[|a + s| - |c|..] == s[|s| - |c|..];
  }

  lemma TakenForIsSuffix(items: seq<Item>, clause: string)
    ensures EndsWith(Template(items, clause), TakenFor(items, clause))
  {
    var tail := WHERE + clause;
    AppendEndsWith(WHERE, clause, clause);
    AppendEndsWith(" {table}", tail, clause);
    AppendEndsWith(" FROM", " {table}" + tail, clause);
    var end, taken := FromWhere(clause), TakenFor(items, clause);
    assert EndsWith(end, taken);
    AppendEndsWith(SelectList(items), end, taken);
    AppendEndsWith("SELECT ", SelectList(items) + end, taken);
  }

  lemma WhatIsTaken(items: seq<Item>, clause: string)
    requires AreItems(items)
    ensures RowFilterFromSql(Template(items, clause)) == FilterOf(TakenFor(items, clause))
  {
    TemplateTaken(items, clause);
    TakenForIsSuffix(items, clause);
  }

  // ---- a filter taken from too early is never the clause's ----

  lemma {:induction false} TrimEndAppend(a: string, s: string)
    requires TrimEnd(s) != ""
    ensures TrimEnd(a + s) == a + TrimEnd(s)
  {
    if s != "" && IsWhitespace(s[|s| - 1]) {
      TrimEndAppend(a, s[..|s| - 1]);
      assert (a + s)[..|a + s| - 1] == a + s[..|s| - 1];
    }
  }

  lemma {:induction false} TrimEndKeepsHead(s: string)
    requires s != "" && !IsWhitespace(s[0])
    ensures TrimEnd(s) != "" && TrimEnd(s)[0] == s[0]
  {
    if IsWhitespace(s[|s| - 1]) {
      TrimEndKeepsHead(s[..|s| - 1]);
    }
  }

  lemma EarlyFilterDiffers(early: string, clause: string)
    requires early != "" && early[0] == 'F'
    ensures FilterOf(early + clause) != FilterOf(clause)
  {
    var s := early + clause;
    TrimEndKeepsHead(s);
    assert Trim(s) == TrimEnd(s) && Squash(Trim(s))[0] == 'F';
    if TrimEnd(clause) != "" {
      TrimEndAppend(early, clause);
    }
  }

  /**
   Scanning a rendered stencil recovers its clause, trimmed, with a blank clause and 1=1 meaning
   none, exactly when the last selected column is not itself called WHERE in some spelling.
   */
  lemma ClauseIsRecoveredIff(items: seq<Item>, clause: string)
    requires AreItems(items)
    ensures RowFilterFromSql(Template(items, clause)) == FilterOf(clause) <==> !EndsInWhere(items)
  {
    WhatIsTaken(items, clause);
    if EndsInWhere(items) {
      TakenTooEarly(clause);
    }
  }

  lemma TakenTooEarly(clause: string)
    ensures FilterOf(FromWhere(clause)[1..]) != FilterOf(clause)
  {
    EndBeginsEarly(clause);
    EarlyFilterDiffers((" FROM" + (" {table}" + WHERE))[1..], clause);
  }

  lemma EndBeginsEarly(clause: string)
    ensures FromWhere(clause)[1..] == (" FROM" + (" {table}" + WHERE))[1..] + clause
  {
    Reassociate(" {table}", WHERE, clause);
    Reassociate(" FROM", " {table}" + WHERE, clause);
  }

  lemma {:induction false} SquashAppend(a: string, s: string)
    ensures Squash(a + s) == Squash(a) + Squash(s)
  {
    if a == "" {
      assert a + s == s;
    } else {
      assert (a + s)[1..] == a[1..] + s;
      SquashAppend(a[1..], s);
    }
  }

  lemma {:induction false} SquashTrimEnd(s: string)
    ensures Squash(TrimEnd(s)) == Squash(s)
  {
    if s != "" && IsWhitespace(s[|s| - 1]) {
      var n := |s| - 1;
      SquashTrimEnd(s[..n]);
      SquashAppend(s[..n], s[n..]);
      assert s == s[..n] + s[n..];
      assert Squash(s[n..]) == "";
    }
  }

  lemma {:induction false} SquashTrimStart(s: string)
    ensures Squash(TrimStart(s)) == Squash(s)
  {
    if s != "" && IsWhitespace(s[0]) {
      SquashTrimStart(s[1..]);
    }
  }

  /** Only a clause that is blank or spells 1=1, however spaced, means no filter; any other is kept but for the blanks around it. */
  lemma NoFilterIff(clause: string) returns (a: string, b: string)
    ensures FilterOf(clause).None? <==> Squash(clause) == "" || Squash(clause) == "1=1"
    ensures FilterOf(clause).Some? ==>
              var filter := FilterOf(clause).value;
              && clause == a + (filter + b) && AllBlank(a) && AllBlank(b)
              && filter != "" && !IsWhitespace(filter[0]) && !IsWhitespace(filter[|filter| - 1])
  {
    SquashTrimEnd(clause);
    SquashTrimStart(TrimEnd(clause));
    a, b := TrimCuts(clause);
  }
}
