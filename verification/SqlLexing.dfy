/**
 The lexical rules of SQL that the comment stripper is measured against, sections 5.2 and 5.3 of
 ISO/IEC 9075-2:2003 with nested block comments, and exactly where the stripper keeps to them.

 Two things are invisible to the scanner. In SQL a doubled quote inside a literal stands for one
 quote; the scanner leaves string mode there. And a delimited identifier is one token whatever it
 holds; the scanner reads its inside like any other text. `InStep` and `Passes` say exactly when the
 scanner is back in step at the end of such a token.
 */
module SqlLexing {
  import opened Prelude
  import opened Texts
  import opened DdlGuard

  // ---- block comments ----

  /** The inside of a block comment: text with properly nested comments. */
  datatype Body = Done | Text(c: char, rest: Body) | Nest(inner: Body, rest: Body)

  /** A body, its closing mark, and then `after`. */
  function Tail(b: Body, after: string): string {
    match b
    case Done => "*/" + after
    case Text(c, rest) => [c] + Tail(rest, after)
    case Nest(inner, rest) => "/*" + Tail(inner, Tail(rest, after))
  }

  function Head(b: Body): char {
    match b
    case Done => '*'
    case Text(c, _) => c
    case Nest(_, _) => '/'
  }

  /** A text character may not, with the character that follows it, read as a mark. */
  ghost predicate WellNested(b: Body) {
    match b
    case Done => true
    case Text(c, rest) => WellNested(rest) && (c, Head(rest)) != ('/', '*') && (c, Head(rest)) != ('*', '/')
    case Nest(inner, rest) => WellNested(inner) && WellNested(rest)
  }

  lemma TailHead(b: Body, after: string)
    ensures Tail(b, after) != "" && Tail(b, after)[0] == Head(b)
  {
  }

  /** The depth counter of the loop leaves a nested body exactly at its own closing mark. */
  lemma {:induction false} BodyCloses(b: Body, after: string, depth: nat)
    requires WellNested(b) && depth > 0
    ensures AfterBlock(Tail(b, after), depth) == AfterBlock(after, depth - 1)
    ensures Closes(Tail(b, after), depth) == Closes(after, depth - 1)
  {
    var s := Tail(b, after);
    match b
    case Done =>
      assert s[2..] == after;
    case Text(c, rest) =>
      BodyCloses(rest, after, depth);
      TailHead(rest, after);
      assert s[1..] == Tail(rest, after);
    case Nest(inner, rest) =>
      BodyCloses(inner, Tail(rest, after), depth + 1);
      BodyCloses(rest, after, depth);
      assert s[2..] == Tail(inner, Tail(rest, after));
  }

  /** Whether the counter reaches zero before the text ends. */
  predicate Closes(s: string, depth: nat)
    decreases |s|
  {
    if depth == 0 then true
    else if s == "" then false
    else if Starts(s, '/', '*') then Closes(s[2..], depth + 1)
    else if Starts(s, '*', '/') then Closes(s[2..], depth - 1)
    else Closes(s[1..], depth)
  }

  /** Conversely, a text on which the counter reaches zero starts with a nested body. */
  lemma {:induction false} ClosedHasBody(s: string, depth: nat) returns (b: Body, after: string)
    requires depth > 0 && Closes(s, depth)
    ensures WellNested(b) && s == Tail(b, after) && Closes(after, depth - 1) && |after| < |s|
    decreases |s|
  {
    if Starts(s, '/', '*') {
      var inner, mid := ClosedHasBody(s[2..], depth + 1);
      var rest, r := ClosedHasBody(mid, depth);
      b, after := Nest(inner, rest), r;
      assert s == "/*" + s[2..];
    } else if Starts(s, '*', '/') {
      b, after := Done, s[2..];
      assert s == "*/" + s[2..];
    } else {
      var rest, r := ClosedHasBody(s[1..], depth);
      b, after := Text(s[0], rest), r;
      TailHead(rest, r);
      assert s == [s[0]] + s[1..];
      assert s[1] == Head(rest);
    }
  }

  lemma {:induction false} UnclosedIsConsumed(s: string, depth: nat)
    requires depth > 0 && !Closes(s, depth)
    ensures AfterBlock(s, depth) == ""
    decreases |s|
  {
    if s != "" {
      if Starts(s, '/', '*') { UnclosedIsConsumed(s[2..], depth + 1); }
      else if Starts(s, '*', '/') { UnclosedIsConsumed(s[2..], depth - 1); }
      else { UnclosedIsConsumed(s[1..], depth); }
    }
  }

  lemma {:induction false} LineEnds(text: string, after: string)
    requires '\n' !in text && (after != "" ==> after[0] == '\n')
    ensures AfterLine(text + after) == after
  {
    if text != "" {
      LineEnds(text[1..], after);
      assert (text + after)[1..] == text[1..] + after;
    } else {
      assert text + after == after;
    }
  }

  lemma {:induction false} TailSuffix(b: Body, after: string)
    ensures |Tail(b, after)| > |after| && Tail(b, after)[|Tail(b, after)| - |after|..] == after
  {
    match b
    case Done =>
    case Text(c, rest) => TailSuffix(rest, after);
    case Nest(inner, rest) =>
      TailSuffix(rest, after);
      TailSuffix(inner, Tail(rest, after));
  }

  /** A body can be followed by anything. */
  lemma {:induction false} TailAppend(b: Body, a: string, t: string)
    ensures Tail(b, a + t) == Tail(b, a) + t
  {
    match b
    case Done => assert "*/" + (a + t) == "*/" + a + t;
    case Text(c, rest) => TailAppend(rest, a, t);
    case Nest(inner, rest) =>
      TailAppend(rest, a, t);
      TailAppend(inner, Tail(rest, a), t);
  }

  // ---- what the scanner passes over ----

  /** Scanning `s` ends outside every literal and comment. */
  predicate EndsOutside(s: string)
    decreases |s|
  {
    if s == "" then true
    else if Starts(s, '/', '*') then Closes(s[2..], 1) && EndsOutside(AfterBlock(s[2..], 1))
    else if Starts(s, '-', '-') then AfterLine(s[2..]) != "" && EndsOutside(AfterLine(s[2..]))
    else if s[0] == '\'' then
      var n := LiteralLength(s[1..]);
      n > 0 && s[n] == '\'' && EndsOutside(s[1 + n..])
    else EndsOutside(s[1..])
  }

  /** In front of `rest` the scanner copies `a` and goes on with `rest`. */
  predicate Copies(a: string, rest: string) {
    Strip(a + rest) == a + Strip(rest)
  }

  predicate Passed(a: string, rest: string) {
    Copies(a, rest) && EndsOutside(a + rest) == EndsOutside(rest)
  }

  lemma SameFront(a: string, s: string, t: string)
    ensures a + s == a + t <==> s == t
  {
    if a + s == a + t {
      assert s == (a + s)[|a|..] && t == (a + t)[|a|..];
    }
  }

  /** Behind a stretch that is passed over, the rest decides. */
  lemma Then(a: string, b: string, rest: string)
    requires Passed(a, b + rest)
    ensures Copies(a + b, rest) <==> Copies(b, rest)
    ensures Passed(a + b, rest) <==> Passed(b, rest)
  {
    Reassociate(a, b, rest);
    Reassociate(a, b, Strip(rest));
    SameFront(a, Strip(b + rest), b + Strip(rest));
  }

  predicate NoQuote(s: string) {
    forall i :: 0 <= i < |s| ==> s[i] != '\''
  }

  predicate NotQuoteNext(s: string) {
    s == "" || s[0] != '\''
  }

  /** A comment mark, which the scanner obeys outside string mode. */
  predicate HasMark(s: string) {
    s != "" && (Starts(s, '/', '*') || Starts(s, '-', '-') || HasMark(s[1..]))
  }

  /** No mark arises where `p` ends and `s` begins. */
  predicate Joins(p: string, s: string) {
    p == "" || (!Starts([p[|p| - 1]] + s, '/', '*') && !Starts([p[|p| - 1]] + s, '-', '-'))
  }

  lemma OnePassed(c: char, s: string)
    requires c != '\'' && Joins([c], s)
    ensures Passed([c], s)
  {
    assert ([c] + s)[1..] == s;
  }

  lemma NoMarkAhead(p: string, s: string)
    requires |p| > 1 && NoQuote(p) && !HasMark(p)
    ensures Joins([p[0]], p[1..] + s) && !HasMark(p[1..]) && NoQuote(p[1..])
  {
    assert ([p[0]] + (p[1..] + s))[1] == p[1];
  }

  /** Outside string mode, text without quotes and marks is passed over. */
  lemma {:induction false} PlainPassed(p: string, s: string)
    requires NoQuote(p) && !HasMark(p) && Joins(p, s)
    ensures Passed(p, s)
  {
    if p == "" {
      assert p + s == s && p + Strip(s) == Strip(s);
    } else if |p| == 1 {
      assert p == [p[0]];
      OnePassed(p[0], s);
    } else {
      NoMarkAhead(p, s);
      PlainPassed(p[1..], s);
      OnePassed(p[0], p[1..] + s);
      Then([p[0]], p[1..], s);
      assert p == [p[0]] + p[1..];
    }
  }

  lemma {:induction false} MarkGone(p: string, s: string, t: string)
    requires NoQuote(p) && HasMark(p)
    ensures Strip(p + s) != p + t
  {
    if Starts(p, '/', '*') || Starts(p, '-', '-') {
      assert Strip(p + s)[0] == ' ';
    } else {
      MarkGone(p[1..], s, t);
      assert (p + s)[1..] == p[1..] + s && (p + t)[1..] == p[1..] + t;
      assert Strip(p + s)[1..] == Strip(p[1..] + s);
    }
  }

  /** A mark outside string mode is erased, whatever follows. */
  lemma MarkErased(p: string, x: string, rest: string)
    requires NoQuote(p) && HasMark(p)
    ensures !Copies(p + x, rest)
  {
    Reassociate(p, x, rest);
    Reassociate(p, x, Strip(rest));
    MarkGone(p, x + rest, x + Strip(rest));
  }

  lemma {:induction false} LengthTo(p: string, s: string)
    requires NoQuote(p)
    ensures LiteralLength(p + s) == |p| + LiteralLength(s)
  {
    if p == "" {
      assert p + s == s;
    } else {
      LengthTo(p[1..], s);
      assert (p + s)[1..] == p[1..] + s;
    }
  }

  lemma LiteralPassed(lit: string, rest: string)
    requires |lit| > 1 && lit[0] == '\'' && lit[|lit| - 1] == '\'' && LiteralLength(lit[1..] + rest) == |lit| - 1
    ensures Passed(lit, rest)
  {
    StripRebuilt(lit, rest);
    var s := lit + rest;
    assert s[1..] == lit[1..] + rest && s[|lit|..] == rest;
  }

  lemma BehindOpening(p: string, q: string, s: string)
    ensures ("'" + (p + q))[1..] + s == p + (q + s)
  {
    Reassociate(p, q, s);
    assert ("'" + (p + q))[1..] == p + q;
  }

  /** In string mode a doubled quote ends it. */
  lemma DoubledLeaves(p: string, s: string)
    requires NoQuote(p)
    ensures Passed("'" + (p + "''"), s)
  {
    LengthTo(p, "''" + s);
    BehindOpening(p, "''", s);
    LiteralPassed("'" + (p + "''"), s);
  }

  lemma SingleCloses(p: string, s: string)
    requires NoQuote(p) && NotQuoteNext(s)
    ensures Passed("'" + (p + "'"), s)
  {
    LengthTo(p, "'" + s);
    BehindOpening(p, "'", s);
    LiteralPassed("'" + (p + "'"), s);
  }

  /** Outside string mode a doubled quote is an empty literal, and three quotes are taken together. */
  lemma QuoteRuns(s: string)
    ensures NotQuoteNext(s) ==> Passed("''", s)
    ensures Passed("'''", s)
  {
    DoubledLeaves("", s);
    assert "'" + ("" + "''") == "'''" && "'" + ("" + "'") == "''";
    if NotQuoteNext(s) {
      SingleCloses("", s);
    }
  }

  lemma NeverCloses(p: string)
    requires NoQuote(p)
    ensures Strip("'" + p) == "'" + p && !EndsOutside("'" + p)
  {
    assert p + "" == p;
    LengthTo(p, "");
    var lit := "'" + p;
    assert lit[1..] + "" == p && lit + "" == lit && lit[1..] == p;
    StripRebuilt(lit, "");
  }

  lemma CommentAlone()
    ensures Strip("/**/") == " "
  {
    assert "/**/"[2..] == "*/" && "*/"[2..] == "";
    assert AfterBlock("*/", 1) == "";
  }

  /** In string mode to the end, a comment behind is copied and not stripped. */
  lemma StuckInside(p: string)
    requires NoQuote(p)
    ensures !Copies("'" + p, "/**/")
  {
    CommentAlone();
    NeverCloses(p + "/**/");
    Reassociate("'", p, "/**/");
    assert |("'" + p) + "/**/"| == |p| + 5 && |("'" + p) + " "| == |p| + 2;
  }

  // ---- the scanner inside one literal ----

  /** The parts of a literal with doubled quotes between them. */
  function Join(ps: seq<string>): string {
    if ps == [] then ""
    else if |ps| == 1 then ps[0]
    else ps[0] + ("''" + Join(ps[1..]))
  }

  function LiteralText(ps: seq<string>): string {
    "'" + (Join(ps) + "'")
  }

  predicate AreParts(ps: seq<string>) {
    ps != [] && forall i :: 0 <= i < |ps| ==> NoQuote(ps[i])
  }

  /**
   Whether the scanner, starting at the first part in string mode or, if `plain`, outside it,
   copies the rest of a complete literal unchanged and ends exactly at its end. In string mode
   the next doubled quote takes it out. Outside, a doubled quote is an empty literal, unless the
   next part is empty: then the scanner takes three quotes together.
   */
  predicate InStep(ps: seq<string>, plain: bool)
    decreases |ps|
  {
    if ps == [] then false
    else if !plain then |ps| == 1 || InStep(ps[1..], true)
    else
      && !HasMark(ps[0]) && |ps| > 1
      && (if ps[1] != "" then InStep(ps[1..], true) else |ps| == 2 || InStep(ps[2..], false))
  }

  /** The same for an unterminated literal: it only has to be copied. */
  predicate Copied(ps: seq<string>, plain: bool)
    decreases |ps|
  {
    if ps == [] then false
    else if !plain then |ps| == 1 || Copied(ps[1..], true)
    else
      && !HasMark(ps[0])
      && (|ps| == 1 || (if ps[1] != "" then Copied(ps[1..], true) else |ps| == 2 || Copied(ps[2..], false)))
  }

  lemma OutsideText(ps: seq<string>, end: string)
    requires |ps| > 1
    ensures Join(ps) + end == ps[0] + ("''" + (Join(ps[1..]) + end))
  {
    Reassociate("''", Join(ps[1..]), end);
    Reassociate(ps[0], "''" + Join(ps[1..]), end);
  }

  /** One step outside string mode, over a part and the doubled quote behind it. */
  lemma OutsideStep(ps: seq<string>, end: string, rest: string)
    requires AreParts(ps) && |ps| > 1 && !HasMark(ps[0])
    ensures var t := Join(ps[1..]) + end;
            && Join(ps) + end == ps[0] + ("''" + t) && Passed(ps[0], ("''" + t) + rest)
            && (ps[1] != "" ==> Passed("''", t + rest))
            && (ps[1] == "" && |ps| > 2 ==> "''" + t == "'''" + ("'" + (Join(ps[2..]) + end)))
            && (ps[1] == "" && |ps| == 2 ==> t == end)
  {
    var t := Join(ps[1..]) + end;
    OutsideText(ps, end);
    PlainPassed(ps[0], ("''" + t) + rest);
    if ps[1] != "" {
      FirstOfJoin(ps[1..], end, rest);
      QuoteRuns(t + rest);
    } else {
      EmptySecond(ps, end);
    }
  }

  lemma EmptySecond(ps: seq<string>, end: string)
    requires |ps| > 1 && ps[1] == ""
    ensures var t := Join(ps[1..]) + end;
            if |ps| > 2 then "''" + t == "'''" + ("'" + (Join(ps[2..]) + end)) else t == end
  {
    if |ps| > 2 {
      assert ps[1..][1..] == ps[2..];
      FourQuotes(Join(ps[2..]), end);
    }
  }

  lemma FirstOfJoin(ps: seq<string>, end: string, rest: string)
    requires AreParts(ps) && ps[0] != ""
    ensures NotQuoteNext((Join(ps) + end) + rest)
  {
    assert ((Join(ps) + end) + rest)[0] == ps[0][0];
  }

  lemma FourQuotes(s: string, end: string)
    ensures "''" + (("" + ("''" + s)) + end) == "'''" + ("'" + (s + end))
  {
  }

  lemma FirstPart(ps: seq<string>, end: string)
    requires |ps| > 1
    ensures "'" + (Join(ps) + end) == ("'" + (ps[0] + "''")) + (Join(ps[1..]) + end)
  {
    Reassociate("''", Join(ps[1..]), end);
    Reassociate(ps[0], "''" + Join(ps[1..]), end);
    Reassociate(ps[0], "''", Join(ps[1..]) + end);
    Reassociate("'", ps[0] + "''", Join(ps[1..]) + end);
  }

  /** In step: passed over, whatever follows. Out of step: a comment behind it is not seen. */
  lemma {:induction false} LiteralStep(ps: seq<string>, after: string)
    requires AreParts(ps) && NotQuoteNext(after)
    ensures InStep(ps, false) ==> Passed(LiteralText(ps), after)
    ensures !InStep(ps, false) && after == "/**/" ==> !Copies(LiteralText(ps), after)
    decreases |ps|
  {
    if |ps| == 1 {
      SingleCloses(ps[0], after);
    } else {
      var t := Join(ps[1..]) + "'";
      FirstPart(ps, "'");
      DoubledLeaves(ps[0], t + after);
      Then("'" + (ps[0] + "''"), t, after);
      PartsStep(ps[1..], after);
    }
  }

  lemma {:induction false} PartsStep(ps: seq<string>, after: string)
    requires AreParts(ps) && NotQuoteNext(after)
    ensures InStep(ps, true) ==> Passed(Join(ps) + "'", after)
    ensures !InStep(ps, true) && after == "/**/" ==> !Copies(Join(ps) + "'", after)
    decreases |ps|
  {
    if HasMark(ps[0]) {
      MarkAtStart(ps, "'", after);
    } else if |ps| == 1 {
      PlainPassed(ps[0], "'" + after);
      Then(ps[0], "'", after);
      StuckInside("");
      assert "'" + "" == "'";
    } else {
      var t := Join(ps[1..]) + "'";
      OutsideStep(ps, "'", after);
      Then(ps[0], "''" + t, after);
      if ps[1] != "" {
        Then("''", t, after);
        PartsStep(ps[1..], after);
      } else if |ps| > 2 {
        QuoteRuns(LiteralText(ps[2..]) + after);
        Then("'''", LiteralText(ps[2..]), after);
        LiteralStep(ps[2..], after);
      } else {
        QuoteRuns(after);
        assert "''" + "'" == "'''";
      }
    }
  }

  lemma MarkAtStart(ps: seq<string>, end: string, after: string)
    requires AreParts(ps) && HasMark(ps[0])
    ensures !Copies(Join(ps) + end, after)
  {
    if |ps| == 1 {
      MarkErased(ps[0], end, after);
    } else {
      Reassociate(ps[0], "''" + Join(ps[1..]), end);
      MarkErased(ps[0], ("''" + Join(ps[1..])) + end, after);
    }
  }

  /**
   The exact condition on one literal: the scanner copies it and goes on behind it as the lexer
   does, whatever follows, if and only if it is in step.
   */
  lemma InStepIff(ps: seq<string>)
    requires AreParts(ps)
    ensures InStep(ps, false) <==> forall after | NotQuoteNext(after) :: Copies(LiteralText(ps), after)
  {
    forall after | NotQuoteNext(after) ensures InStep(ps, false) ==> Copies(LiteralText(ps), after) {
      LiteralStep(ps, after);
    }
    LiteralStep(ps, "/**/");
    assert NotQuoteNext("/**/");
  }

  /** A literal without doubled quotes is in step; with one doubled quote it is not; with three quotes at its end after that it is again. */
  lemma StepExamples()
    ensures InStep(["a"], false) && InStep([""], false)
    ensures !InStep(["a", "b"], false) && InStep(["a", "b", ""], false) && !InStep(["a", "--b", ""], false)
  {
    assert ["a", "b"][1..] == ["b"] && ["a", "b", ""][1..] == ["b", ""] && ["a", "--b", ""][1..] == ["--b", ""];
    assert "b"[1..] == "";
  }

  /** An unterminated literal is copied to the end of the text if and only if no part read outside string mode holds a mark. */
  lemma {:induction false} OpenIsCopied(ps: seq<string>)
    requires AreParts(ps)
    ensures Copies("'" + Join(ps), "") <==> Copied(ps, false)
    decreases |ps|
  {
    if |ps| == 1 {
      NeverCloses(ps[0]);
      assert ("'" + ps[0]) + "" == "'" + ps[0];
    } else {
      FirstPart(ps, "");
      assert Join(ps) + "" == Join(ps) && Join(ps[1..]) + "" == Join(ps[1..]);
      DoubledLeaves(ps[0], Join(ps[1..]) + "");
      Then("'" + (ps[0] + "''"), Join(ps[1..]), "");
      OpenPartsCopied(ps[1..]);
    }
  }

  lemma {:induction false} OpenPartsCopied(ps: seq<string>)
    requires AreParts(ps)
    ensures Copies(Join(ps), "") <==> Copied(ps, true)
    decreases |ps|
  {
    assert Join(ps) + "" == Join(ps);
    if HasMark(ps[0]) {
      MarkAtStart(ps, "", "");
    } else if |ps| == 1 {
      PlainPassed(ps[0], "");
    } else {
      var t := Join(ps[1..]);
      assert t + "" == t;
      OutsideStep(ps, "", "");
      Then(ps[0], "''" + t, "");
      if ps[1] != "" {
        Then("''", t, "");
        OpenPartsCopied(ps[1..]);
      } else if |ps| > 2 {
        var u := "'" + Join(ps[2..]);
        assert Join(ps[2..]) + "" == Join(ps[2..]);
        QuoteRuns(u + "");
        Then("'''", u, "");
        OpenIsCopied(ps[2..]);
      } else {
        QuoteRuns("");
        assert "''" + "" == "''";
      }
    }
  }

  // ---- the scanner inside another token ----

  /** A text cut at its quotes. */
  function Cut(s: string): (ps: seq<string>)
    ensures |ps| > 0
  {
    if s == "" then [""]
    else
      var tail := Cut(s[1..]);
      if s[0] == '\'' then [""] + tail else [[s[0]] + tail[0]] + tail[1..]
  }

  function Glue(ps: seq<string>): string {
    if ps == [] then "" else if |ps| == 1 then ps[0] else ps[0] + ("'" + Glue(ps[1..]))
  }

  /**
   Whether the scanner, at the first piece outside string mode or, if `inside`, in it, copies the
   rest of the token and ends outside: a quote takes it in, the next one out again, together with
   a quote right behind that one, and no piece read outside holds a mark.
   */
  predicate Passes(ps: seq<string>, inside: bool)
    decreases |ps|
  {
    if ps == [] then false
    else if !inside then !HasMark(ps[0]) && (|ps| == 1 || Passes(ps[1..], true))
    else |ps| > 1 && (if |ps| > 2 && ps[1] == "" then Passes(ps[2..], false) else Passes(ps[1..], false))
  }

  /** The same for an unterminated token: it only has to be copied. */
  predicate PassesOpen(ps: seq<string>, inside: bool)
    decreases |ps|
  {
    if ps == [] then false
    else if !inside then !HasMark(ps[0]) && (|ps| == 1 || PassesOpen(ps[1..], true))
    else |ps| == 1 || (if |ps| > 2 && ps[1] == "" then PassesOpen(ps[2..], false) else PassesOpen(ps[1..], false))
  }

  /** A character that neither ends a token for the guard nor belongs to a word. */
  predicate Special(c: char) {
    !('a' <= c <= 'z') && !('A' <= c <= 'Z') && !IsWhitespace(c) && c != ';'
  }

  /** The texts of such tokens: they begin with a special character and do not end in half a mark or a quote. */
  predicate Sealed(t: string) {
    t != "" && Special(t[0]) && SealedEnd(t)
  }

  predicate SealedEnd(t: string) {
    t != "" && t[|t| - 1] != '\'' && t[|t| - 1] != '/' && t[|t| - 1] != '-'
  }

  lemma GluePiece(p: string, tail: seq<string>)
    requires |tail| > 0
    ensures Glue([""] + tail) == "'" + Glue(tail)
    ensures Glue([p + tail[0]] + tail[1..]) == p + Glue(tail)
  {
    assert ([""] + tail)[1..] == tail && "" + ("'" + Glue(tail)) == "'" + Glue(tail);
    var grown := [p + tail[0]] + tail[1..];
    if |tail| > 1 {
      assert grown[1..] == tail[1..];
      Reassociate(p, tail[0], "'" + Glue(tail[1..]));
    }
  }

  lemma {:induction false} CutGlues(s: string)
    ensures Glue(Cut(s)) == s
  {
    if s != "" {
      CutGlues(s[1..]);
      GluePiece([s[0]], Cut(s[1..]));
      assert s == [s[0]] + s[1..];
    }
  }

  lemma {:induction false} CutIsParts(s: string)
    ensures AreParts(Cut(s))
  {
    if s != "" {
      CutIsParts(s[1..]);
      var tail := Cut(s[1..]);
      forall i | 0 <= i < |Cut(s)| ensures NoQuote(Cut(s)[i]) {
        if i > 0 {
          assert Cut(s)[i] in tail;
        } else if s[0] != '\'' {
          assert NoQuote(tail[0]) && Cut(s)[0] == [s[0]] + tail[0];
        }
      }
    }
  }

  lemma {:induction false} CutEnds(s: string)
    requires SealedEnd(s)
    ensures SealedEnd(Cut(s)[|Cut(s)| - 1])
  {
    if |s| == 1 {
      assert s[1..] == "" && Cut("") == [""];
    } else {
      CutEnds(s[1..]);
    }
  }

  lemma SingleGlue(ps: seq<string>)
    requires |ps| > 1
    ensures "'" + Glue(ps) == ("'" + (ps[0] + "'")) + Glue(ps[1..])
  {
    Reassociate(ps[0], "'", Glue(ps[1..]));
    Reassociate("'", ps[0] + "'", Glue(ps[1..]));
  }

  lemma DoubledGlue(ps: seq<string>)
    requires |ps| > 2 && ps[1] == ""
    ensures "'" + Glue(ps) == ("'" + (ps[0] + "''")) + Glue(ps[2..])
  {
    var rest := Glue(ps[2..]);
    assert ps[1..][1..] == ps[2..];
    assert "'" + ("" + ("'" + rest)) == "''" + rest;
    Reassociate(ps[0], "''", rest);
    Reassociate("'", ps[0] + "''", rest);
  }

  lemma FirstOfGlue(ps: seq<string>, after: string)
    requires AreParts(ps) && ps[0] != ""
    ensures NotQuoteNext(Glue(ps) + after)
  {
    assert (Glue(ps) + after)[0] == ps[0][0];
  }

  /** A token on whose pieces the scanner is in step is passed over; otherwise a comment behind it is not seen. */
  lemma {:induction false} PiecesStep(ps: seq<string>, after: string)
    requires AreParts(ps) && SealedEnd(ps[|ps| - 1])
    ensures Passes(ps, false) ==> Passed(Glue(ps), after)
    ensures !Passes(ps, false) && after == "/**/" ==> !Copies(Glue(ps), after)
    decreases |ps|
  {
    var rest := if |ps| == 1 then "" else "'" + Glue(ps[1..]);
    assert Glue(ps) == ps[0] + rest;
    if HasMark(ps[0]) {
      MarkErased(ps[0], rest, after);
    } else if |ps| == 1 {
      PlainPassed(ps[0], after);
    } else {
      PlainPassed(ps[0], rest + after);
      Then(ps[0], rest, after);
      InsideStep(ps[1..], after);
    }
  }

  lemma {:induction false} InsideStep(ps: seq<string>, after: string)
    requires AreParts(ps) && SealedEnd(ps[|ps| - 1])
    ensures Passes(ps, true) ==> Passed("'" + Glue(ps), after)
    ensures !Passes(ps, true) && after == "/**/" ==> !Copies("'" + Glue(ps), after)
    decreases |ps|
  {
    if |ps| == 1 {
      StuckInside(ps[0]);
    } else if |ps| > 2 && ps[1] == "" {
      var rest := Glue(ps[2..]);
      DoubledGlue(ps);
      DoubledLeaves(ps[0], rest + after);
      Then("'" + (ps[0] + "''"), rest, after);
      PiecesStep(ps[2..], after);
    } else {
      var rest := Glue(ps[1..]);
      SingleGlue(ps);
      FirstOfGlue(ps[1..], after);
      SingleCloses(ps[0], rest + after);
      Then("'" + (ps[0] + "'"), rest, after);
      PiecesStep(ps[1..], after);
    }
  }

  /**
   The exact condition on a token that the scanner does not know, such as a delimited identifier:
   it is copied and the scan goes on behind it, whatever follows, if and only if its pieces pass.
   */
  lemma PassesIff(t: string)
    requires Sealed(t)
    ensures Passes(Cut(t), false) <==> forall after :: Copies(t, after)
  {
    CutGlues(t);
    CutIsParts(t);
    CutEnds(t);
    forall after ensures Passes(Cut(t), false) ==> Copies(t, after) {
      PiecesStep(Cut(t), after);
    }
    PiecesStep(Cut(t), "/**/");
  }

  /** Such a token without quotes is in step exactly if it holds no mark; with a single quote it never is. */
  lemma PassExamples(t: string, u: string)
    requires NoQuote(t) && NoQuote(u)
    ensures Passes(Cut(t), false) <==> !HasMark(t)
    ensures !Passes(Cut(t + ("'" + u)), false)
  {
    CutPlain(t);
    CutPlain(u);
    CutAtQuote(t, u);
    assert [t, u][1..] == [u];
  }

  lemma {:induction false} CutPlain(t: string)
    requires NoQuote(t)
    ensures Cut(t) == [t]
  {
    if t != "" {
      CutPlain(t[1..]);
      assert [t[0]] + t[1..] == t;
    }
  }

  lemma {:induction false} CutAtQuote(t: string, u: string)
    requires NoQuote(t) && Cut(u) == [u]
    ensures Cut(t + ("'" + u)) == [t, u]
  {
    if t == "" {
      assert t + ("'" + u) == ['\''] + u && (['\''] + u)[1..] == u;
    } else {
      CutAtQuote(t[1..], u);
      assert (t + ("'" + u))[1..] == t[1..] + ("'" + u);
      assert [t[0]] + t[1..] == t;
    }
  }

  lemma {:induction false} OpenPieces(ps: seq<string>)
    requires AreParts(ps)
    ensures Copies(Glue(ps), "") <==> PassesOpen(ps, false)
    decreases |ps|
  {
    var rest := if |ps| == 1 then "" else "'" + Glue(ps[1..]);
    assert Glue(ps) == ps[0] + rest;
    if HasMark(ps[0]) {
      MarkErased(ps[0], rest, "");
    } else if |ps| == 1 {
      PlainPassed(ps[0], "");
    } else {
      PlainPassed(ps[0], rest + "");
      Then(ps[0], rest, "");
      OpenInside(ps[1..]);
    }
  }

  lemma {:induction false} OpenInside(ps: seq<string>)
    requires AreParts(ps)
    ensures Copies("'" + Glue(ps), "") <==> PassesOpen(ps, true)
    decreases |ps|
  {
    if |ps| == 1 {
      NeverCloses(ps[0]);
      assert ("'" + ps[0]) + "" == "'" + ps[0];
    } else if |ps| > 2 && ps[1] == "" {
      var rest := Glue(ps[2..]);
      DoubledGlue(ps);
      DoubledLeaves(ps[0], rest + "");
      Then("'" + (ps[0] + "''"), rest, "");
      OpenPieces(ps[2..]);
    } else {
      var rest := Glue(ps[1..]);
      SingleGlue(ps);
      assert NotQuoteNext(rest + "");
      SingleCloses(ps[0], rest + "");
      Then("'" + (ps[0] + "'"), rest, "");
      OpenPieces(ps[1..]);
    }
  }

  // ---- whole texts ----

  /**
   What a dialect adds: `starts`, a token of its own starts here; `whole`, this text is such a token
   in front of that text; `open`, this text is one that never ends.
   */
  datatype Dialect = Dialect(starts: string -> bool, whole: (string, string) -> bool, open: string -> bool)

  datatype Lexeme =
    | Block(body: Body)               // a complete block comment
    | Line(text: string)              // a line comment, without its newline
    | Quoted(parts: seq<string>)      // a complete literal, cut at its doubled quotes
    | Whole(text: string)             // a complete token of the dialect's own
    | Plain(c: char)                  // any other character
    | OpenBlock(text: string)         // an unterminated block comment
    | OpenQuoted(parts: seq<string>)  // an unterminated literal
    | OpenWhole(text: string)         // an unterminated token of the dialect's own

  /** The text of a lexeme that is not a comment. */
  function Copy(l: Lexeme): string {
    match l
    case Quoted(ps) => LiteralText(ps)
    case OpenQuoted(ps) => "'" + Join(ps)
    case Whole(text) => text
    case OpenWhole(text) => text
    case Plain(c) => [c]
    case _ => ""
  }

  predicate IsComment(l: Lexeme) {
    l.Block? || l.Line? || l.OpenBlock?
  }

  /** The lexeme followed by `after`. */
  function Spell(l: Lexeme, after: string): string {
    match l
    case Block(body) => "/*" + Tail(body, after)
    case Line(text) => "--" + (text + after)
    case OpenBlock(text) => "/*" + (text + after)
    case _ => Copy(l) + after
  }

  function LexText(ls: seq<Lexeme>): string {
    if ls == [] then "" else Spell(ls[0], LexText(ls[1..]))
  }

  /** Comments become one space, everything else stays. */
  function Image(l: Lexeme, after: string): string {
    (if IsComment(l) then " " else Copy(l)) + after
  }

  function LexImage(ls: seq<Lexeme>): string {
    if ls == [] then "" else Image(ls[0], LexImage(ls[1..]))
  }

  /** `l` is a lexeme of its kind when `after` follows it. */
  ghost predicate IsLexeme(d: Dialect, l: Lexeme, after: string) {
    match l
    case Block(body) => WellNested(body)
    case Line(text) => '\n' !in text && (after != "" ==> after[0] == '\n')
    case Quoted(ps) => AreParts(ps) && NotQuoteNext(after)
    case Whole(text) => Sealed(text) && d.whole(text, after)
    case Plain(c) => c != '\'' && Joins([c], after) && !d.starts([c] + after)
    case OpenBlock(text) => after == "" && forall b, r :: WellNested(b) ==> text != Tail(b, r)
    case OpenQuoted(ps) => after == "" && AreParts(ps)
    case OpenWhole(text) => after == "" && text != "" && Special(text[0]) && d.open(text)
  }

  ghost predicate IsLexing(d: Dialect, ls: seq<Lexeme>) {
    ls == [] || (IsLexeme(d, ls[0], LexText(ls[1..])) && IsLexing(d, ls[1..]))
  }

  lemma StripOpenBlock(text: string)
    requires forall b, r :: WellNested(b) ==> text != Tail(b, r)
    ensures Strip("/*" + text) == " "
  {
    assert ("/*" + text)[2..] == text;
    if Closes(text, 1) {
      var b, r := ClosedHasBody(text, 1);
      assert false;
    }
    UnclosedIsConsumed(text, 1);
  }

  /** The scanner keeps step with this lexeme. */
  predicate KeepsStep(l: Lexeme) {
    match l
    case Quoted(ps) => InStep(ps, false)
    case Whole(text) => Passes(Cut(text), false)
    case OpenQuoted(ps) => Copied(ps, false)
    case OpenWhole(text) => PassesOpen(Cut(text), false)
    case _ => true
  }

  predicate AllKeepStep(ls: seq<Lexeme>) {
    forall i :: 0 <= i < |ls| ==> KeepsStep(ls[i])
  }

  lemma WholePassed(t: string, after: string)
    requires Sealed(t) && Passes(Cut(t), false)
    ensures Passed(t, after)
  {
    CutGlues(t);
    CutIsParts(t);
    CutEnds(t);
    PiecesStep(Cut(t), after);
  }

  /** A lexeme that is no comment and is in step is copied. */
  lemma TokenCopied(d: Dialect, l: Lexeme, after: string)
    requires IsLexeme(d, l, after) && KeepsStep(l) && !IsComment(l)
    ensures Copies(Copy(l), after)
    ensures !l.OpenQuoted? && !l.OpenWhole? ==> Passed(Copy(l), after)
  {
    match l
    case Quoted(ps) => LiteralStep(ps, after);
    case Whole(text) => WholePassed(text, after);
    case Plain(c) => OnePassed(c, after);
    case OpenQuoted(ps) => OpenIsCopied(ps);
    case OpenWhole(text) =>
      CutGlues(text);
      CutIsParts(text);
      OpenPieces(Cut(text));
  }

  /** One lexeme at the front is replaced by its image. */
  lemma StripLexeme(d: Dialect, l: Lexeme, after: string)
    requires IsLexeme(d, l, after) && KeepsStep(l)
    ensures Strip(Spell(l, after)) == Image(l, Strip(after))
  {
    var s := Spell(l, after);
    match l
    case Block(body) =>
      assert s[2..] == Tail(body, after);
      BodyCloses(body, after, 1);
    case Line(text) =>
      assert s[2..] == text + after;
      LineEnds(text, after);
    case OpenBlock(text) =>
      assert text + after == text && " " + "" == " ";
      StripOpenBlock(text);
    case _ => TokenCopied(d, l, after);
  }

  /** The index loops agree with the lexer of every dialect on every text whose tokens keep the scanner in step. */
  lemma {:induction false} StripIsLexImage(d: Dialect, ls: seq<Lexeme>)
    requires IsLexing(d, ls) && AllKeepStep(ls)
    ensures Strip(LexText(ls)) == LexImage(ls)
  {
    if ls != [] {
      assert KeepsStep(ls[0]);
      StripLexeme(d, ls[0], LexText(ls[1..]));
      StripIsLexImage(d, ls[1..]);
    }
  }

  // ---- delimited identifiers ----

  /** Inside a delimited identifier every delimiter is doubled. */
  predicate Doubled(m: char, s: string) {
    s == "" || (if s[0] != m then Doubled(m, s[1..]) else |s| > 1 && s[1] == m && Doubled(m, s[2..]))
  }

  predicate IsDelimited(ds: set<char>, t: string) {
    |t| > 1 && t[0] in ds && t[|t| - 1] == t[0] && Doubled(t[0], t[1..|t| - 1])
  }

  /** The dialect whose identifiers can be delimited by the characters of `ds`. */
  function Delimiting(ds: set<char>): Dialect {
    Dialect(
      (s: string) => s != "" && s[0] in ds,
      (t: string, after: string) => IsDelimited(ds, t) && (after == "" || after[0] != t[0]),
      (t: string) => t != "" && t[0] in ds && Doubled(t[0], t[1..]))
  }

  /** The SQL standard has the double quote; the parser's generic dialect has the backtick as well. */
  const DELIMITERS: set<char> := {'"', '`'}

  /** What `ReadIdentifier` finds. */
  predicate IsRead(m: char, s: string, body: string, closed: bool, after: string) {
    && Doubled(m, body) && IsSuffix(after, s)
    && if closed then s == body + ([m] + after) && (after == "" || after[0] != m) else s == body && after == ""
  }

  lemma ReadBehind(m: char, x: string, s: string, body: string, closed: bool, after: string)
    requires IsRead(m, s, body, closed, after) && Doubled(m, x + body)
    ensures IsRead(m, x + s, x + body, closed, after)
  {
    Reassociate(x, body, [m] + after);
    assert (x + s)[|x|..] == s;
    SuffixOfRest(after, x + s, |x|);
  }

  lemma DoubledBehindOne(m: char, c: char, body: string)
    requires c != m && Doubled(m, body)
    ensures Doubled(m, [c] + body)
  {
    assert ([c] + body)[1..] == body;
  }

  lemma DoubledBehindTwo(m: char, body: string)
    requires Doubled(m, body)
    ensures Doubled(m, [m, m] + body)
  {
    assert ([m, m] + body)[2..] == body;
  }

  /** The identifier behind an opening delimiter: its inside, whether it closes, and what follows. */
  lemma {:induction false} ReadIdentifier(m: char, s: string) returns (body: string, closed: bool, after: string)
    ensures IsRead(m, s, body, closed, after)
    decreases |s|
  {
    if s == "" {
      body, closed, after := "", false, "";
    } else if s[0] != m {
      var rest;
      rest, closed, after := ReadIdentifier(m, s[1..]);
      body := [s[0]] + rest;
      DoubledBehindOne(m, s[0], rest);
      ReadBehind(m, [s[0]], s[1..], rest, closed, after);
      assert s == [s[0]] + s[1..];
    } else if |s| > 1 && s[1] == m {
      var rest;
      rest, closed, after := ReadIdentifier(m, s[2..]);
      body := [m, m] + rest;
      DoubledBehindTwo(m, rest);
      ReadBehind(m, [m, m], s[2..], rest, closed, after);
      assert s == [m, m] + s[2..];
    } else {
      body, closed, after := "", true, s[1..];
      assert s == [m] + s[1..] && "" + ([m] + s[1..]) == [m] + s[1..];
    }
  }

  function IdentifierText(m: char, body: string): string {
    [m] + (body + [m])
  }

  lemma IsIdentifier(ds: set<char>, m: char, body: string, after: string)
    requires ds <= DELIMITERS && m in ds && Doubled(m, body) && (after == "" || after[0] != m)
    ensures IsLexeme(Delimiting(ds), Whole(IdentifierText(m, body)), after)
  {
    var t := IdentifierText(m, body);
    assert t[0] == m && t[|t| - 1] == m && t[1..|t| - 1] == body;
    assert m == '"' || m == '`';
  }

  lemma IsOpenIdentifier(ds: set<char>, m: char, body: string)
    requires ds <= DELIMITERS && m in ds && Doubled(m, body)
    ensures IsLexeme(Delimiting(ds), OpenWhole([m] + body), "")
  {
    assert ([m] + body)[1..] == body;
    assert m == '"' || m == '`';
  }

  lemma FirstIdentifier(ds: set<char>, s: string) returns (l: Lexeme, after: string)
    requires ds <= DELIMITERS && s != "" && s[0] in ds
    ensures l.Whole? || l.OpenWhole?
    ensures s == Spell(l, after) && IsLexeme(Delimiting(ds), l, after) && |after| < |s| && IsSuffix(after, s)
  {
    var m := s[0];
    var body, closed, rest := ReadIdentifier(m, s[1..]);
    after := rest;
    SuffixOfRest(after, s, 1);
    assert s == [m] + s[1..];
    if closed {
      IsIdentifier(ds, m, body, after);
      Reassociate(body, [m], after);
      Reassociate([m], body + [m], after);
      l := Whole(IdentifierText(m, body));
    } else {
      IsOpenIdentifier(ds, m, body);
      assert s + "" == s;
      l := OpenWhole([m] + body);
    }
  }

  // ---- every text lexes ----

  ghost predicate NoAdjacentQuotes(s: string) {
    forall i :: 0 <= i < |s| - 1 ==> !(s[i] == '\'' && s[i + 1] == '\'')
  }

  /** The length of the first stretch of `s` without the character `c`. */
  function Before(s: string, c: char): (n: nat)
    ensures n <= |s| && c !in s[..n] && (n < |s| ==> s[n] == c)
  {
    if s == "" || s[0] == c then 0
    else
      var n := Before(s[1..], c);
      assert s[..1 + n] == [s[0]] + s[1..][..n];
      1 + n
  }

  predicate IsSuffix(a: string, s: string) {
    |a| <= |s| && s[|s| - |a|..] == a
  }

  lemma SuffixOfRest(a: string, s: string, k: nat)
    requires k <= |s| && IsSuffix(a, s[k..])
    ensures IsSuffix(a, s)
  {
    assert s[|s| - |a|..] == s[k..][|s| - k - |a|..];
  }

  lemma QuotesTogether(s: string, n: nat)
    requires n + 1 < |s| && s[n] == '\'' && s[n + 1] == '\''
    ensures !NoAdjacentQuotes(s) && s == s[..n] + ("''" + s[n + 2..])
  {
    assert s[n..n + 2] == "''";
  }

  /** The literal behind an opening quote: its parts, whether it closes, and what follows. */
  lemma {:induction false} ReadLiteral(s: string) returns (ps: seq<string>, closed: bool, after: string)
    ensures AreParts(ps) && IsSuffix(after, s)
    ensures closed ==> s == (Join(ps) + "'") + after && NotQuoteNext(after)
    ensures !closed ==> s == Join(ps) && after == ""
    ensures |ps| > 1 ==> !NoAdjacentQuotes(s)
    decreases |s|
  {
    var n := Before(s, '\'');
    var p := s[..n];
    assert NoQuote(p) by { assert forall i :: 0 <= i < |p| ==> p[i] in p; }
    if n == |s| {
      ps, closed, after := [p], false, "";
    } else if n + 1 < |s| && s[n + 1] == '\'' {
      QuotesTogether(s, n);
      var rest;
      rest, closed, after := ReadLiteral(s[n + 2..]);
      SuffixOfRest(after, s, n + 2);
      ps := [p] + rest;
      OneMorePart(p, rest, "'", after);
    } else {
      ps, closed, after := [p], true, s[n + 1..];
      assert s == (p + "'") + s[n + 1..];
    }
  }

  lemma OneMorePart(p: string, ps: seq<string>, end: string, after: string)
    requires NoQuote(p) && AreParts(ps)
    ensures AreParts([p] + ps) && Join([p] + ps) == p + ("''" + Join(ps))
    ensures (Join([p] + ps) + end) + after == p + ("''" + ((Join(ps) + end) + after))
  {
    assert ([p] + ps)[1..] == ps;
    Reassociate("''", Join(ps), end);
    Reassociate(p, "''" + Join(ps), end);
    Reassociate("''", Join(ps) + end, after);
    Reassociate(p, "''" + (Join(ps) + end), after);
  }

  lemma FirstLiteral(d: Dialect, s: string) returns (l: Lexeme, after: string)
    requires s != "" && s[0] == '\''
    ensures s == Spell(l, after) && IsLexeme(d, l, after) && |after| < |s| && IsSuffix(after, s)
    ensures NoAdjacentQuotes(s) ==> KeepsStep(l)
  {
    var ps, closed, rest := ReadLiteral(s[1..]);
    after := rest;
    l := if closed then Quoted(ps) else OpenQuoted(ps);
    assert s == "'" + s[1..] && s + "" == s;
    Reassociate("'", Join(ps) + "'", after);
    SuffixOfRest(after, s, 1);
    if |ps| > 1 {
      AdjacentBefore(s);
    }
  }

  lemma AdjacentBefore(s: string)
    requires s != "" && !NoAdjacentQuotes(s[1..])
    ensures !NoAdjacentQuotes(s)
  {
    var i :| 0 <= i < |s[1..]| - 1 && s[1..][i] == '\'' && s[1..][i + 1] == '\'';
    assert s[i + 1] == '\'' && s[i + 1 + 1] == '\'';
  }

  lemma FirstBlock(d: Dialect, s: string) returns (l: Lexeme, after: string)
    requires Starts(s, '/', '*')
    ensures l.Block? || l.OpenBlock?
    ensures s == Spell(l, after) && IsLexeme(d, l, after) && |after| < |s| && IsSuffix(after, s)
  {
    assert s == "/*" + s[2..];
    if Closes(s[2..], 1) {
      var b, r := ClosedHasBody(s[2..], 1);
      l, after := Block(b), r;
      TailSuffix(b, r);
    } else {
      l, after := OpenBlock(s[2..]), "";
      forall b, r | WellNested(b) ensures s[2..] != Tail(b, r) {
        BodyCloses(b, r, 1);
      }
      assert s[2..] + "" == s[2..];
    }
  }

  /** The first lexeme of a non-empty text, and what follows it. */
  lemma FirstLexeme(ds: set<char>, s: string) returns (l: Lexeme, after: string)
    requires ds <= DELIMITERS && s != ""
    ensures s == Spell(l, after) && IsLexeme(Delimiting(ds), l, after) && |after| < |s| && IsSuffix(after, s)
    ensures NoAdjacentQuotes(s) && s[0] !in ds ==> KeepsStep(l)
  {
    if Starts(s, '/', '*') {
      l, after := FirstBlock(Delimiting(ds), s);
    } else if Starts(s, '-', '-') {
      var n := Before(s[2..], '\n');
      l, after := Line(s[2..][..n]), s[2 + n..];
      assert s == "--" + (s[2..][..n] + s[2 + n..]);
    } else if s[0] == '\'' {
      l, after := FirstLiteral(Delimiting(ds), s);
    } else if s[0] in ds {
      l, after := FirstIdentifier(ds, s);
    } else {
      l, after := Plain(s[0]), s[1..];
      assert s == [s[0]] + s[1..];
    }
  }

  /** No adjacent quotes, and no delimiter of the dialect. */
  ghost predicate Simple(ds: set<char>, s: string) {
    NoAdjacentQuotes(s) && forall i :: 0 <= i < |s| ==> s[i] !in ds
  }

  lemma SimpleRest(ds: set<char>, s: string, after: string)
    requires Simple(ds, s) && IsSuffix(after, s)
    ensures Simple(ds, after)
  {
    assert forall i :: 0 <= i < |after| ==> after[i] == s[|s| - |after| + i];
  }

  /**
   Every text has a lexing, whichever delimiters the dialect has; on a text without adjacent quotes
   and without delimiters the scanner keeps step with all of it.
   */
  lemma {:induction false} EveryTextLexes(ds: set<char>, s: string) returns (ls: seq<Lexeme>)
    requires ds <= DELIMITERS
    ensures IsLexing(Delimiting(ds), ls) && LexText(ls) == s
    ensures Simple(ds, s) ==> AllKeepStep(ls) && Strip(s) == LexImage(ls)
    decreases |s|
  {
    ls := [];
    if s != "" {
      var l, after := FirstLexeme(ds, s);
      var tail := EveryTextLexes(ds, after);
      ls := [l] + tail;
      assert ls[1..] == tail;
      if Simple(ds, s) {
        SimpleRest(ds, s, after);
      }
    }
    if Simple(ds, s) {
      StripIsLexImage(Delimiting(ds), ls);
    }
  }

  // ---- where the agreement fails ----

  lemma TwoParts(p: string, q: string)
    ensures Join([p, q]) == p + ("''" + q)
  {
    assert [p, q][1..] == [q];
  }

  /** A text that is one token. */
  lemma OneToken(d: Dialect, l: Lexeme)
    requires IsLexeme(d, l, "") && !IsComment(l)
    ensures IsLexing(d, [l]) && LexText([l]) == LexImage([l]) == Copy(l)
  {
    assert [l][1..] == [] && Copy(l) + "" == Copy(l);
  }

  /**
   A comment mark behind the doubled quote of a literal is where the agreement fails first: the
   text is one literal and its image is the text itself, but the scanner cuts a comment out.
   */
  lemma MarkBehindDoubledQuote(d: Dialect, p: string, q: string)
    requires NoQuote(p) && NoQuote(q) && HasMark(q)
    ensures var ls := [Quoted([p, q])];
            && IsLexing(d, ls) && LexText(ls) == LiteralText([p, q]) == LexImage(ls)
            && Strip(LexText(ls)) != LexImage(ls)
  {
    OneToken(d, Quoted([p, q]));
    FirstPart([p, q], "'");
    assert [p, q][1..] == [q] && LiteralText([p, q]) + "" == LiteralText([p, q]);
    DoubledLeaves(p, (q + "'") + "");
    Then("'" + (p + "''"), q + "'", "");
    MarkErased(q, "'", "");
  }

  lemma ItsParts()
    ensures NoQuote("it") && NoQuote("s--x") && HasMark("s--x") && LiteralText(["it", "s--x"]) == "'it''s--x'"
  {
    assert "s--x"[1..] == "--x";
    TwoParts("it", "s--x");
    assert "'" + (("it" + ("''" + "s--x")) + "'") == "'it''s--x'";
  }

  lemma DoubledQuoteEndsLiteral(d: Dialect)
    ensures var ls := [Quoted(["it", "s--x"])];
            IsLexing(d, ls) && LexText(ls) == LexImage(ls) == "'it''s--x'" && Strip("'it''s--x'") != "'it''s--x'"
  {
    ItsParts();
    MarkBehindDoubledQuote(d, "it", "s--x");
  }

  // ---- ending outside literals and comments ----

  /** In SQL terms: every comment, literal and other token of the text is closed. */
  predicate Closed(ls: seq<Lexeme>) {
    && (forall i :: 0 <= i < |ls| ==> !ls[i].OpenBlock? && !ls[i].OpenQuoted? && !ls[i].OpenWhole?)
    && (ls != [] ==> !ls[|ls| - 1].Line?)
  }

  /** A text that SQL reads as closed, and with which the scanner keeps step, ends outside for the scanner too. */
  lemma {:induction false} ClosedEndsOutside(d: Dialect, ls: seq<Lexeme>)
    requires IsLexing(d, ls) && Closed(ls) && AllKeepStep(ls)
    ensures EndsOutside(LexText(ls))
  {
    if ls != [] {
      var l, rest := ls[0], ls[1..];
      var s, after := LexText(ls), LexText(rest);
      assert KeepsStep(l);
      ClosedEndsOutside(d, rest);
      match l
      case Block(body) =>
        assert s[2..] == Tail(body, after);
        BodyCloses(body, after, 1);
      case Line(text) =>
        assert s[2..] == text + after;
        LineEnds(text, after);
        assert rest != [];
        SomeText(d, rest);
      case _ => TokenCopied(d, l, after);
    }
  }

  lemma SomeText(d: Dialect, ls: seq<Lexeme>)
    requires IsLexing(d, ls) && ls != []
    ensures LexText(ls) != ""
  {
    match ls[0]
    case Block(body) => assert |LexText(ls)| >= 2;
    case _ =>
  }
}
