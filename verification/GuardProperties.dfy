/** What the statement guard of src/lib.rs rejects, in terms of SQL statements. */
module GuardProperties {
  import opened Prelude
  import opened Texts
  import opened DdlGuard
  import opened SqlLexing

  // ---- joining texts ----

  function OrElse(a: Option<string>, b: Option<string>): Option<string> {
    if a.Some? then a else b
  }

  lemma {:induction false} FirstOffenceAppend(a: seq<string>, b: seq<string>)
    ensures FirstOffence(a + b) == OrElse(FirstOffence(a), FirstOffence(b))
  {
    if a == [] {
      assert a + b == b;
    } else {
      FirstOffenceAppend(a[1..], b);
      assert (a + b)[1..] == a[1..] + b;
    }
  }

  lemma {:induction false} SplitAtSemicolon(a: string, b: string)
    ensures Split(a + (";" + b)) == Split(a) + Split(b)
  {
    if a == "" {
      assert a + (";" + b) == [';'] + b;
      SplitCons(';', b);
    } else {
      var rest := a[1..] + (";" + b);
      SplitAtSemicolon(a[1..], b);
      assert a == [a[0]] + a[1..] && a + (";" + b) == [a[0]] + rest;
      SplitCons(a[0], rest);
      SplitCons(a[0], a[1..]);
      PushFront(a[0], Split(a[1..]), Split(b));
    }
  }

  lemma PushFront(c: char, x: seq<string>, y: seq<string>)
    requires |x| > 0
    ensures [""] + (x + y) == ([""] + x) + y
    ensures [[c] + (x + y)[0]] + (x + y)[1..] == ([[c] + x[0]] + x[1..]) + y
  {
  }

  lemma SplitCons(c: char, s: string)
    ensures var tail := Split(s);
            Split([c] + s) == if c == ';' then [""] + tail else [[c] + tail[0]] + tail[1..]
  {
  }

  lemma {:induction false} BlockAppend(s: string, t: string, depth: nat)
    requires Closes(s, depth)
    ensures AfterBlock(s + t, depth) == AfterBlock(s, depth) + t
    decreases |s|
  {
    if depth > 0 {
      if Starts(s, '/', '*') {
        BlockAppend(s[2..], t, depth + 1);
        assert (s + t)[2..] == s[2..] + t;
      } else if Starts(s, '*', '/') {
        BlockAppend(s[2..], t, depth - 1);
        assert (s + t)[2..] == s[2..] + t;
      } else {
        BlockAppend(s[1..], t, depth);
        assert (s + t)[1..] == s[1..] + t;
      }
    }
  }

  lemma {:induction false} LineAppend(s: string, t: string)
    requires AfterLine(s) != ""
    ensures AfterLine(s + t) == AfterLine(s) + t
  {
    if s[0] != '\n' {
      LineAppend(s[1..], t);
      assert (s + t)[1..] == s[1..] + t;
    }
  }

  lemma {:induction false} LiteralAppend(s: string, t: string)
    requires LiteralLength(s) > 0 && s[LiteralLength(s) - 1] == '\''
    requires t != "" ==> t[0] != '\''
    ensures LiteralLength(s + t) == LiteralLength(s)
  {
    if s[0] != '\'' {
      LiteralAppend(s[1..], t);
      assert (s + t)[1..] == s[1..] + t;
    }
  }

  /** A text that ends outside is stripped without looking at what follows it. */
  lemma {:induction false} StripAppend(s: string, t: string)
    requires EndsOutside(s) && (t != "" ==> t[0] !in {'/', '*', '-', '\''})
    ensures Strip(s + t) == Strip(s) + Strip(t)
    decreases |s|, 1
  {
    if s == "" {
      assert s + t == t;
    } else if Starts(s, '/', '*') || Starts(s, '-', '-') {
      StripCommentAppend(s, t);
    } else if s[0] == '\'' {
      StripLiteralAppend(s, t);
    } else {
      assert (s + t)[1..] == s[1..] + t;
      StripAppend(s[1..], t);
      Reassociate([s[0]], Strip(s[1..]), Strip(t));
    }
  }

  lemma {:induction false} StripCommentAppend(s: string, t: string)
    requires EndsOutside(s) && (t != "" ==> t[0] !in {'/', '*', '-', '\''})
    requires Starts(s, '/', '*') || Starts(s, '-', '-')
    ensures Strip(s + t) == Strip(s) + Strip(t)
    decreases |s|, 0
  {
    var rest := if Starts(s, '/', '*') then AfterBlock(s[2..], 1) else AfterLine(s[2..]);
    assert (s + t)[2..] == s[2..] + t;
    if Starts(s, '/', '*') { BlockAppend(s[2..], t, 1); } else { LineAppend(s[2..], t); }
    StripAppend(rest, t);
    Reassociate(" ", Strip(rest), Strip(t));
  }

  lemma LiteralSplits(s: string, n: nat, t: string)
    requires 1 <= n <= |s|
    ensures s + t == s[..n] + (s[n..] + t) && s[1..] + t == s[..n][1..] + (s[n..] + t)
  {
  }

  lemma {:induction false} StripLiteralAppend(s: string, t: string)
    requires EndsOutside(s) && (t != "" ==> t[0] !in {'/', '*', '-', '\''})
    requires s != "" && s[0] == '\''
    ensures Strip(s + t) == Strip(s) + Strip(t)
    decreases |s|, 0
  {
    var n := 1 + LiteralLength(s[1..]);
    var lit, rest := s[..n], s[n..];
    StripAppend(rest, t);
    LiteralAppend(s[1..], t);
    LiteralSplits(s, n, t);
    StripRebuilt(lit, rest + t);
    Reassociate(lit, Strip(rest), Strip(t));
  }

  /** The verdict on a text that ends outside, a semicolon, and another text. */
  lemma JoinedOutside(a: string, b: string)
    requires EndsOutside(a)
    ensures Verdict(a + ";" + b) == OrElse(Verdict(a), Verdict(b))
  {
    var t := ";" + b;
    assert a + ";" + b == a + t;
    StripAppend(a, t);
    assert t[1..] == b && Strip(t) == ";" + Strip(b);
    SplitAtSemicolon(Strip(a), Strip(b));
    FirstOffenceAppend(Split(Strip(a)), Split(Strip(b)));
  }

  /**
   The verdict on two texts joined by a semicolon is the verdict on the first, or else on the
   second, whenever SQL reads the first as closed and the scanner keeps step with it.
   */
  lemma JoinedVerdict(d: Dialect, ls: seq<Lexeme>, b: string)
    requires IsLexing(d, ls) && Closed(ls) && AllKeepStep(ls)
    ensures Verdict(LexText(ls) + ";" + b) == OrElse(Verdict(LexText(ls)), Verdict(b))
  {
    ClosedEndsOutside(d, ls);
    JoinedOutside(LexText(ls), b);
  }

  // ---- joining when the scanner is still inside ----

  const HIDDEN := "/**/COPY x"

  lemma {:induction false} StaysOpen(s: string, depth: nat)
    requires depth > 0 && !Closes(s, depth)
    ensures !Closes(s + (";" + HIDDEN), depth)
    decreases |s|
  {
    var t := ";" + HIDDEN;
    if s == "" {
      assert s + t == t;
      HiddenStaysOpen(depth);
    } else if Starts(s, '/', '*') {
      StaysOpen(s[2..], depth + 1);
      assert (s + t)[2..] == s[2..] + t;
    } else if Starts(s, '*', '/') {
      StaysOpen(s[2..], depth - 1);
      assert (s + t)[2..] == s[2..] + t;
    } else {
      StaysOpen(s[1..], depth);
      assert (s + t)[1..] == s[1..] + t;
    }
  }

  lemma HiddenStaysOpen(depth: nat)
    requires depth > 0
    ensures !Closes(";" + HIDDEN, depth)
  {
    var t := ";" + HIDDEN;
    assert t[1..] == HIDDEN && HIDDEN[2..] == "*/COPY x" && "*/COPY x"[2..] == "COPY x";
    NoMarksStayOpen("COPY x", depth);
    assert Closes("*/COPY x", depth + 1) == Closes("COPY x", depth);
    assert Closes(HIDDEN, depth) == Closes("*/COPY x", depth + 1);
  }

  lemma {:induction false} NoMarksStayOpen(s: string, depth: nat)
    requires depth > 0 && forall i :: 0 <= i < |s| ==> s[i] != '*'
    ensures !Closes(s, depth)
  {
    if s != "" {
      NoMarksStayOpen(s[1..], depth);
    }
  }

  lemma {:induction false} LineStaysOpen(s: string, t: string)
    requires AfterLine(s) == "" && '\n' !in t
    ensures AfterLine(s + t) == ""
  {
    if s == "" {
      assert s + t == t;
      LineEnds(t, "");
      assert t + "" == t;
    } else {
      LineStaysOpen(s[1..], t);
      assert (s + t)[1..] == s[1..] + t;
    }
  }

  /** A literal that the scanner does not see closed holds no quote. */
  lemma {:induction false} UnclosedHasNoQuote(s: string)
    requires LiteralLength(s) == 0 || s[LiteralLength(s) - 1] != '\''
    ensures NoQuote(s)
  {
    if s != "" {
      UnclosedHasNoQuote(s[1..]);
      assert s == [s[0]] + s[1..];
    }
  }

  lemma HiddenText()
    ensures NoQuote(";" + HIDDEN) && '\n' !in (";" + HIDDEN) && (";" + HIDDEN)[0] == ';'
  {
  }

  /** Inside a comment the hidden text is swallowed; inside a literal it is copied. */
  lemma {:induction false} InsideAppend(a: string)
    requires !EndsOutside(a)
    ensures Strip(a + (";" + HIDDEN)) == Strip(a) || Strip(a + (";" + HIDDEN)) == Strip(a) + (";" + HIDDEN)
    decreases |a|, 1
  {
    var t := ";" + HIDDEN;
    HiddenText();
    if Starts(a, '/', '*') || Starts(a, '-', '-') {
      InsideComment(a);
    } else if a[0] == '\'' {
      InsideLiteral(a);
    } else {
      InsideAppend(a[1..]);
      assert (a + t)[1..] == a[1..] + t;
      Reassociate([a[0]], Strip(a[1..]), t);
    }
  }

  lemma {:induction false} InsideComment(a: string)
    requires !EndsOutside(a) && (Starts(a, '/', '*') || Starts(a, '-', '-'))
    ensures Strip(a + (";" + HIDDEN)) == Strip(a) || Strip(a + (";" + HIDDEN)) == Strip(a) + (";" + HIDDEN)
    decreases |a|, 0
  {
    var t := ";" + HIDDEN;
    HiddenText();
    assert (a + t)[2..] == a[2..] + t;
    if Starts(a, '/', '*') && !Closes(a[2..], 1) {
      StaysOpen(a[2..], 1);
      UnclosedIsConsumed(a[2..], 1);
      UnclosedIsConsumed(a[2..] + t, 1);
    } else if Starts(a, '-', '-') && AfterLine(a[2..]) == "" {
      LineStaysOpen(a[2..], t);
    } else {
      var rest := if Starts(a, '/', '*') then AfterBlock(a[2..], 1) else AfterLine(a[2..]);
      if Starts(a, '/', '*') { BlockAppend(a[2..], t, 1); } else { LineAppend(a[2..], t); }
      InsideAppend(rest);
      Reassociate(" ", Strip(rest), t);
    }
  }

  lemma CopiedToTheEnd(p: string, t: string)
    requires NoQuote(p) && NoQuote(t)
    ensures Strip("'" + p + t) == Strip("'" + p) + t
  {
    NeverCloses(p);
    NeverCloses(p + t);
    Reassociate("'", p, t);
  }

  lemma {:induction false} InsideLiteral(a: string)
    requires !EndsOutside(a) && a != "" && a[0] == '\''
    ensures Strip(a + (";" + HIDDEN)) == Strip(a) || Strip(a + (";" + HIDDEN)) == Strip(a) + (";" + HIDDEN)
    decreases |a|, 0
  {
    var t := ";" + HIDDEN;
    HiddenText();
    var n := LiteralLength(a[1..]);
    if n > 0 && a[n] == '\'' {
      var lit, rest := a[..1 + n], a[1 + n..];
      InsideAppend(rest);
      LiteralAppend(a[1..], t);
      LiteralSplits(a, 1 + n, t);
      StripRebuilt(lit, rest + t);
      Reassociate(lit, Strip(rest), t);
    } else {
      UnclosedHasNoQuote(a[1..]);
      assert a == "'" + a[1..];
      CopiedToTheEnd(a[1..], t);
    }
  }

  /** Verbs are words of capital letters. */
  lemma VerbsAreWords(v: string)
    requires v in VERBS
    ensures v != "" && forall i :: 0 <= i < |v| ==> 'A' <= v[i] <= 'Z'
  {
    var i :| 0 <= i < |VERBS| && VERBS[i] == v;
    assert i == 0 || i == 1 || i == 2 || i == 3 || i == 4;
  }

  predicate HasSpecial(s: string) {
    exists i :: 0 <= i < |s| && Special(s[i])
  }

  /** A token that is a verb has no special character. */
  lemma OffenceHasNoSpecial(s: string)
    requires Offence(s).Some?
    ensures !HasSpecial(FirstToken(s))
  {
    var token := FirstToken(s);
    VerbsAreWords(Upper(token));
    forall i | 0 <= i < |token| ensures !Special(token[i]) {
      assert 'A' <= Upper(token)[i] <= 'Z';
    }
  }

  /** A statement that begins with a special character does not offend. */
  lemma SpecialIsQuiet(s: string)
    requires s != "" && Special(s[0])
    ensures Offence(s) == None
  {
    assert TrimStart(s) == s && FirstToken(s)[0] == s[0];
    if Offence(s).Some? {
      OffenceHasNoSpecial(s);
    }
  }

  predicate NoSemicolons(s: string) {
    forall i :: 0 <= i < |s| ==> s[i] != ';'
  }

  lemma QuietAlone(s: string)
    requires Offence(s) == None
    ensures FirstOffence([s]) == None
  {
    assert [s][1..] == [];
  }

  /** A text without semicolons that begins with a special character offends nobody. */
  lemma SpecialTextIsQuiet(s: string)
    requires s != "" && Special(s[0]) && NoSemicolons(s)
    ensures FirstOffence(Split(s)) == None
  {
    NoSemicolon(s);
    SpecialIsQuiet(s);
    QuietAlone(s);
  }

  lemma HiddenShape()
    ensures HIDDEN != "" && Special(HIDDEN[0]) && NoSemicolons(HIDDEN)
  {
  }

  lemma HiddenIsQuiet()
    ensures FirstOffence(Split(HIDDEN)) == None
  {
    HiddenShape();
    SpecialTextIsQuiet(HIDDEN);
  }

  lemma {:induction false} NoSemicolon(s: string)
    requires forall i :: 0 <= i < |s| ==> s[i] != ';'
    ensures Split(s) == [s]
  {
    if s != "" {
      NoSemicolon(s[1..]);
      assert [s[0]] + s[1..] == s;
    }
  }

  lemma {:induction false} WordStops(word: string, s: string)
    requires forall i :: 0 <= i < |word| ==> !IsWhitespace(word[i])
    ensures TakeWord(word + s) == word + TakeWord(s)
  {
    if word == "" {
      assert word + s == s;
    } else {
      WordStops(word[1..], s);
      assert (word + s)[1..] == word[1..] + s;
    }
  }

  // ---- white space and comments in front ----

  /** White space in front changes no piece but the first, and not its offence. */
  lemma {:induction false} BlankFirst(blank: string, s: string)
    requires forall i :: 0 <= i < |blank| ==> IsWhitespace(blank[i])
    ensures Offence(Split(blank + s)[0]) == Offence(Split(s)[0]) && Split(blank + s)[1..] == Split(s)[1..]
  {
    if blank == "" {
      assert blank + s == s;
    } else {
      BlankFirst(blank[1..], s);
      assert (blank + s)[1..] == blank[1..] + s;
      var tail := Split(blank[1..] + s);
      assert ([blank[0]] + tail[0])[1..] == tail[0];
      assert ([[blank[0]] + tail[0]] + tail[1..])[1..] == tail[1..];
    }
  }

  /** A complete comment: a nested block comment, or a line comment with its newline. */
  ghost predicate IsCompleteComment(c: string) {
    || (exists b :: WellNested(b) && c == "/*" + Tail(b, ""))
    || (exists text :: '\n' !in text && c == "--" + (text + "\n"))
  }

  /** What may stand before the first word of a statement: one blank character or one complete comment. */
  ghost predicate IsGap(g: string) {
    IsCompleteComment(g) || (|g| == 1 && IsWhitespace(g[0]))
  }

  lemma BlockGap(b: Body, sql: string) returns (blank: string)
    requires WellNested(b)
    ensures (forall i :: 0 <= i < |blank| ==> IsWhitespace(blank[i])) && Strip("/*" + Tail(b, "") + sql) == blank + Strip(sql)
  {
    blank := " ";
    TailAppend(b, "", sql);
    assert "" + sql == sql;
    Reassociate("/*", Tail(b, ""), sql);
    StripLexeme(Delimiting({}), Block(b), sql);
  }

  lemma LineGap(text: string, sql: string) returns (blank: string)
    requires '\n' !in text
    ensures (forall i :: 0 <= i < |blank| ==> IsWhitespace(blank[i])) && Strip("--" + (text + "\n") + sql) == blank + Strip(sql)
  {
    blank := " " + "\n";
    var after := "\n" + sql;
    Reassociate("--", text + "\n", sql);
    Reassociate(text, "\n", sql);
    StripLexeme(Delimiting({}), Line(text), after);
    assert after[1..] == sql && Strip(after) == "\n" + Strip(sql);
    Reassociate(" ", "\n", Strip(sql));
  }

  lemma GapIsBlank(g: string, sql: string) returns (blank: string)
    requires IsGap(g)
    ensures (forall i :: 0 <= i < |blank| ==> IsWhitespace(blank[i])) && Strip(g + sql) == blank + Strip(sql)
  {
    if b :| WellNested(b) && g == "/*" + Tail(b, "") {
      blank := BlockGap(b, sql);
    } else if text :| '\n' !in text && g == "--" + (text + "\n") {
      blank := LineGap(text, sql);
    } else {
      blank := g;
      assert (g + sql)[1..] == sql && g == [g[0]];
    }
  }

  /** Putting any complete comment or blank in front of a text never changes the verdict on it. */
  lemma CommentPrefixKeepsVerdict(g: string, sql: string)
    requires IsGap(g)
    ensures Verdict(g + sql) == Verdict(sql)
    ensures Offence(Split(Strip(g + sql))[0]) == Offence(Split(Strip(sql))[0])
  {
    var blank := GapIsBlank(g, sql);
    BlankFirst(blank, Strip(sql));
  }

  function GapText(gs: seq<string>): string {
    if gs == [] then "" else gs[0] + GapText(gs[1..])
  }

  lemma {:induction false} GapsKeepVerdict(gs: seq<string>, sql: string)
    requires forall i :: 0 <= i < |gs| ==> IsGap(gs[i])
    ensures Verdict(GapText(gs) + sql) == Verdict(sql)
    ensures Offence(Split(Strip(GapText(gs) + sql))[0]) == Offence(Split(Strip(sql))[0])
  {
    if gs == [] {
      assert "" + sql == sql;
    } else {
      Reassociate(gs[0], GapText(gs[1..]), sql);
      CommentPrefixKeepsVerdict(gs[0], GapText(gs[1..]) + sql);
      GapsKeepVerdict(gs[1..], sql);
    }
  }

  // ---- verbs ----

  lemma {:induction false} StripWord(word: string, s: string)
    requires forall i :: 0 <= i < |word| ==> word[i] !in {'/', '-', '\''}
    ensures Strip(word + s) == word + Strip(s)
  {
    if word == "" {
      assert word + s == s;
    } else {
      StripWord(word[1..], s);
      assert word == [word[0]] + word[1..];
      Reassociate([word[0]], word[1..], s);
      StripOne(word[0], word[1..] + s);
      Reassociate([word[0]], word[1..], Strip(s));
    }
  }

  lemma StripOne(c: char, s: string)
    requires c !in {'/', '-', '\''}
    ensures Strip([c] + s) == [c] + Strip(s)
  {
    assert ([c] + s)[1..] == s;
  }

  ghost predicate IsLetters(word: string) {
    forall i :: 0 <= i < |word| ==> 'a' <= word[i] <= 'z' || 'A' <= word[i] <= 'Z'
  }

  /** The verb is a token of its own: the text ends, or a blank, a semicolon or a comment follows. */
  predicate TokenEnds(tail: string) {
    || tail == "" || IsWhitespace(tail[0]) || tail[0] == ';'
    || Starts(tail, '/', '*') || Starts(tail, '-', '-')
  }

  lemma {:induction false} SplitWord(word: string, s: string)
    requires forall i :: 0 <= i < |word| ==> word[i] != ';'
    ensures Split(word + s) == [word + Split(s)[0]] + Split(s)[1..]
  {
    if word == "" {
      assert word + s == s && "" + Split(s)[0] == Split(s)[0];
    } else {
      SplitWord(word[1..], s);
      assert (word + s)[1..] == word[1..] + s;
      Reassociate([word[0]], word[1..], Split(s)[0]);
      assert [word[0]] + word[1..] == word;
    }
  }

  /** The first piece of what follows the verb is blank at its start exactly if the token ends. */
  lemma FirstPiece(tail: string)
    ensures var piece := Split(Strip(tail))[0];
            TokenEnds(tail) <==> piece == "" || IsWhitespace(piece[0])
  {
    StripHead(tail);
    var u := Strip(tail);
    if u != "" && u[0] != ';' {
      assert Split(u)[0][0] == u[0];
    }
  }

  lemma VerbHasLetters(verb: string)
    requires IsLetters(verb) && Upper(verb) in VERBS
    ensures verb != "" && !IsWhitespace(verb[0])
  {
    VerbsAreWords(Upper(verb));
  }

  /** A verb at the start of a statement is the statement's first token exactly when the token ends behind it. */
  lemma VerbIsCaughtIff(gs: seq<string>, verb: string, tail: string)
    requires forall i :: 0 <= i < |gs| ==> IsGap(gs[i])
    requires IsLetters(verb) && Upper(verb) in VERBS
    ensures Offence(Split(Strip(GapText(gs) + (verb + tail)))[0]) == Some(Upper(verb)) <==> TokenEnds(tail)
  {
    GapsKeepVerdict(gs, verb + tail);
    StripWord(verb, tail);
    SplitWord(verb, Strip(tail));
    var piece := Split(Strip(tail))[0];
    VerbHasLetters(verb);
    assert TrimStart(verb + piece) == verb + piece;
    WordStops(verb, piece);
    FirstPiece(tail);
    assert verb + "" == verb;
    if !TokenEnds(tail) {
      assert |verb + TakeWord(piece)| > |verb|;
    }
  }

  lemma FirstVerbIsCaught(gs: seq<string>, verb: string, tail: string)
    requires forall i :: 0 <= i < |gs| ==> IsGap(gs[i])
    requires IsLetters(verb) && Upper(verb) in VERBS && TokenEnds(tail)
    ensures Verdict(GapText(gs) + (verb + tail)) == Some(Upper(verb))
  {
    VerbIsCaughtIff(gs, verb, tail);
  }

  /**
   A disallowed verb at the start of a statement is caught in any letter case, behind any blanks
   and comments and behind any earlier statements that SQL reads as closed and with which the
   scanner keeps step, unless an earlier statement is rejected first.
   */
  lemma VerbIsCaught(d: Dialect, ls: seq<Lexeme>, gs: seq<string>, verb: string, tail: string)
    requires IsLexing(d, ls) && Closed(ls) && AllKeepStep(ls)
    requires forall i :: 0 <= i < |gs| ==> IsGap(gs[i])
    requires IsLetters(verb) && Upper(verb) in VERBS && TokenEnds(tail)
    ensures Verdict(LexText(ls) + ";" + (GapText(gs) + (verb + tail))) ==
            OrElse(Verdict(LexText(ls)), Some(Upper(verb)))
  {
    FirstVerbIsCaught(gs, verb, tail);
    JoinedVerdict(d, ls, GapText(gs) + (verb + tail));
  }

  // ---- exactly when statements can be judged one by one ----

  lemma CommentGap()
    ensures IsGap("/**/") && GapText(["/**/"]) == "/**/"
  {
    assert Tail(Done, "") == "*/";
    assert WellNested(Done) && "/**/" == "/*" + Tail(Done, "");
    assert ["/**/"][1..] == [] && "/**/" + "" == "/**/";
  }

  lemma VerbNames(verb: string)
    ensures verb in VERBS <==> verb in {"INSTALL", "LOAD", "ATTACH", "COPY", "EXTENSION"}
  {
    var v := VERBS;
    assert v[0] == "INSTALL" && v[1] == "LOAD" && v[2] == "ATTACH" && v[3] == "COPY" && v[4] == "EXTENSION";
  }

  lemma VerbIsUpper(verb: string)
    requires verb in VERBS
    ensures IsLetters(verb) && Upper(verb) == verb
  {
    VerbsAreWords(verb);
  }

  /** What is caught, by name, at the end of the text or in front of any blank; and nothing else is. */
  lemma FiveVerbs(verb: string, blank: char, s: string)
    requires verb in {"INSTALL", "LOAD", "ATTACH", "COPY", "EXTENSION"}
    requires blank as int in {9, 10, 11, 12, 13, 32, 133, 160, 5760, 8232, 8233, 8239, 8287, 12288} || 8192 <= blank as int <= 8202
    ensures Verdict(verb) == Some(verb) && Verdict(verb + [blank]) == Some(verb)
    ensures Verdict(s).Some? ==> Verdict(s).value in {"INSTALL", "LOAD", "ATTACH", "COPY", "EXTENSION"}
  {
    VerbNames(verb);
    VerbIsUpper(verb);
    BlanksAre(blank);
    assert GapText([]) + (verb + "") == verb && GapText([]) + (verb + [blank]) == verb + [blank];
    FirstVerbIsCaught([], verb, "");
    FirstVerbIsCaught([], verb, [blank]);
    OffenceIsVerb(Split(Strip(s)));
  }

  lemma {:induction false} OffenceIsVerb(pieces: seq<string>)
    ensures FirstOffence(pieces).Some? ==> FirstOffence(pieces).value in {"INSTALL", "LOAD", "ATTACH", "COPY", "EXTENSION"}
  {
    if pieces != [] {
      OffenceIsVerb(pieces[1..]);
      VerbNames(Upper(FirstToken(pieces[0])));
    }
  }

  lemma HiddenAloneIsCaught()
    ensures Verdict(HIDDEN) == Some("COPY")
  {
    CommentGap();
    UpperVerb();
    FirstVerbIsCaught(["/**/"], "COPY", " x");
    assert "/**/" + ("COPY" + " x") == HIDDEN;
  }

  lemma UpperVerb()
    ensures Upper("COPY") == "COPY" && "COPY" in VERBS
  {
    assert VERBS[3] == "COPY";
  }

  /** While the scanner is inside, the hidden statement is not seen. */
  lemma HiddenIsMissed(a: string)
    requires !EndsOutside(a) && Verdict(a).None?
    ensures Verdict(a + ";" + HIDDEN).None?
  {
    InsideAppend(a);
    Reassociate(a, ";", HIDDEN);
    SplitAtSemicolon(Strip(a), HIDDEN);
    FirstOffenceAppend(Split(Strip(a)), Split(HIDDEN));
    HiddenIsQuiet();
  }

  /**
   The exact condition: behind an accepted text every second text is judged as if it stood alone
   if and only if the scan of the first ends outside literals and comments.
   */
  lemma JoinedVerdictIff(a: string)
    requires Verdict(a).None?
    ensures EndsOutside(a) <==> forall b :: Verdict(a + ";" + b) == Verdict(b)
  {
    if EndsOutside(a) {
      forall b ensures Verdict(a + ";" + b) == Verdict(b) {
        JoinedOutside(a, b);
      }
    } else {
      HiddenIsMissed(a);
      HiddenAloneIsCaught();
      assert Verdict(a + ";" + HIDDEN) != Verdict(HIDDEN);
    }
  }

  /** What hides the statement behind it: one closed token at whose end the scanner is still inside. */
  lemma TokenHidesStatement(d: Dialect, l: Lexeme)
    requires IsLexeme(d, l, "") && !IsComment(l) && Closed([l]) && !EndsOutside(Copy(l)) && Verdict(Copy(l)) == None
    ensures IsLexing(d, [l]) && LexText([l]) == Copy(l)
    ensures Verdict(HIDDEN) == Some("COPY") && Verdict(LexText([l]) + ";" + HIDDEN) == None
  {
    OneToken(d, l);
    HiddenIsMissed(Copy(l));
    HiddenAloneIsCaught();
  }

  /** A text that is copied, begins with a special character and has no semicolon is accepted. */
  lemma CopiedIsQuiet(t: string)
    requires t != "" && Special(t[0]) && Strip(t) == t && NoSemicolons(t)
    ensures Verdict(t) == None
  {
    SpecialTextIsQuiet(t);
  }

  /** In string mode from a quote to the end. */
  lemma EndsInside(a: string, p: string)
    requires Passed(a, "'" + p) && NoQuote(p)
    ensures Strip(a + ("'" + p)) == a + ("'" + p) && !EndsOutside(a + ("'" + p))
  {
    NeverCloses(p);
  }

  /** A token with which the scanner loses step for good: copied, and then in string mode to its end. */
  lemma StuckTokenHides(d: Dialect, l: Lexeme, a: string, p: string)
    requires IsLexeme(d, l, "") && !IsComment(l) && Closed([l]) && Copy(l) == a + ("'" + p)
    requires Passed(a, "'" + p) && NoQuote(p) && Special(Copy(l)[0]) && NoSemicolons(Copy(l))
    ensures IsLexing(d, [l]) && LexText([l]) == Copy(l)
    ensures Verdict(HIDDEN) == Some("COPY") && Verdict(LexText([l]) + ";" + HIDDEN) == None
  {
    EndsInside(a, p);
    CopiedIsQuiet(Copy(l));
    TokenHidesStatement(d, l);
  }

  lemma DoubledThenPlain(p: string, q: string)
    requires NoQuote(p) && NoQuote(q) && !HasMark(q)
    ensures var a := ("'" + (p + "''")) + q;
            LiteralText([p, q]) == a + ("'" + "") && Passed(a, "'" + "")
  {
    var a := "'" + (p + "''");
    assert "'" + "" == "'";
    TwoParts(p, q);
    Reassociate(p, "''", q);
    Reassociate("'", p + "''", q);
    Reassociate("'", p + ("''" + q), "'");
    PlainPassed(q, "'");
    DoubledLeaves(p, q + "'");
    Then(a, q, "'");
  }

  /**
   In SQL terms the guard misses this: the first text is one closed literal, and the statement
   behind it would be rejected alone, but the doubled quote leaves the scanner in string mode.
   */
  lemma DoubledQuoteHidesStatement(d: Dialect, p: string, q: string)
    requires NoQuote(p) && NoQuote(q) && !HasMark(q) && NoSemicolons(LiteralText([p, q]))
    ensures var ls := [Quoted([p, q])];
            && IsLexing(d, ls) && Closed(ls) && LexText(ls) == LiteralText([p, q])
            && Verdict(HIDDEN) == Some("COPY") && Verdict(LexText(ls) + ";" + HIDDEN) == None
  {
    DoubledThenPlain(p, q);
    StuckTokenHides(d, Quoted([p, q]), ("'" + (p + "''")) + q, "");
  }

  lemma {:induction false} PlainDoubled(m: char, s: string)
    requires forall i :: 0 <= i < |s| ==> s[i] != m
    ensures Doubled(m, s)
  {
    if s != "" {
      PlainDoubled(m, s[1..]);
    }
  }

  lemma DelimiterFirst(m: char, body: string)
    requires m in DELIMITERS
    ensures Special(IdentifierText(m, body)[0])
  {
    assert IdentifierText(m, body)[0] == m;
  }

  lemma QuotedInside(m: char, p: string, u: string)
    requires m in DELIMITERS && NoQuote(p) && NoQuote(u) && !HasMark(p)
    ensures var a := [m] + p;
            && IdentifierText(m, p + ("'" + u)) == a + ("'" + (u + [m])) && Passed(a, "'" + (u + [m]))
            && NoQuote(u + [m])
  {
    var tail := "'" + (u + [m]);
    Reassociate("'", u, [m]);
    Reassociate(p, "'" + u, [m]);
    Reassociate([m], p, tail);
    PlainPassed(p, tail);
    OnePassed(m, p + tail);
    Then([m], p, tail);
  }

  lemma StuckIdentifierHides(m: char, body: string, a: string, p: string)
    requires m in DELIMITERS && Doubled(m, body) && IdentifierText(m, body) == a + ("'" + p)
    requires Passed(a, "'" + p) && NoQuote(p) && NoSemicolons(IdentifierText(m, body))
    ensures var d, t := Delimiting(DELIMITERS), IdentifierText(m, body);
            && IsLexing(d, [Whole(t)]) && Closed([Whole(t)]) && LexText([Whole(t)]) == t
            && Verdict(HIDDEN) == Some("COPY") && Verdict(t + ";" + HIDDEN) == None
  {
    IsIdentifier(DELIMITERS, m, body, "");
    DelimiterFirst(m, body);
    StuckTokenHides(Delimiting(DELIMITERS), Whole(IdentifierText(m, body)), a, p);
  }

  /** And this: one closed delimited identifier, whose single quote takes the scanner into string mode. */
  lemma QuoteInIdentifierHidesStatement(m: char, p: string, u: string)
    requires m in DELIMITERS && NoQuote(p) && NoQuote(u) && !HasMark(p) && Doubled(m, p + ("'" + u))
    requires NoSemicolons(IdentifierText(m, p + ("'" + u)))
    ensures var d, t := Delimiting(DELIMITERS), IdentifierText(m, p + ("'" + u));
            && IsLexing(d, [Whole(t)]) && Closed([Whole(t)]) && LexText([Whole(t)]) == t
            && Verdict(HIDDEN) == Some("COPY") && Verdict(t + ";" + HIDDEN) == None
  {
    QuotedInside(m, p, u);
    StuckIdentifierHides(m, p + ("'" + u), [m] + p, u + [m]);
  }

  lemma LineSwallows(rest: string)
    requires '\n' !in rest
    ensures Strip("--" + rest) == " "
  {
    LineEnds(rest, "");
    assert rest + "" == rest && ("--" + rest)[2..] == rest;
  }

  lemma DelimiterAlone(m: char)
    requires m in DELIMITERS
    ensures FirstOffence(Split([m] + " ")) == None
  {
    var s := [m] + " ";
    assert s[0] == m && s[1] == ' ' && |s| == 2;
    SpecialTextIsQuiet(s);
  }

  lemma SwallowedText(m: char, u: string, b: string)
    requires m in DELIMITERS && '\n' !in u && '\n' !in b
    ensures Strip(IdentifierText(m, "--" + u) + (";" + b)) == [m] + " "
  {
    var rest := (u + [m]) + (";" + b);
    Reassociate("--", u, [m]);
    Reassociate([m], "--" + (u + [m]), ";" + b);
    Reassociate("--", u + [m], ";" + b);
    LineSwallows(rest);
    OnePassed(m, "--" + rest);
  }

  /** And this: the inside of the identifier reads as a line comment, so that no statement behind it on its line is seen. */
  lemma MarkInIdentifierHidesStatement(m: char, u: string, b: string)
    requires m in DELIMITERS && Doubled(m, "--" + u) && '\n' !in u && '\n' !in b
    ensures var d, t := Delimiting(DELIMITERS), IdentifierText(m, "--" + u);
            && IsLexing(d, [Whole(t)]) && Closed([Whole(t)]) && LexText([Whole(t)]) == t
            && Verdict(t + (";" + b)) == None
  {
    IsIdentifier(DELIMITERS, m, "--" + u, "");
    OneToken(Delimiting(DELIMITERS), Whole(IdentifierText(m, "--" + u)));
    SwallowedText(m, u, b);
    DelimiterAlone(m);
  }

  /** The shortest texts of the three kinds. */
  lemma LiteralExample(d: Dialect)
    ensures LiteralText(["a", "b"]) == "'a''b'" && Verdict("'a''b'" + ";" + HIDDEN) == None
  {
    var a, b := "a", "b";
    TwoParts(a, b);
    assert LiteralText([a, b]) == "'a''b'" && b[1..] == "";
    DoubledQuoteHidesStatement(d, a, b);
  }

  lemma QuoteExample()
    ensures IdentifierText('"', "it" + ("'" + "s")) == "\"it's\"" && Verdict("\"it's\"" + ";" + HIDDEN) == None
  {
    var p, u := "it", "s";
    var body := p + ("'" + u);
    assert body == "it's" && IdentifierText('"', body) == "\"it's\"";
    assert p[1..] == "t" && "t"[1..] == "";
    PlainDoubled('"', body);
    QuoteInIdentifierHidesStatement('"', p, u);
  }

  lemma MarkExample()
    ensures IdentifierText('"', "--" + "") == "\"--\"" && Verdict("\"--\"" + (";" + "COPY x")) == None
  {
    var u, b, body := "", "COPY x", "--";
    assert "--" + u == body && IdentifierText('"', body) == "\"--\"";
    PlainDoubled('"', body);
    MarkInIdentifierHidesStatement('"', u, b);
  }

  lemma BareVerbIsCaught()
    ensures Verdict("COPY x") == Some("COPY")
  {
    var verb, tail := "COPY", " x";
    UpperVerb();
    FirstVerbIsCaught([], verb, tail);
    assert GapText([]) + (verb + tail) == "COPY x";
  }

  // ---- what is rejected wrongly ----

  /** The statements as SQL separates them, at semicolons outside literals and comments, without comments. */
  function Statements(ls: seq<Lexeme>): (pieces: seq<string>)
    ensures |pieces| > 0
  {
    if ls == [] then [""]
    else
      var tail := Statements(ls[1..]);
      if ls[0] == Plain(';') then [""] + tail else [Image(ls[0], tail[0])] + tail[1..]
  }

  function SqlVerdict(ls: seq<Lexeme>): Option<string> {
    FirstOffence(Statements(ls))
  }

  /** The pieces that the guard gets by cutting the statement at semicolons inside its tokens. */
  function InnerPieces(statement: string): seq<string> {
    Split(statement)[1..]
  }

  function AllPieces(statements: seq<string>): seq<string> {
    if statements == [] then [] else Split(statements[0]) + AllPieces(statements[1..])
  }

  /** The image of a lexeme is a prefix. */
  lemma ImageAppend(l: Lexeme, a: string, t: string)
    ensures Image(l, a + t) == Image(l, a) + t
  {
    Reassociate(if IsComment(l) then " " else Copy(l), a, t);
  }

  /** The image of a lexing is its statements, joined by semicolons. */
  function Rejoin(pieces: seq<string>): string
    requires |pieces| > 0
  {
    if |pieces| == 1 then pieces[0] else pieces[0] + (";" + Rejoin(pieces[1..]))
  }

  lemma JoinImage(l: Lexeme, pieces: seq<string>)
    requires |pieces| > 0
    ensures Rejoin([Image(l, pieces[0])] + pieces[1..]) == Image(l, Rejoin(pieces))
  {
    var out := [Image(l, pieces[0])] + pieces[1..];
    assert out[1..] == pieces[1..];
    if |pieces| > 1 {
      ImageAppend(l, pieces[0], ";" + Rejoin(pieces[1..]));
    }
  }

  lemma {:induction false} ImageIsJoined(ls: seq<Lexeme>)
    ensures LexImage(ls) == Rejoin(Statements(ls))
  {
    if ls != [] {
      ImageIsJoined(ls[1..]);
      var tail := Statements(ls[1..]);
      if ls[0] == Plain(';') {
        assert ([""] + tail)[1..] == tail;
        assert "" + (";" + Rejoin(tail)) == [';'] + Rejoin(tail);
      } else {
        JoinImage(ls[0], tail);
      }
    }
  }

  lemma {:induction false} SplitJoined(pieces: seq<string>)
    requires |pieces| > 0
    ensures Split(Rejoin(pieces)) == AllPieces(pieces)
  {
    if |pieces| == 1 {
      assert pieces[1..] == [] && Split(pieces[0]) + [] == Split(pieces[0]);
    } else {
      SplitJoined(pieces[1..]);
      SplitAtSemicolon(pieces[0], Rejoin(pieces[1..]));
    }
  }

  /** Every semicolon of a statement stands behind a special character, such as a quote. */
  predicate SpecialFirst(s: string) {
    forall i :: 0 <= i < |s| && s[i] == ';' ==> HasSpecial(s[..i])
  }

  lemma SpecialFirstCons(c: char, s: string)
    requires c != ';' && SpecialFirst(s)
    ensures SpecialFirst([c] + s)
  {
    var out := [c] + s;
    forall i | 0 <= i < |out| && out[i] == ';' ensures HasSpecial(out[..i]) {
      assert s[i - 1] == ';';
      var j :| 0 <= j < |s[..i - 1]| && Special(s[..i - 1][j]);
      assert Special(out[..i][j + 1]);
    }
  }

  lemma SpecialStart(s: string)
    requires s != "" && Special(s[0])
    ensures SpecialFirst(s)
  {
    forall i | 0 <= i < |s| && s[i] == ';' ensures HasSpecial(s[..i]) {
      assert Special(s[..i][0]);
    }
  }

  lemma SpecialFirstImage(d: Dialect, l: Lexeme, after: string, s: string)
    requires IsLexeme(d, l, after) && l != Plain(';') && SpecialFirst(s)
    ensures SpecialFirst(Image(l, s))
  {
    match l
    case Plain(c) => SpecialFirstCons(c, s);
    case Block(_) => SpecialFirstCons(' ', s);
    case Line(_) => SpecialFirstCons(' ', s);
    case OpenBlock(_) => SpecialFirstCons(' ', s);
    case _ => SpecialStart(Image(l, s));
  }

  lemma {:induction false} StatementsSpecialFirst(d: Dialect, ls: seq<Lexeme>)
    requires IsLexing(d, ls)
    ensures forall i :: 0 <= i < |Statements(ls)| ==> SpecialFirst(Statements(ls)[i])
  {
    if ls != [] {
      StatementsSpecialFirst(d, ls[1..]);
      if ls[0] != Plain(';') {
        SpecialFirstImage(d, ls[0], LexText(ls[1..]), Statements(ls[1..])[0]);
      }
    }
  }

  lemma SpecialRest(x: string)
    requires HasSpecial(x) && !Special(x[0])
    ensures HasSpecial(x[1..])
  {
    var i :| 0 <= i < |x| && Special(x[i]);
    assert Special(x[1..][i - 1]);
  }

  lemma SpecialGrows(c: char, x: string)
    ensures HasSpecial([c] + x) <==> Special(c) || HasSpecial(x)
  {
    if HasSpecial(x) {
      var i :| 0 <= i < |x| && Special(x[i]);
      assert Special(([c] + x)[i + 1]);
    }
    if Special(c) {
      assert Special(([c] + x)[0]);
    }
    if HasSpecial([c] + x) {
      var i :| 0 <= i < |x| + 1 && Special(([c] + x)[i]);
      assert i > 0 ==> Special(x[i - 1]);
    }
  }

  /** Cutting a text behind a special character cuts no token without one short. */
  lemma {:induction false} TokenCut(x: string, y: string)
    requires HasSpecial(x)
    ensures !HasSpecial(FirstToken(x)) ==> FirstToken(x + y) == FirstToken(x)
    ensures HasSpecial(FirstToken(x)) ==> HasSpecial(FirstToken(x + y))
  {
    assert (x + y)[1..] == x[1..] + y;
    if IsWhitespace(x[0]) {
      SpecialRest(x);
      TokenCut(x[1..], y);
    } else {
      WordCut(x, y);
    }
  }

  lemma {:induction false} WordCut(x: string, y: string)
    requires HasSpecial(x)
    ensures !HasSpecial(TakeWord(x)) ==> TakeWord(x + y) == TakeWord(x)
    ensures HasSpecial(TakeWord(x)) ==> HasSpecial(TakeWord(x + y))
  {
    assert (x + y)[1..] == x[1..] + y;
    if !IsWhitespace(x[0]) {
      SpecialGrows(x[0], TakeWord(x[1..]));
      SpecialGrows(x[0], TakeWord(x[1..] + y));
      if !Special(x[0]) {
        SpecialRest(x);
        WordCut(x[1..], y);
      }
    }
  }

  /** The first semicolon cuts a text in two. */
  lemma {:induction false} FirstCut(s: string) returns (x: string, y: string)
    requires ';' in s
    ensures s == x + (";" + y) && Split(s)[0] == x
  {
    if s[0] == ';' {
      x, y := "", s[1..];
      assert s == [';'] + s[1..] && "" + (";" + y) == [';'] + y;
    } else {
      var x1;
      x1, y := FirstCut(s[1..]);
      x := [s[0]] + x1;
      Reassociate([s[0]], x1, ";" + y);
      assert s == [s[0]] + s[1..];
    }
  }

  /** A statement offends exactly if the first piece of it that the guard sees does. */
  lemma FirstPieceDecides(s: string)
    requires SpecialFirst(s)
    ensures Offence(Split(s)[0]) == Offence(s)
  {
    if ';' in s {
      var x, y := FirstCut(s);
      assert s[|x|] == ';' && s[..|x|] == x;
      TokenCut(x, ";" + y);
      if Offence(s).Some? { OffenceHasNoSpecial(s); }
      if Offence(x).Some? { OffenceHasNoSpecial(x); }
    } else {
      NoSemicolon(s);
    }
  }

  lemma {:induction false} PiecesOffend(statements: seq<string>)
    requires forall i :: 0 <= i < |statements| ==> SpecialFirst(statements[i])
    ensures FirstOffence(AllPieces(statements)).Some? <==>
              || FirstOffence(statements).Some?
              || exists i :: 0 <= i < |statements| && FirstOffence(InnerPieces(statements[i])).Some?
  {
    if statements != [] {
      var first, rest := statements[0], statements[1..];
      PiecesOffend(rest);
      FirstPieceDecides(first);
      FirstOffenceAppend(Split(first), AllPieces(rest));
      if exists i :: 0 <= i < |rest| && FirstOffence(InnerPieces(rest[i])).Some? {
        var i :| 0 <= i < |rest| && FirstOffence(InnerPieces(rest[i])).Some?;
        assert FirstOffence(InnerPieces(statements[i + 1])).Some?;
      }
      forall i | 1 <= i < |statements| && FirstOffence(InnerPieces(statements[i])).Some?
        ensures FirstOffence(InnerPieces(rest[i - 1])).Some?
      {
      }
    }
  }

  /**
   The exact condition: on a text whose tokens keep the scanner in step, the guard rejects exactly
   when some SQL statement starts with a verb, or a verb follows a semicolon inside a literal or
   another token. So of such texts no statement is missed, and only the latter is rejected wrongly.
   */
  lemma RejectedIff(d: Dialect, ls: seq<Lexeme>)
    requires IsLexing(d, ls) && AllKeepStep(ls)
    ensures Verdict(LexText(ls)).Some? <==>
              || SqlVerdict(ls).Some?
              || exists i :: 0 <= i < |Statements(ls)| && FirstOffence(InnerPieces(Statements(ls)[i])).Some?
  {
    StripIsLexImage(d, ls);
    ImageIsJoined(ls);
    SplitJoined(Statements(ls));
    StatementsSpecialFirst(d, ls);
    PiecesOffend(Statements(ls));
  }

  lemma InnerVerbOffends(x: string, verb: string, tail: string)
    requires (forall i :: 0 <= i < |x| ==> x[i] != ';') && tail != "" && IsWhitespace(tail[0])
    requires IsLetters(verb) && Upper(verb) in VERBS
    ensures FirstOffence(InnerPieces(x + (";" + (verb + tail)))).Some?
  {
    SplitAtSemicolon(x, verb + tail);
    NoSemicolon(x);
    SplitWord(verb, tail);
    assert ([x] + Split(verb + tail))[1..] == Split(verb + tail);
    var piece := Split(tail)[0];
    VerbHasLetters(verb);
    assert piece[0] == tail[0] && TrimStart(verb + piece) == verb + piece;
    WordStops(verb, piece);
    assert verb + "" == verb;
  }

  lemma OneStatement(d: Dialect, l: Lexeme)
    requires IsLexeme(d, l, "") && KeepsStep(l) && (l.Quoted? || l.Whole?)
    ensures IsLexing(d, [l]) && AllKeepStep([l]) && LexText([l]) == Copy(l)
    ensures Statements([l]) == [Copy(l)] && SqlVerdict([l]) == None
  {
    OneToken(d, l);
    assert [l][1..] == [] && Copy(l) + "" == Copy(l);
    SpecialIsQuiet(Copy(l));
    QuietAlone(Copy(l));
  }

  /** Texts rejected wrongly: one literal or other token, in step, in which a verb follows a semicolon. */
  lemma TokenIsRejected(d: Dialect, l: Lexeme, x: string, verb: string, tail: string)
    requires IsLexeme(d, l, "") && KeepsStep(l) && (l.Quoted? || l.Whole?)
    requires Copy(l) == x + (";" + (verb + tail)) && forall i :: 0 <= i < |x| ==> x[i] != ';'
    requires IsLetters(verb) && Upper(verb) in VERBS && tail != "" && IsWhitespace(tail[0])
    ensures IsLexing(d, [l]) && AllKeepStep([l]) && SqlVerdict([l]) == None && Verdict(LexText([l])).Some?
  {
    OneStatement(d, l);
    InnerVerbOffends(x, verb, tail);
    assert FirstOffence(InnerPieces(Statements([l])[0])).Some?;
    RejectedIff(d, [l]);
  }

  lemma LiteralIsRejected(d: Dialect)
    ensures var ls := [Quoted([";COPY x"])];
            IsLexing(d, ls) && AllKeepStep(ls) && SqlVerdict(ls) == None && Verdict(LexText(ls)).Some?
  {
    var l := Quoted([";COPY x"]);
    UpperVerb();
    assert Copy(l) == "'" + (";" + ("COPY" + " x'"));
    TokenIsRejected(d, l, "'", "COPY", " x'");
  }
}
