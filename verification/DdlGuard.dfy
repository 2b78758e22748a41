/**
 The comment stripper and statement guard of src/lib.rs.

 The scanner works on bytes and writes each byte back as a character, so a character here is
 one byte of the text; for ASCII texts the two readings coincide.
 */
module DdlGuard {
  import opened Prelude
  import opened Texts

  const VERBS: seq<string> := ["INSTALL", "LOAD", "ATTACH", "COPY", "EXTENSION"]

  // ---- what the index loops compute ----

  predicate Starts(s: string, a: char, b: char) {
    |s| >= 2 && s[0] == a && s[1] == b
  }

  /** What is left after the block comment in which we are `depth` levels deep. */
  function AfterBlock(s: string, depth: nat): (rest: string)
    ensures |rest| <= |s|
    decreases |s|
  {
    if depth == 0 || s == "" then s
    else if Starts(s, '/', '*') then AfterBlock(s[2..], depth + 1)
    else if Starts(s, '*', '/') then AfterBlock(s[2..], depth - 1)
    else AfterBlock(s[1..], depth)
  }

  /** What is left after a line comment: the newline and everything behind it. */
  function AfterLine(s: string): (rest: string)
    ensures |rest| <= |s|
    ensures rest != "" ==> rest[0] == '\n'
  {
    if s == "" || s[0] == '\n' then s else AfterLine(s[1..])
  }

  /** How much of `s`, the text behind an opening quote, the literal branch copies. */
  function LiteralLength(s: string): (n: nat)
    ensures n <= |s|
  {
    if s == "" then 0
    else if s[0] == '\'' then (if Starts(s, '\'', '\'') then 2 else 1)
    else 1 + LiteralLength(s[1..])
  }

  function Strip(s: string): string
    decreases |s|
  {
    if s == "" then ""
    else if Starts(s, '/', '*') then " " + Strip(AfterBlock(s[2..], 1))
    else if Starts(s, '-', '-') then " " + Strip(AfterLine(s[2..]))
    else if s[0] == '\'' then
      var n := 1 + LiteralLength(s[1..]);
      s[..n] + Strip(s[n..])
    else [s[0]] + Strip(s[1..])
  }

  /** `strip_comments`; its three inner loops are the methods below. */
  method StripComments(sql: string) returns (out: string)
    ensures out == Strip(sql)
  {
    out := "";
    var i := 0;
    while i < |sql|
      invariant 0 <= i <= |sql|
      invariant out + Strip(sql[i..]) == Strip(sql)
    {
      ghost var before := out;
      ghost var copied := StripAt(sql, i);
      if i + 1 < |sql| && sql[i] == '/' && sql[i + 1] == '*' {
        i := SkipBlock(sql, i + 2);
        out := out + " ";
      } else if i + 1 < |sql| && sql[i] == '-' && sql[i + 1] == '-' {
        i := SkipLine(sql, i + 2);
        out := out + " ";
      } else if sql[i] == '\'' {
        i, out := CopyLiteral(sql, i, out);
      } else {
        out := out + [sql[i]];
        i := i + 1;
      }
      Reassociate(before, copied, Strip(sql[i..]));
    }
  }

  /** One turn of the outer loop, on the text from position `i` on: what is copied, and what is left. */
  lemma StripAt(sql: string, i: nat) returns (copied: string)
    requires i < |sql|
    ensures if Starts(sql[i..], '/', '*') then
              copied == " " && Strip(sql[i..]) == copied + Strip(AfterBlock(sql[i + 2..], 1))
            else if Starts(sql[i..], '-', '-') then
              copied == " " && Strip(sql[i..]) == copied + Strip(AfterLine(sql[i + 2..]))
            else if sql[i] == '\'' then
              var n := 1 + LiteralLength(sql[i + 1..]);
              copied == sql[i..i + n] && Strip(sql[i..]) == copied + Strip(sql[i + n..])
            else
              copied == [sql[i]] && Strip(sql[i..]) == copied + Strip(sql[i + 1..])
  {
    var s := sql[i..];
    assert s[1..] == sql[i + 1..];
    if |s| >= 2 { assert s[2..] == sql[i + 2..]; }
    if Starts(s, '/', '*') || Starts(s, '-', '-') {
      copied := " ";
    } else if s[0] == '\'' {
      var n := 1 + LiteralLength(sql[i + 1..]);
      copied := sql[i..i + n];
      assert s[..n] == copied && s[n..] == sql[i + n..];
    } else {
      copied := [sql[i]];
    }
  }

  /** The nesting loop behind an opening mark. */
  method SkipBlock(sql: string, start: nat) returns (i: nat)
    requires start <= |sql|
    ensures start <= i <= |sql| && sql[i..] == AfterBlock(sql[start..], 1)
  {
    var depth := 1;
    i := start;
    while i < |sql| && depth > 0
      invariant start <= i <= |sql| && depth >= 0
      invariant AfterBlock(sql[i..], depth) == AfterBlock(sql[start..], 1)
      decreases |sql| - i
    {
      if i + 1 < |sql| && sql[i] == '/' && sql[i + 1] == '*' {
        assert sql[i..][2..] == sql[i + 2..];
        depth := depth + 1;
        i := i + 2;
      } else if i + 1 < |sql| && sql[i] == '*' && sql[i + 1] == '/' {
        assert sql[i..][2..] == sql[i + 2..];
        depth := depth - 1;
        i := i + 2;
      } else {
        assert sql[i..][1..] == sql[i + 1..];
        i := i + 1;
      }
    }
  }

  /** The loop to the end of the line. */
  method SkipLine(sql: string, start: nat) returns (i: nat)
    requires start <= |sql|
    ensures start <= i <= |sql| && sql[i..] == AfterLine(sql[start..])
  {
    i := start;
    while i < |sql| && sql[i] != '\n'
      invariant start <= i <= |sql|
      invariant AfterLine(sql[i..]) == AfterLine(sql[start..])
    {
      assert sql[i..][1..] == sql[i + 1..];
      i := i + 1;
    }
  }

  lemma OneMore(before: string, sql: string, start: nat, i: nat)
    requires start <= i < |sql|
    ensures (before + sql[start..i]) + [sql[i]] == before + sql[start..i + 1]
  {
  }

  /** The literal branch: copy up to and including the closing quote. */
  method CopyLiteral(sql: string, start: nat, before: string) returns (i: nat, out: string)
    requires start < |sql| && sql[start] == '\''
    ensures i == start + 1 + LiteralLength(sql[start + 1..]) && i <= |sql|
    ensures out == before + sql[start..i]
  {
    out := before + "'";
    i := start + 1;
    while i < |sql|
      invariant start + 1 <= i <= |sql|
      invariant out == before + sql[start..i]
      invariant i + LiteralLength(sql[i..]) == start + 1 + LiteralLength(sql[start + 1..])
    {
      assert sql[i..][1..] == sql[i + 1..];
      OneMore(before, sql, start, i);
      if sql[i] == '\'' {
        out := out + "'";
        i := i + 1;
        if i < |sql| && sql[i] == '\'' {
          OneMore(before, sql, start, i);
          out := out + "'";
          i := i + 1;
        }
        break;
      }
      out := out + [sql[i]];
      i := i + 1;
    }
  }

  // ---- idempotence ----

  /** Stripping never changes the first character to anything but a space. */
  lemma StripHead(s: string)
    ensures s == "" <==> Strip(s) == ""
    ensures s != "" ==> Strip(s)[0] == if Starts(s, '/', '*') || Starts(s, '-', '-') then ' ' else s[0]
  {
  }

  lemma {:induction false} LiteralStable(s: string, rest: string, other: string)
    requires s == s[..LiteralLength(s)] + rest
    requires rest == "" <==> other == ""
    requires rest != "" && other[0] == '\'' ==> rest[0] == '\''
    ensures LiteralLength(s[..LiteralLength(s)] + other) == LiteralLength(s)
  {
    if s != "" && s[0] != '\'' {
      assert s[1..] == s[1..][..LiteralLength(s[1..])] + rest;
      LiteralStable(s[1..], rest, other);
      assert (s[..LiteralLength(s)] + other)[1..] == s[1..][..LiteralLength(s[1..])] + other;
    } else if s != "" && LiteralLength(s) == 1 && rest != "" {
      assert s[1] == rest[0];
    }
  }

  /** Stripping twice is stripping once, for every text. */
  lemma {:induction false} StripIdempotent(s: string)
    ensures Strip(Strip(s)) == Strip(s)
    decreases |s|
  {
    if s != "" {
      if Starts(s, '/', '*') {
        StripIdempotent(AfterBlock(s[2..], 1));
        assert (" " + Strip(AfterBlock(s[2..], 1)))[1..] == Strip(AfterBlock(s[2..], 1));
      } else if Starts(s, '-', '-') {
        StripIdempotent(AfterLine(s[2..]));
        assert (" " + Strip(AfterLine(s[2..])))[1..] == Strip(AfterLine(s[2..]));
      } else if s[0] == '\'' {
        LiteralIdempotent(s);
      } else {
        StripIdempotent(s[1..]);
        StripHead(s[1..]);
        assert ([s[0]] + Strip(s[1..]))[1..] == Strip(s[1..]);
      }
    }
  }

  /** Rebuilding a stripped literal and stripping it again. */
  lemma StripRebuilt(lit: string, rest: string)
    requires |lit| > 0 && lit[0] == '\'' && LiteralLength(lit[1..] + rest) == |lit| - 1
    ensures Strip(lit + rest) == lit + Strip(rest)
  {
    var s := lit + rest;
    assert s[1..] == lit[1..] + rest;
    assert s[..|lit|] == lit && s[|lit|..] == rest;
  }

  lemma LiteralIdempotent(s: string)
    requires s != "" && s[0] == '\''
    ensures Strip(Strip(s)) == Strip(s)
    decreases |s|, 0
  {
    var n := LiteralLength(s[1..]);
    var lit, rest := s[..1 + n], s[1 + n..];
    assert lit[1..] == s[1..][..n] && s[1..] == s[1..][..n] + rest;
    StripIdempotent(rest);
    StripHead(rest);
    LiteralStable(s[1..], rest, Strip(rest));
    StripRebuilt(lit, Strip(rest));
  }

  // ---- the guard ----

  /** `split(';')`: one piece more than there are semicolons. */
  function Split(s: string): (pieces: seq<string>)
    ensures |pieces| > 0
  {
    if s == "" then [""]
    else
      var tail := Split(s[1..]);
      if s[0] == ';' then [""] + tail else [[s[0]] + tail[0]] + tail[1..]
  }

  function TakeWord(s: string): string {
    if s == "" || IsWhitespace(s[0]) then "" else [s[0]] + TakeWord(s[1..])
  }

  /** `split_whitespace().next().unwrap_or("")` */
  function FirstToken(s: string): string {
    TakeWord(TrimStart(s))
  }

  function Offence(statement: string): Option<string> {
    var token := Upper(FirstToken(statement));
    if token in VERBS then Some(token) else None
  }

  function FirstOffence(statements: seq<string>): Option<string> {
    if statements == [] then None
    else if Offence(statements[0]).Some? then Offence(statements[0])
    else FirstOffence(statements[1..])
  }

  /** The verb the guard rejects `sql` for, if it rejects it. */
  function Verdict(sql: string): Option<string> {
    FirstOffence(Split(Strip(sql)))
  }

  method RejectUnsafeDdl(sql: string) returns (rejected: Option<string>)
    ensures rejected == Verdict(sql)
  {
    var cleaned := StripComments(sql);
    var statements := Split(cleaned);
    var i := 0;
    while i < |statements|
      invariant 0 <= i <= |statements|
      invariant FirstOffence(statements[i..]) == FirstOffence(statements)
    {
      assert statements[i..][1..] == statements[i + 1..];
      var token := Upper(FirstToken(statements[i]));
      if token != "" {
        var v := 0;
        while v < |VERBS|
          invariant 0 <= v <= |VERBS|
          invariant token !in VERBS[..v]
        {
          if token == VERBS[v] {
            return Some(VERBS[v]);
          }
          v := v + 1;
        }
        assert VERBS[..v] == VERBS;
      }
      i := i + 1;
    }
    return None;
  }
}
