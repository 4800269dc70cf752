/** The statement splitter of internal/web/ddl.go: a scanner with six states that
cuts a script at its top-level semicolons. */
module SplitStatements {
  import opened GoStrings

  predicate IsSqlIdentByte(c: char) {
    'a' <= c <= 'z' || 'A' <= c <= 'Z' || '0' <= c <= '9' || c == '_'
  }

  /** A dollar-quote delimiter: two dollars around identifier bytes. */
  predicate IsTag(t: string) {
    && |t| >= 2 && t[0] == '$' && t[|t| - 1] == '$'
    && forall i :: 1 <= i < |t| - 1 ==> IsSqlIdentByte(t[i])
  }

  type Tag = t: string | IsTag(t) witness "$$"

  /** What the loop of dollarQuoteTag returns when it is about to read s[i]. */
  function TagFrom(s: string, i: nat): (tag: string)
    requires 1 <= i <= |s| && s[0] == '$' && (i == 1 && i < |s| ==> s[1] != '$')
    requires forall j :: 1 <= j < i ==> IsSqlIdentByte(s[j])
    ensures tag == "" || (IsTag(tag) && tag <= s)
    decreases |s| - i
  {
    if i == |s| then ""
    else if s[i] == '$' && i > 1 then s[..i + 1]
    else if !IsSqlIdentByte(s[i]) then ""
    else TagFrom(s, i + 1)
  }

  /** The dollar-quote delimiter s starts with, or "". */
  function DollarQuoteTag(s: string): (tag: string)
    ensures tag == "" || (IsTag(tag) && tag <= s)
  {
    if |s| < 2 || s[0] != '$' then ""
    else if s[1] == '$' then "$$"
    else TagFrom(s, 1)
  }

  method FindDollarQuoteTag(s: string) returns (tag: string)
    ensures tag == DollarQuoteTag(s)
  {
    if |s| < 2 || s[0] != '$' {
      return "";
    }
    if s[1] == '$' {
      return "$$";
    }
    var i := 1;
    while i < |s|
      invariant 1 <= i <= |s|
      invariant forall j :: 1 <= j < i ==> IsSqlIdentByte(s[j])
      invariant TagFrom(s, i) == TagFrom(s, 1)
    {
      if s[i] == '$' && i > 1 {
        return s[..i + 1];
      }
      if !IsSqlIdentByte(s[i]) {
        return "";
      }
      i := i + 1;
    }
    return "";
  }

  datatype Lex =
    | Normal
    | SingleQuoted
    | DoubleQuoted
    | LineComment
    | BlockComment
    | DollarQuoted(tag: Tag)

  datatype Token = Token(text: string, next: Lex)

  /** The text one turn of the loop consumes, and the state it leaves.
  `afterIdent` says that the byte before `s` is an identifier byte. */
  function NextToken(afterIdent: bool, state: Lex, s: string): (t: Token)
    requires s != ""
    ensures t.text != "" && t.text <= s
  {
    var c := s[..1];
    match state
    case Normal =>
      if s[0] == '\'' then Token(c, SingleQuoted)
      else if s[0] == '"' then Token(c, DoubleQuoted)
      else if "--" <= s then Token("--", LineComment)
      else if "/*" <= s then Token("/*", BlockComment)
      else if s[0] == '$' && !afterIdent then
        var tag := DollarQuoteTag(s);
        if tag != "" then Token(tag, DollarQuoted(tag)) else Token(c, Normal)
      else Token(c, Normal)
    case SingleQuoted => Token(c, if s[0] == '\'' then Normal else state)
    case DoubleQuoted => Token(c, if s[0] == '"' then Normal else state)
    case LineComment => Token(c, if s[0] == '\n' then Normal else state)
    case BlockComment => if "*/" <= s then Token("*/", Normal) else Token(c, state)
    case DollarQuoted(tag) => if tag <= s then Token(tag, Normal) else Token(c, state)
  }

  predicate EndsIdent(s: string)
    requires s != ""
  {
    IsSqlIdentByte(s[|s| - 1])
  }

  function Prepend(a: string, ps: seq<string>): (r: seq<string>)
    requires |ps| > 0
    ensures |r| == |ps|
  {
    [a + ps[0]] + ps[1..]
  }

  lemma PrependNothing(ps: seq<string>)
    requires |ps| > 0
    ensures Prepend("", ps) == ps
  {
    assert "" + ps[0] == ps[0];
  }

  /** The pieces between the top-level semicolons of `s`. */
  function Pieces(afterIdent: bool, state: Lex, s: string): (ps: seq<string>)
    ensures |ps| > 0
    decreases |s|
  {
    if s == "" then [""]
    else if state == Normal && s[0] == ';' then [""] + Pieces(false, Normal, s[1..])
    else
      var t := NextToken(afterIdent, state, s);
      Prepend(t.text, Pieces(EndsIdent(t.text), t.next, s[|t.text|..]))
  }

  /** The state in which scanning `s` ends. */
  function EndState(afterIdent: bool, state: Lex, s: string): Lex
    decreases |s|
  {
    if s == "" then state
    else if state == Normal && s[0] == ';' then EndState(false, Normal, s[1..])
    else
      var t := NextToken(afterIdent, state, s);
      EndState(EndsIdent(t.text), t.next, s[|t.text|..])
  }

  /** Go's string(c) of a byte: the UTF-8 encoding of the code point c. */
  function Utf8Byte(c: char): (e: string)
    ensures c < '\U{80}' ==> e == [c]
  {
    if c < '\U{80}' then [c]
    else [(0xC0 + c as int / 64 % 4) as char, (0x80 + c as int % 64) as char]
  }

  function Utf8(s: string): string {
    if s == "" then "" else Utf8Byte(s[0]) + Utf8(s[1..])
  }

  /** What flush keeps of each piece: its trimmed text unless that is empty. */
  function RawStatements(ps: seq<string>): seq<string> {
    if |ps| == 0 then []
    else (if Trim(ps[0]) == "" then [] else [Trim(ps[0])]) + RawStatements(ps[1..])
  }

  /** The statements as code points: one per byte of the script. */
  function RawSplit(sql: string): seq<string> {
    RawStatements(Pieces(false, Normal, sql))
  }

  function Utf8All(stmts: seq<string>): (r: seq<string>)
    ensures |r| == |stmts| && forall i :: 0 <= i < |r| ==> r[i] == Utf8(stmts[i])
  {
    if |stmts| == 0 then [] else [Utf8(stmts[0])] + Utf8All(stmts[1..])
  }

  /** What one call of flush appends. */
  function Flushed(cur: string): seq<string> {
    if Trim(cur) == "" then [] else [Utf8(Trim(cur))]
  }

  function Statements(ps: seq<string>): seq<string> {
    if |ps| == 0 then [] else Flushed(ps[0]) + Statements(ps[1..])
  }

  /** The statements as splitStatements returns them.  Every byte is written with
  string(c), so a statement comes out as the UTF-8 encoding of its bytes. */
  function Split(sql: string): seq<string> {
    Statements(Pieces(false, Normal, sql))
  }

  /** The check of sql[i-1] that keeps a `$` inside an identifier from opening a quote. */
  predicate AfterIdent(sql: string, i: nat)
    requires i <= |sql|
  {
    i > 0 && IsSqlIdentByte(sql[i - 1])
  }

  /** Loop invariant of splitStatements: what is already in `stmts`, followed by
  the statements of the pending text and of the rest of the script, is the result. */
  ghost predicate OnTrack(stmts: seq<string>, cur: string, sql: string, i: nat, state: Lex)
    requires i <= |sql|
  {
    stmts + Statements(Prepend(cur, Pieces(AfterIdent(sql, i), state, sql[i..]))) == Split(sql)
  }

  lemma OnTrackAtStart(sql: string)
    ensures OnTrack([], "", sql, 0, Normal)
  {
    assert sql[0..] == sql;
    PrependNothing(Pieces(false, Normal, sql));
  }

  lemma OnTrackAfterSemicolon(stmts: seq<string>, cur: string, sql: string, i: nat)
    requires i < |sql| && sql[i] == ';'
    requires OnTrack(stmts, cur, sql, i, Normal)
    ensures OnTrack(stmts + Flushed(cur), "", sql, i + 1, Normal)
  {
    assert sql[i..][1..] == sql[i + 1..];
    var tail := Pieces(false, Normal, sql[i + 1..]);
    assert Pieces(AfterIdent(sql, i), Normal, sql[i..]) == [""] + tail;
    StatementsAtSeparator(cur, tail);
    PrependNothing(tail);
    ConcatAssoc(stmts, Flushed(cur), Statements(tail));
  }

  lemma StatementsAtSeparator(cur: string, tail: seq<string>)
    ensures Statements(Prepend(cur, [""] + tail)) == Flushed(cur) + Statements(tail)
  {
    var ps := Prepend(cur, [""] + tail);
    assert cur + "" == cur;
    assert ps[0] == cur && ps[1..] == tail;
  }

  lemma ConcatAssoc<T>(a: seq<T>, b: seq<T>, c: seq<T>)
    ensures a + (b + c) == (a + b) + c
  {
  }

  lemma PrependPrepend(a: string, b: string, ps: seq<string>)
    requires |ps| > 0
    ensures Prepend(a, Prepend(b, ps)) == Prepend(a + b, ps)
  {
    assert a + (b + ps[0]) == (a + b) + ps[0];
  }

  lemma OnTrackAfterToken(stmts: seq<string>, cur: string, sql: string, i: nat, state: Lex, t: Token)
    requires i < |sql| && !(state == Normal && sql[i] == ';')
    requires t == NextToken(AfterIdent(sql, i), state, sql[i..])
    requires OnTrack(stmts, cur, sql, i, state)
    ensures i + |t.text| <= |sql| && OnTrack(stmts, cur + t.text, sql, i + |t.text|, t.next)
  {
    var s := sql[i..];
    var tail := Pieces(EndsIdent(t.text), t.next, s[|t.text|..]);
    assert Pieces(AfterIdent(sql, i), state, s) == Prepend(t.text, tail);
    assert s[|t.text|..] == sql[i + |t.text|..];
    assert t.text[|t.text| - 1] == s[|t.text| - 1] == sql[i + |t.text| - 1];
    PrependPrepend(cur, t.text, tail);
  }

  lemma OnTrackAtEnd(stmts: seq<string>, cur: string, sql: string, state: Lex)
    requires OnTrack(stmts, cur, sql, |sql|, state)
    ensures stmts + Flushed(cur) == Split(sql)
  {
    var ps := Prepend(cur, Pieces(AfterIdent(sql, |sql|), state, ""));
    assert cur + "" == cur;
    assert sql[|sql|..] == "" && ps[0] == cur && ps[1..] == [];
    assert Statements(ps) == Flushed(ps[0]) + Statements(ps[1..]);
    assert Flushed(cur) + [] == Flushed(cur);
  }

  /** splitStatements: one loop over the script.  `cur` holds the code points
  written to the builder since the last flush. */
  method SplitStatements(sql: string) returns (stmts: seq<string>)
    ensures stmts == Split(sql)
  {
    hide OnTrack, Split, NextToken, Flushed;
    stmts := [];
    var cur := "";
    var state := Normal;
    var i := 0;
    OnTrackAtStart(sql);
    while i < |sql|
      invariant i <= |sql| && OnTrack(stmts, cur, sql, i, state)
    {
      if state == Normal && sql[i] == ';' {
        OnTrackAfterSemicolon(stmts, cur, sql, i);
        stmts := Flush(stmts, cur);
        cur := "";
        i := i + 1;
      } else {
        var text, next := ScanToken(sql, i, state);
        OnTrackAfterToken(stmts, cur, sql, i, state, Token(text, next));
        cur, state, i := cur + text, next, i + |text|;
      }
    }
    OnTrackAtEnd(stmts, cur, sql, state);
    stmts := Flush(stmts, cur);
  }

  method Flush(stmts: seq<string>, cur: string) returns (r: seq<string>)
    ensures r == stmts + Flushed(cur)
  {
    var s := Trim(cur);
    r := stmts;
    if s != "" {
      r := r + [Utf8(s)];
    }
  }

  /** The body of the switch for everything but a top-level semicolon. */
  method ScanToken(sql: string, i: nat, state: Lex) returns (text: string, next: Lex)
    requires i < |sql| && (state == Normal ==> sql[i] != ';')
    ensures Token(text, next) == NextToken(i > 0 && IsSqlIdentByte(sql[i - 1]), state, sql[i..])
  {
    var n := |sql|;
    var c := sql[i];
    assert sql[i..][..1] == [c];
    text, next := [c], state;
    match state {
      case Normal =>
        if c == '\'' {
          next := SingleQuoted;
        } else if c == '"' {
          next := DoubleQuoted;
        } else if c == '-' && i + 1 < n && sql[i + 1] == '-' {
          assert sql[i..][..2] == "--";
          text, next := "--", LineComment;
        } else if c == '/' && i + 1 < n && sql[i + 1] == '*' {
          assert sql[i..][..2] == "/*";
          text, next := "/*", BlockComment;
        } else if c == '$' && (i == 0 || !IsSqlIdentByte(sql[i - 1])) {
          var tag := FindDollarQuoteTag(sql[i..]);
          if tag != "" {
            text, next := tag, DollarQuoted(tag);
          }
        }
      case SingleQuoted =>
        if c == '\'' {
          next := Normal;
        }
      case DoubleQuoted =>
        if c == '"' {
          next := Normal;
        }
      case LineComment =>
        if c == '\n' {
          next := Normal;
        }
      case BlockComment =>
        if c == '*' && i + 1 < n && sql[i + 1] == '/' {
          assert sql[i..][..2] == "*/";
          text, next := "*/", Normal;
        }
      case DollarQuoted(tag) =>
        if tag <= sql[i..] {
          text, next := tag, Normal;
        }
    }
  }
}
