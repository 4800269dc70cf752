/** LISTEN / UNLISTEN parsing of internal/web/listen.go, and quoteIdent as its inverse. */
module Listen {
  import opened Wrappers
  import opened GoStrings
  import opened SqlQuote
  import opened SqlNames

  datatype Command = Command(kind: string, channel: string)

  function TrimRightSemicolons(s: string): string {
    if s != "" && s[|s| - 1] == ';' then TrimRightSemicolons(s[..|s| - 1]) else s
  }

  predicate IsWordEnd(c: char) {
    c == ' ' || c == '\t' || c == '\r' || c == '\n'
  }

  /** strings.IndexAny(s, " \t\r\n"), or |s| when there is none. */
  function FirstWordEnd(s: string): (i: nat)
    ensures i <= |s| && forall j :: 0 <= j < i ==> !IsWordEnd(s[j])
    ensures i < |s| ==> IsWordEnd(s[i])
  {
    if s == "" || IsWordEnd(s[0]) then 0 else 1 + FirstWordEnd(s[1..])
  }

  /** strings.ToUpper and strings.ToLower, as far as it matters which ASCII letters come out: two
  letters beyond ASCII become ASCII letters each way, all others stay beyond it. */
  function UpperChar(c: char): char {
    if 'a' <= c <= 'z' then c - 'a' + 'A' else if c == '\U{131}' then 'I' else if c == '\U{17F}' then 'S' else c
  }

  function LowerChar(c: char): char {
    if 'A' <= c <= 'Z' then c - 'A' + 'a' else if c == '\U{130}' then 'i' else if c == '\U{212A}' then 'k' else c
  }

  function Upper(s: string): (r: string)
    ensures |r| == |s|
  {
    seq(|s|, i requires 0 <= i < |s| => UpperChar(s[i]))
  }

  function Lower(s: string): (r: string)
    ensures |r| == |s|
  {
    seq(|s|, i requires 0 <= i < |s| => LowerChar(s[i]))
  }

  predicate IsQuotedArg(arg: string) {
    |arg| >= 2 && arg[0] == '"' && arg[|arg| - 1] == '"'
  }

  function Inner(arg: string): string
    requires IsQuotedArg(arg)
  {
    arg[1..|arg| - 1]
  }

  function ParseArg(kind: string, arg: string): Result<Command> {
    if arg == "*" && kind == "UNLISTEN" then Ok(Command(kind, "*"))
    else if IsQuotedArg(arg) then
      var name := ReplaceAll(Inner(arg), "\"\"", "\"");
      if name == "" || '"' in ReplaceAll(Inner(arg), "\"\"", "") then Err("Invalid channel name")
      else Ok(Command(kind, name))
    else if IsSafeIdent(Lower(arg)) then Ok(Command(kind, Lower(arg)))
    else Err("Unsupported LISTEN syntax; use LISTEN channel or UNLISTEN channel | *")
  }

  function Fields(stmt: string): string {
    Trim(TrimRightSemicolons(Trim(stmt)))
  }

  function ArgOf(stmt: string): string {
    var fields := Fields(stmt);
    Trim(fields[FirstWordEnd(fields)..])
  }

  /** parseListen */
  function ParseListen(stmt: string): Result<Command> {
    var fields := Fields(stmt);
    var idx := FirstWordEnd(fields);
    if idx == |fields| then Err("A channel name is required")
    else ParseArg(Upper(fields[..idx]), Trim(fields[idx..]))
  }

  // ---- Un-doubling undoes doubling -----------------------------------------------------

  /** Replacing the pairs of a doubled text by r gives the text with r for each quote. */
  lemma {:induction false} ReplaceInDoubled(s: string, r: string)
    ensures ReplaceAll(Doubled(s, '"'), "\"\"", r) == ReplaceAll(s, "\"", r)
  {
    if s != "" {
      DoubledCons(s, '"');
      ReplaceInDoubled(s[1..], r);
      var d, rest := Doubled(s, '"'), Doubled(s[1..], '"');
      assert s[..1] == [s[0]];
      if s[0] == '"' {
        assert d[..2] == "\"\"" && d[2..] == rest;
      } else {
        assert d[1..] == rest;
        if |d| == 1 {
          assert rest == "" && s[1..] == "";
        } else {
          assert d[..2] != "\"\"" by { assert d[..2][0] == s[0]; }
        }
      }
    }
  }

  lemma {:induction false} ReplaceByItself(s: string)
    ensures ReplaceAll(s, "\"", "\"") == s
  {
    if s != "" {
      ReplaceByItself(s[1..]);
      assert s[..1] == [s[0]];
    }
  }

  lemma {:induction false} NoQuoteLeft(s: string)
    ensures '"' !in ReplaceAll(s, "\"", "")
  {
    if s != "" {
      NoQuoteLeft(s[1..]);
      assert s[..1] == [s[0]];
    }
  }

  /** A text whose quotes all come in pairs is the doubling of its un-doubling. */
  lemma {:induction false} PairedIsDoubled(s: string)
    requires '"' !in ReplaceAll(s, "\"\"", "")
    ensures Doubled(ReplaceAll(s, "\"\"", "\""), '"') == s
    decreases |s|
  {
    var u := ReplaceAll(s, "\"\"", "\"");
    if |s| < 2 {
      if s != "" { DoubledCons(s, '"'); }
    } else if s[..2] == "\"\"" {
      assert "" + ReplaceAll(s[2..], "\"\"", "") == ReplaceAll(s[2..], "\"\"", "");
      PairedIsDoubled(s[2..]);
      DoubledCons(u, '"');
      assert u[1..] == ReplaceAll(s[2..], "\"\"", "\"");
      assert s == "\"\"" + s[2..];
    } else {
      var e, e' := ReplaceAll(s, "\"\"", ""), ReplaceAll(s[1..], "\"\"", "");
      assert e == [s[0]] + e' && e[0] == s[0];
      assert '"' !in e' by { assert forall i :: 0 <= i < |e'| ==> e'[i] == e[i + 1]; }
      PairedIsDoubled(s[1..]);
      DoubledCons(u, '"');
      assert u[1..] == ReplaceAll(s[1..], "\"\"", "\"");
      assert s == [s[0]] + s[1..];
    }
  }

  // ---- The two are inverses --------------------------------------------------------------

  lemma InnerOfQuoted(c: string)
    ensures IsQuotedArg(QuoteIdent(c)) && Inner(QuoteIdent(c)) == Doubled(c, '"')
    ensures IsTrimmed(QuoteIdent(c)) && QuoteIdent(c) != "*"
  {
  }

  lemma ParseQuotedArg(kind: string, c: string)
    ensures ParseArg(kind, QuoteIdent(c)) == if c == "" then Err("Invalid channel name") else Ok(Command(kind, c))
  {
    InnerOfQuoted(c);
    ReplaceInDoubled(c, "\"");
    ReplaceByItself(c);
    ReplaceInDoubled(c, "");
    NoQuoteLeft(c);
  }

  /** A keyword and what stands behind it. */
  lemma WordsParse(word: string, behind: string)
    requires IsWord(word) && behind != "" && IsWordEnd(behind[0])
    requires !IsSpace(behind[|behind| - 1]) && behind[|behind| - 1] != ';'
    ensures ParseListen(word + behind) == ParseArg(word, Trim(behind))
  {
    var stmt := word + behind;
    FieldsOfTrimmed(stmt);
    FirstWordEndOf(word, behind);
    hide ParseArg, Trim, FirstWordEnd, Fields;
    assert stmt[..|word|] == word && stmt[|word|..] == behind;
    assert Upper(word) == word;
  }

  lemma FieldsOfTrimmed(stmt: string)
    requires IsTrimmed(stmt) && stmt[|stmt| - 1] != ';'
    ensures Fields(stmt) == stmt
  {
    TrimOfTrimmed(stmt);
    hide Trim;
  }

  lemma FirstWordEndOf(word: string, behind: string)
    requires IsWord(word) && behind != "" && IsWordEnd(behind[0])
    ensures FirstWordEnd(word + behind) == |word|
  {
    var s := word + behind;
    assert s[|word|] == behind[0];
    assert forall i :: 0 <= i < |word| ==> s[i] == word[i];
  }

  lemma TrimBehindBlank(q: string)
    requires IsTrimmed(q)
    ensures Trim(" " + q) == q
  {
    assert (" " + q)[1..] == q;
    assert TrimLeft(" " + q) == TrimLeft(q);
    TrimOfTrimmed(q);
  }

  lemma ConcatWords(word: string, q: string)
    ensures word + " " + q == word + (" " + q)
  {
  }

  /** The statement the server sends for a channel parses back to that channel, for
  every channel but the empty one, which is refused. */
  lemma ParseOfQuoted(word: string, c: string)
    requires IsWord(word)
    ensures ParseListen(word + " " + QuoteIdent(c)) == if c == "" then Err("Invalid channel name") else Ok(Command(word, c))
  {
    var q := QuoteIdent(c);
    InnerOfQuoted(c);
    ParseQuotedArg(word, c);
    ConcatWords(word, q);
    hide QuoteIdent, ParseArg, ParseListen;
    TrimBehindBlank(q);
    WordsParse(word, " " + q);
  }

  /** Every quoted argument that parseListen accepts is the quoting of what it returns. */
  lemma AcceptedQuotedArg(stmt: string)
    requires ParseListen(stmt).Ok? && IsQuotedArg(ArgOf(stmt))
    ensures QuoteIdent(ParseListen(stmt).value.channel) == ArgOf(stmt)
  {
    var arg := ArgOf(stmt);
    PairedIsDoubled(Inner(arg));
    assert arg == "\"" + Inner(arg) + "\"";
  }

  /** The channel of any accepted command, printed behind LISTEN, parses back to that channel. */
  lemma AcceptedRoundTrip(stmt: string)
    requires ParseListen(stmt).Ok?
    ensures ParseListen("LISTEN " + QuoteIdent(ParseListen(stmt).value.channel))
         == Ok(Command("LISTEN", ParseListen(stmt).value.channel))
  {
    var c := ParseListen(stmt).value.channel;
    assert c != "";
    assert "LISTEN" + " " + QuoteIdent(c) == "LISTEN " + QuoteIdent(c);
    ParseOfQuoted("LISTEN", c);
  }
}
