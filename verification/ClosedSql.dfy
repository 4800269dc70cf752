/** Texts that leave the splitter where they found it: outside every quote and
comment, without a separator of their own.  Every statement builder prints such
texts, so a joined script splits back into the statements it was joined from. */
module ClosedSql {
  import opened GoStrings
  import opened SqlQuote
  import opened SplitStatements
  import opened SplitLaws

  /** Scanning `s` in front of `b` hands `b` on untouched. */
  ghost predicate Passes(s: string, afterIdent: bool, b: string) {
    Pieces(afterIdent, Normal, s + b) == Prepend(s, Pieces(IdentAfter(afterIdent, s), Normal, b))
  }

  /** Whatever stands before and behind `s`, it is text of one statement. */
  ghost predicate Balanced(s: string) {
    forall afterIdent, b :: Passes(s, afterIdent, b)
  }

  /** A balanced text that could stand as a statement. */
  ghost predicate Closed(s: string) {
    Balanced(s) && IsTrimmed(s)
  }

  lemma BalancedEmpty()
    ensures Balanced("")
  {
    forall afterIdent, b ensures Passes("", afterIdent, b) {
      assert "" + b == b;
      PrependNothing(Pieces(afterIdent, Normal, b));
    }
  }

  lemma PassesConcat(s: string, t: string, afterIdent: bool, b: string)
    requires Passes(s, afterIdent, t + b) && Passes(t, IdentAfter(afterIdent, s), b)
    ensures Passes(s + t, afterIdent, b)
  {
    hide Pieces;
    assert s + t + b == s + (t + b);
    IdentAfterConcat(afterIdent, s, t);
    PrependPrepend(s, t, Pieces(IdentAfter(afterIdent, s + t), Normal, b));
  }

  lemma IdentAfterConcat(afterIdent: bool, s: string, t: string)
    ensures IdentAfter(IdentAfter(afterIdent, s), t) == IdentAfter(afterIdent, s + t)
  {
    assert t == "" ==> s + t == s;
  }

  lemma BalancedConcat(s: string, t: string)
    requires Balanced(s) && Balanced(t)
    ensures Balanced(s + t)
  {
    hide Passes;
    forall afterIdent, b ensures Passes(s + t, afterIdent, b) {
      assert Passes(s, afterIdent, t + b) && Passes(t, IdentAfter(afterIdent, s), b);
      PassesConcat(s, t, afterIdent, b);
    }
  }

  lemma {:induction false} BalancedJoin(parts: seq<string>, sep: string)
    requires Balanced(sep) && forall i :: 0 <= i < |parts| ==> Balanced(parts[i])
    ensures Balanced(Join(parts, sep))
  {
    BalancedEmpty();
    if |parts| > 1 {
      BalancedJoin(parts[1..], sep);
      BalancedConcat(parts[0], sep);
      BalancedConcat(parts[0] + sep, Join(parts[1..], sep));
    }
  }

  lemma BalancedSeven(a: string, b: string, c: string, d: string, e: string, f: string, g: string)
    requires Balanced(a) && Balanced(b) && Balanced(c) && Balanced(d) && Balanced(e) && Balanced(f) && Balanced(g)
    ensures Balanced(a + b + c + d + e + f + g)
  {
    hide Balanced;
    BalancedConcat(a, b);
    BalancedConcat(a + b, c);
    BalancedConcat(a + b + c, d);
    BalancedConcat(a + b + c + d, e);
    BalancedConcat(a + b + c + d + e, f);
    BalancedConcat(a + b + c + d + e + f, g);
  }

  /** A character that is a token of its own in the start state. */
  predicate IsPlainChar(c: char) {
    c != '\'' && c != '"' && c != '-' && c != '/' && c != '$' && c != ';'
  }

  predicate IsPlain(s: string) {
    forall i :: 0 <= i < |s| ==> IsPlainChar(s[i])
  }

  lemma PassesChar(c: char, afterIdent: bool, b: string)
    requires IsPlainChar(c)
    ensures Passes([c], afterIdent, b)
  {
    var s := [c] + b;
    assert s[..1] == [c] && s[1..] == b;
    assert NextToken(afterIdent, Normal, s) == Token([c], Normal);
  }

  lemma {:induction false} BalancedPlain(s: string)
    requires IsPlain(s)
    ensures Balanced(s)
  {
    if s == "" {
      BalancedEmpty();
    } else {
      forall afterIdent, b ensures Passes([s[0]], afterIdent, b) {
        PassesChar(s[0], afterIdent, b);
      }
      BalancedPlain(s[1..]);
      BalancedConcat([s[0]], s[1..]);
      assert [s[0]] + s[1..] == s;
    }
  }

  lemma MinusIsAToken(afterIdent: bool, rest: string)
    requires rest != "" && '0' <= rest[0] <= '9'
    ensures Pieces(afterIdent, Normal, "-" + rest) == Prepend("-", Pieces(false, Normal, rest))
  {
    var s := "-" + rest;
    assert s[1] == rest[0] && s[..1] == "-" && s[1..] == rest;
    assert NextToken(afterIdent, Normal, s) == Token("-", Normal);
    hide Pieces, NextToken;
    PiecesAtToken(afterIdent, Normal, s, Token("-", Normal));
  }

  lemma PassesMinus(digits: string, afterIdent: bool, b: string)
    requires digits != "" && '0' <= digits[0] <= '9' && Passes(digits, false, b)
    ensures Passes("-" + digits, afterIdent, b)
  {
    var rest := digits + b;
    ConcatAssoc("-", digits, b);
    MinusIsAToken(afterIdent, rest);
    hide Pieces, NextToken;
    PrependPrepend("-", digits, Pieces(IdentAfter(false, digits), Normal, b));
  }

  /** A minus sign is no comment in front of a digit. */
  lemma BalancedNegative(digits: string)
    requires digits != "" && forall i :: 0 <= i < |digits| ==> '0' <= digits[i] <= '9'
    ensures Balanced("-" + digits)
  {
    BalancedPlain(digits);
    forall afterIdent, b ensures Passes("-" + digits, afterIdent, b) {
      assert Passes(digits, false, b);
      PassesMinus(digits, afterIdent, b);
    }
    hide Passes;
  }

  /** Inside a quote opened by `q`, a doubled text and the closing quote lead back
  to the start state. */
  predicate Quotes(state: Lex, q: char) {
    (state == SingleQuoted && q == '\'') || (state == DoubleQuoted && q == '"')
  }

  ghost predicate ClosesQuote(afterIdent: bool, state: Lex, q: char, x: string, b: string) {
    Pieces(afterIdent, state, Doubled(x, q) + [q] + b) == Prepend(Doubled(x, q) + [q], Pieces(false, Normal, b))
  }

  /** The scanner on a quoting character, or on any other one inside the quote. */
  lemma QuoteStep(afterIdent: bool, state: Lex, q: char, c: char, rest: string)
    requires Quotes(state, q)
    ensures c != q ==> Pieces(afterIdent, state, [c] + rest) == Prepend([c], Pieces(IsSqlIdentByte(c), state, rest))
    ensures Pieces(afterIdent, state, [q] + rest) == Prepend([q], Pieces(false, Normal, rest))
    ensures Pieces(afterIdent, Normal, [q] + rest) == Prepend([q], Pieces(false, state, rest))
  {
    assert ([c] + rest)[..1] == [c] && ([c] + rest)[1..] == rest;
    assert ([q] + rest)[..1] == [q] && ([q] + rest)[1..] == rest;
  }

  lemma {:induction false} DoubledClosesQuote(afterIdent: bool, state: Lex, q: char, x: string, b: string)
    requires Quotes(state, q)
    ensures ClosesQuote(afterIdent, state, q, x, b)
    decreases |x|
  {
    hide Pieces;
    var end := Pieces(false, Normal, b);
    if x == "" {
      QuoteStep(afterIdent, state, q, q, b);
      assert Doubled(x, q) == "";
      assert "" + [q] + b == [q] + b && "" + [q] == [q];
    } else {
      DoubledCons(x, q);
      var d := Doubled(x[1..], q) + [q];
      if x[0] == q {
        DoubledClosesQuote(false, state, q, x[1..], b);
        QuoteStep(afterIdent, state, q, q, [q] + (d + b));
        QuoteStep(false, state, q, q, d + b);
        assert Doubled(x, q) + [q] + b == [q] + ([q] + (d + b));
        assert Doubled(x, q) + [q] == [q] + ([q] + d);
        PrependPrepend([q], d, end);
        PrependPrepend([q], [q] + d, end);
      } else {
        DoubledClosesQuote(IsSqlIdentByte(x[0]), state, q, x[1..], b);
        QuoteStep(afterIdent, state, q, x[0], d + b);
        assert Doubled(x, q) + [q] + b == [x[0]] + (d + b);
        assert Doubled(x, q) + [q] == [x[0]] + d;
        PrependPrepend([x[0]], d, end);
      }
    }
  }

  lemma PassesQuoted(state: Lex, q: char, d: string, afterIdent: bool, b: string)
    requires d != "" && d[|d| - 1] == q && !IsSqlIdentByte(q)
    requires Pieces(false, state, d + b) == Prepend(d, Pieces(false, Normal, b))
    requires Pieces(afterIdent, Normal, [q] + (d + b)) == Prepend([q], Pieces(false, state, d + b))
    ensures Passes([q] + d, afterIdent, b)
  {
    hide Pieces;
    assert [q] + d + b == [q] + (d + b);
    PrependPrepend([q], d, Pieces(false, Normal, b));
  }

  lemma BalancedQuoted(state: Lex, q: char, x: string)
    requires Quotes(state, q)
    ensures Balanced([q] + (Doubled(x, q) + [q]))
  {
    hide Passes, Pieces, Doubled;
    var d := Doubled(x, q) + [q];
    forall afterIdent, b ensures Passes([q] + d, afterIdent, b) {
      DoubledClosesQuote(false, state, q, x, b);
      QuoteStep(afterIdent, state, q, q, d + b);
      PassesQuoted(state, q, d, afterIdent, b);
    }
  }

  /** quoteIdent and quoteLiteral print balanced text for every string. */
  lemma BalancedQuoteIdent(x: string)
    ensures Balanced(QuoteIdent(x))
  {
    BalancedQuoted(DoubleQuoted, '"', x);
    assert QuoteIdent(x) == ['"'] + (Doubled(x, '"') + ['"']);
  }

  lemma BalancedQuoteLiteral(x: string)
    ensures Balanced(QuoteLiteral(x))
  {
    BalancedQuoted(SingleQuoted, '\'', x);
    assert QuoteLiteral(x) == ['\''] + (Doubled(x, '\'') + ['\'']);
  }

  lemma BalancedQuoteIfNeeded(x: string)
    ensures Balanced(QuoteIfNeeded(x))
  {
    if IsSafeIdent(x) {
      BalancedPlain(x);
    } else {
      BalancedQuoteIdent(x);
    }
  }

  lemma BalancedQualIdent(schema: string, table: string)
    ensures Balanced(QualIdent(schema, table))
  {
    BalancedQuoteIfNeeded(schema);
    BalancedQuoteIfNeeded(table);
    BalancedPlain(".");
    BalancedConcat(QuoteIfNeeded(schema), ".");
    BalancedConcat(QuoteIfNeeded(schema) + ".", QuoteIfNeeded(table));
  }

  // ---- Joined scripts ----------------------------------------------------------

  /** joinStatements */
  function JoinStatements(stmts: seq<string>): string {
    Join(stmts, ";\n") + ";\n"
  }

  /** A closed statement in front of a separator and more script. */
  lemma SplitAfterClosed(s: string, rest: string)
    requires Closed(s)
    ensures Split(s + ";\n" + rest) == [Utf8(s)] + Split(rest)
  {
    var b := ";\n" + rest;
    assert s + ";\n" + rest == s + b && b[1..] == "\n" + rest;
    assert Passes(s, false, b);
    PiecesAtSemicolon(IdentAfter(false, s), b);
    PiecesAfterBlanks("\n", rest);
    var ps := Pieces(false, Normal, rest);
    hide Pieces;
    StatementsAtSeparator(s, Prepend("\n", ps));
    StatementsIgnoreLeadingBlank(ps);
    TrimOfTrimmed(s);
  }

  lemma StatementsIgnoreLeadingBlank(ps: seq<string>)
    requires |ps| > 0
    ensures Statements(Prepend("\n", ps)) == Statements(ps)
  {
    assert ("\n" + ps[0])[1..] == ps[0];
    assert TrimLeft("\n" + ps[0]) == TrimLeft(ps[0]);
  }

  lemma JoinStatementsCons(stmts: seq<string>)
    requires |stmts| > 0
    ensures JoinStatements(stmts) == stmts[0] + ";\n" + (if |stmts| == 1 then "" else JoinStatements(stmts[1..]))
  {
    if |stmts| > 1 {
      var s, j := stmts[0], Join(stmts[1..], ";\n");
      assert s + ";\n" + j + ";\n" == s + ";\n" + (j + ";\n");
    } else {
      assert stmts[0] + ";\n" + "" == stmts[0] + ";\n";
    }
  }

  lemma {:induction false} SplitJoined(stmts: seq<string>)
    requires |stmts| > 0 && forall i :: 0 <= i < |stmts| ==> Closed(stmts[i])
    ensures Split(JoinStatements(stmts)) == Utf8All(stmts)
  {
    JoinStatementsCons(stmts);
    if |stmts| == 1 {
      SplitAfterClosed(stmts[0], "");
      assert Split("") == [] by { assert Statements([""]) == Flushed("") + Statements([]); }
    } else {
      SplitJoined(stmts[1..]);
      SplitAfterClosed(stmts[0], JoinStatements(stmts[1..]));
    }
  }

  /** Round trip: splitting a joined script of closed statements gives the
  statements back, exactly when all of them are ASCII. */
  lemma SplitJoinRoundTrip(stmts: seq<string>)
    requires |stmts| > 0 && forall i :: 0 <= i < |stmts| ==> Closed(stmts[i])
    ensures Split(JoinStatements(stmts)) == stmts <==> forall i :: 0 <= i < |stmts| ==> IsAscii(stmts[i])
  {
    SplitJoined(stmts);
    hide Split, Closed;
    forall i | 0 <= i < |stmts| ensures Utf8(stmts[i]) == stmts[i] <==> IsAscii(stmts[i]) {
      Utf8FixesAscii(stmts[i]);
    }
    assert Utf8All(stmts) == stmts ==> forall i :: 0 <= i < |stmts| ==> Utf8(stmts[i]) == stmts[i];
  }

  /** A closed statement on its own is one statement. */
  lemma SplitClosed(s: string)
    requires Closed(s)
    ensures Split(s) == [Utf8(s)] && (IsAscii(s) ==> Split(s) == [s])
  {
    assert Passes(s, false, "");
    assert s + "" == s;
    assert Pieces(IdentAfter(false, s), Normal, "") == [""];
    OnePieceSplits(s);
    Utf8FixesAscii(s);
  }
}
