/** Privilege statements about functions and procedures.  Their argument list goes into
the text as typed, and the check in front counts the quotes of the whole name; what the
splitter needs is an even number in the arguments. */
module RoutineText {
  import opened Wrappers
  import opened GoStrings
  import opened SqlQuote
  import opened SqlNames
  import opened ClosedSql
  import opened SplitStatements
  import opened SplitLaws
  import opened Privileges
  import opened PrivilegeLaws
  import opened PrivilegeForms
  import opened PrivilegeText

  function Inside(quoted: bool): Lex {
    if quoted then DoubleQuoted else Normal
  }

  predicate IsArgText(x: string) {
    forall i :: 0 <= i < |x| ==> IsPlainChar(x[i]) || x[i] == '"'
  }

  lemma ArgsAreArgText(args: string)
    requires IsRoutineArgs(args)
    ensures IsArgText(args)
  {
  }

  /** Whether the end of the text is quoted. */
  predicate EndsInside(quoted: bool, x: string)
    decreases |x|
  {
    if x == "" then quoted else EndsInside(if x[0] == '"' then !quoted else quoted, x[1..])
  }

  lemma {:induction false} EndsInsideByCount(quoted: bool, x: string)
    ensures EndsInside(quoted, x) <==> (QuoteCount(x) % 2 == 1) != quoted
    decreases |x|
  {
    if x != "" {
      EndsInsideByCount(if x[0] == '"' then !quoted else quoted, x[1..]);
    }
  }

  /** Scanning `x` hands `b` on, quoted or not. */
  ghost predicate Scans(afterIdent: bool, quoted: bool, x: string, b: string) {
    Pieces(afterIdent, Inside(quoted), x + b) == Prepend(x, Pieces(IdentAfter(afterIdent, x), Inside(EndsInside(quoted, x)), b))
  }

  /** The scanner on one character of the arguments. */
  lemma PlainStep(afterIdent: bool, quoted: bool, c: char, rest: string)
    requires IsPlainChar(c)
    ensures Pieces(afterIdent, Inside(quoted), [c] + rest) == Prepend([c], Pieces(IsSqlIdentByte(c), Inside(quoted), rest))
  {
    hide Pieces, Passes;
    QuoteStep(afterIdent, DoubleQuoted, '"', c, rest);
    PassesChar(c, afterIdent, rest);
    assert Passes([c], afterIdent, rest) ==> Pieces(afterIdent, Normal, [c] + rest) == Prepend([c], Pieces(IsSqlIdentByte(c), Normal, rest)) by {
      PassesOneChar(c, afterIdent, rest);
    }
  }

  lemma PassesOneChar(c: char, afterIdent: bool, rest: string)
    ensures Passes([c], afterIdent, rest) ==> Pieces(afterIdent, Normal, [c] + rest) == Prepend([c], Pieces(IsSqlIdentByte(c), Normal, rest))
  {
    hide Pieces;
  }

  lemma QuoteFlips(afterIdent: bool, quoted: bool, rest: string)
    ensures Pieces(afterIdent, Inside(quoted), ['"'] + rest) == Prepend(['"'], Pieces(false, Inside(!quoted), rest))
  {
    hide Pieces;
    QuoteStep(afterIdent, DoubleQuoted, '"', '"', rest);
  }

  lemma ScansMore(afterIdent: bool, quoted: bool, next: bool, c: char, x: string, b: string)
    requires next == (if c == '"' then !quoted else quoted)
    requires Pieces(afterIdent, Inside(quoted), [c] + (x + b)) == Prepend([c], Pieces(IsSqlIdentByte(c), Inside(next), x + b))
    requires Scans(IsSqlIdentByte(c), next, x, b)
    ensures Scans(afterIdent, quoted, [c] + x, b)
  {
    hide Pieces;
    assert ([c] + x)[1..] == x && [c] + x + b == [c] + (x + b);
    PrependPrepend([c], x, Pieces(IdentAfter(afterIdent, [c] + x), Inside(EndsInside(quoted, [c] + x)), b));
  }

  lemma ScansNothing(afterIdent: bool, quoted: bool, b: string)
    ensures Scans(afterIdent, quoted, "", b)
  {
    hide Pieces;
    assert "" + b == b;
    PrependNothing(Pieces(afterIdent, Inside(quoted), b));
  }

  lemma {:induction false} ScanArgs(afterIdent: bool, quoted: bool, x: string, b: string)
    requires IsArgText(x)
    ensures Scans(afterIdent, quoted, x, b)
    decreases |x|
  {
    hide Scans, Pieces;
    if x == "" {
      ScansNothing(afterIdent, quoted, b);
    } else {
      var c := x[0];
      var next := if c == '"' then !quoted else quoted;
      ScanArgs(IsSqlIdentByte(c), next, x[1..], b);
      if c == '"' {
        QuoteFlips(afterIdent, quoted, x[1..] + b);
      } else {
        PlainStep(afterIdent, quoted, c, x[1..] + b);
      }
      ScansMore(afterIdent, quoted, next, c, x[1..], b);
      assert [c] + x[1..] == x;
    }
  }

  /** Arguments with an even number of quotes are balanced. */
  lemma EvenArgsAreBalanced(args: string)
    requires IsArgText(args) && QuoteCount(args) % 2 == 0
    ensures Balanced(args)
  {
    hide Pieces;
    EndsInsideByCount(false, args);
    forall afterIdent, b ensures Passes(args, afterIdent, b) {
      ScanArgs(afterIdent, false, args, b);
    }
  }

  // ---- Where the scanner ends ------------------------------------------------------------

  /** Behind a balanced text the scanner is where it was. */
  lemma BalancedEndsNormal(afterIdent: bool, s: string)
    requires Balanced(s)
    ensures EndState(afterIdent, Normal, s) == Normal
  {
    hide Pieces, EndState;
    assert Passes(s, afterIdent, ";");
    PiecesAtSemicolon(IdentAfter(afterIdent, s), ";");
    assert s + "" == s;
    PieceEndsNormal(afterIdent, Normal, s + ";");
  }

  /** Each quote in the arguments opens or closes. */
  lemma {:induction false} EndOfArgs(afterIdent: bool, quoted: bool, x: string)
    requires IsArgText(x)
    ensures EndState(afterIdent, Inside(quoted), x) == Inside(EndsInside(quoted, x))
    decreases |x|
  {
    if x != "" {
      EndOfArgs(IsSqlIdentByte(x[0]), if x[0] == '"' then !quoted else quoted, x[1..]);
      PiecesAtToken(afterIdent, Inside(quoted), x, NextToken(afterIdent, Inside(quoted), x));
    }
  }

  /** Text that ends no quote and no comment. */
  predicate IsCalm(x: string) {
    forall i :: 0 <= i < |x| ==> x[i] != '\'' && x[i] != '"' && x[i] != '\n' && x[i] != '*' && x[i] != '$'
  }

  lemma CalmToken(afterIdent: bool, state: Lex, s: string)
    requires s != "" && IsCalm(s[..1]) && state != Normal
    ensures NextToken(afterIdent, state, s) == Token(s[..1], state)
  {
    assert s[0] == s[..1][0];
    match state {
      case BlockComment => assert "*/"[0] == '*' && s[0] != '*';
      case DollarQuoted(tag) => assert tag[0] == '$' && s[0] != '$';
      case _ =>
    }
  }

  lemma {:induction false} CalmStays(afterIdent: bool, state: Lex, calm: string, x: string)
    requires IsCalm(calm) && state != Normal
    ensures EndState(afterIdent, state, calm + x) == EndState(IdentAfter(afterIdent, calm), state, x)
    decreases |calm|
  {
    var s := calm + x;
    if calm == "" {
      assert s == x;
    } else {
      assert s[1..] == calm[1..] + x;
      hide EndState, NextToken;
      CalmToken(afterIdent, state, s);
      PiecesAtToken(afterIdent, state, s, Token(s[..1], state));
      CalmStays(IsSqlIdentByte(s[0]), state, calm[1..], x);
      IdentAfterTail(afterIdent, calm, 1);
    }
  }

  lemma CalmToTheEnd(afterIdent: bool, state: Lex, calm: string)
    requires IsCalm(calm) && state != Normal
    ensures EndState(afterIdent, state, calm) == state
  {
    CalmStays(afterIdent, state, calm, "");
    assert calm + "" == calm;
  }

  /** Every quote is followed by its twin. */
  predicate QuotesPaired(d: string)
    decreases |d|
  {
    d == "" || (if d[0] == '"' then |d| >= 2 && d[1] == '"' && QuotesPaired(d[2..]) else QuotesPaired(d[1..]))
  }

  lemma {:induction false} DoubledIsPaired(x: string)
    ensures QuotesPaired(Doubled(x, '"'))
  {
    if x != "" {
      DoubledIsPaired(x[1..]);
      DoubledCons(x, '"');
      var d := Doubled(x, '"');
      assert d[if x[0] == '"' then 2 else 1..] == Doubled(x[1..], '"');
    }
  }

  lemma {:induction false} PairedBehind(d: string, n: nat)
    requires QuotesPaired(d) && n <= |d| && '"' !in d[..n]
    ensures QuotesPaired(d[n..])
  {
    if n > 0 {
      assert d[0] in d[..n];
      assert d[1..][..n - 1] == d[..n][1..] && d[1..][n - 1..] == d[n..];
      PairedBehind(d[1..], n - 1);
    }
  }

  lemma TokenWithoutQuote(afterIdent: bool, state: Lex, d: string)
    requires d != "" && d[0] != '"' && state != DoubleQuoted
    ensures var t := NextToken(afterIdent, state, d); '"' !in t.text && t.next != DoubleQuoted
  {
    assert '"' !in d[..1];
  }

  /** Paired quotes never leave the scanner inside a quoted name, whatever stands between them. */
  lemma {:induction false} PairedNeverQuotes(afterIdent: bool, state: Lex, d: string)
    requires QuotesPaired(d) && state != DoubleQuoted
    ensures EndState(afterIdent, state, d) != DoubleQuoted
    decreases |d|
  {
    if d != "" && d[0] == '"' {
      TwoQuotes(afterIdent, state, d);
      PairedNeverQuotes(false, state, d[2..]);
    } else if state == Normal && d != "" && d[0] == ';' {
      PairedNeverQuotes(false, Normal, d[1..]);
    } else if d != "" {
      var t := NextToken(afterIdent, state, d);
      TokenWithoutQuote(afterIdent, state, d);
      PiecesAtToken(afterIdent, state, d, t);
      hide EndState, NextToken;
      assert d[..|t.text|] == t.text;
      PairedBehind(d, |t.text|);
      PairedNeverQuotes(EndsIdent(t.text), t.next, d[|t.text|..]);
    }
  }

  lemma TwoQuotes(afterIdent: bool, state: Lex, d: string)
    requires |d| >= 2 && d[0] == '"' && d[1] == '"' && state != DoubleQuoted
    ensures EndState(afterIdent, state, d) == EndState(false, state, d[2..])
  {
    OneQuote(afterIdent, state, d);
    OneQuote(false, if state == Normal then DoubleQuoted else state, d[1..]);
    assert d[1..][1..] == d[2..];
  }

  lemma OneQuote(afterIdent: bool, state: Lex, d: string)
    requires d != "" && d[0] == '"'
    ensures EndState(afterIdent, state, d)
         == EndState(false, if state == Normal then DoubleQuoted else if state == DoubleQuoted then Normal else state, d[1..])
  {
    var t := NextToken(afterIdent, state, d);
    assert t.text == d[..1];
    PiecesAtToken(afterIdent, state, d, t);
  }

  /** A grantee printed where a quoted name is open: its quotes are off by one. */
  lemma GranteeInsideQuotes(afterIdent: bool, g: string, tail: string)
    requires IsCalm(tail)
    ensures EndState(afterIdent, DoubleQuoted, GranteeSql(g) + tail) != Normal
  {
    hide EndState, NextToken, Doubled;
    if g == "PUBLIC" {
      CalmToTheEnd(afterIdent, DoubleQuoted, "PUBLIC" + tail);
    } else {
      var d, last := Doubled(g, '"'), "\"" + tail;
      var text := GranteeSql(g) + tail;
      assert text == "\"" + d + "\"" + tail && text[1..] == d + last;
      OneQuote(afterIdent, DoubleQuoted, text);
      EndStateAppend(false, Normal, d, last);
      DoubledIsPaired(g);
      PairedNeverQuotes(false, Normal, d);
      var state := EndState(false, Normal, d);
      OneQuote(IdentAfter(false, d), state, last);
      assert last[1..] == tail;
      CalmToTheEnd(false, if state == Normal then DoubleQuoted else state, tail);
    }
  }

  /** Behind arguments with an odd number of quotes a statement ends inside a quote or a comment. */
  lemma OddArgsEndInside(front: string, args: string, prep: string, g: string, tail: string)
    requires Balanced(front) && IsArgText(args) && StartsHard(args) && QuoteCount(args) % 2 == 1
    requires args != "" && prep != "" && StartsHard(prep) && IsCalm(prep) && IsCalm(tail)
    ensures EndState(false, Normal, front + (args + (prep + (GranteeSql(g) + tail)))) != Normal
  {
    hide EndState, Balanced, GranteeSql, QuoteCount;
    var back := prep + (GranteeSql(g) + tail);
    BalancedEndsNormal(false, front);
    StartsHardFirst(args, back);
    EndStateAppend(false, Normal, front, args + back);
    var i := IdentAfter(false, front);
    StartsHardFirst(prep, GranteeSql(g) + tail);
    EndStateAppend(i, Normal, args, back);
    EndOfArgs(i, false, args);
    EndsInsideByCount(false, args);
    CalmStays(IdentAfter(i, args), DoubleQuoted, prep, GranteeSql(g) + tail);
    GranteeInsideQuotes(IdentAfter(IdentAfter(i, args), prep), g, tail);
  }

  lemma StartsHardFirst(a: string, x: string)
    requires StartsHard(a) && a != ""
    ensures StartsHard(a + x)
  {
    assert (a + x)[0] == a[0];
  }

  function RoutineHead(pk: PrivKind, schema: string, name: string): string {
    pk.keyword + " " + QualIdent(schema, name[..IndexOf(name, '(')])
  }

  function RoutineArgs(name: string): string {
    name[IndexOf(name, '(')..]
  }

  lemma ArgsOfTarget(pk: PrivKind, schema: string, name: string)
    requires IsRoutineKind(pk) && !pk.server && PrivTarget(pk, schema, name).Ok?
    ensures IsRoutineArgs(RoutineArgs(name)) && IndexOf(name, '(') < |name|
    ensures PrivTarget(pk, schema, name).value == pk.keyword + " " + (QualIdent(schema, name[..IndexOf(name, '(')]) + RoutineArgs(name))
  {
    hide QualIdent, IsRoutineArgs, QuoteCount, IndexOf, QuoteIdent;
    assert RoutineArgs(name) == name[IndexOf(name, '(')..];
    hide RoutineArgs, IsRoutineKind;
  }

  lemma RoutineTargetParts(pk: PrivKind, schema: string, name: string)
    requires IsRoutineKind(pk) && !pk.server && PrivTarget(pk, schema, name).Ok?
    ensures PrivTarget(pk, schema, name).value == RoutineHead(pk, schema, name) + RoutineArgs(name)
    ensures IsRoutineArgs(RoutineArgs(name)) && IsArgText(RoutineArgs(name)) && Balanced(RoutineHead(pk, schema, name))
  {
    hide *;
    ArgsOfTarget(pk, schema, name);
    ArgsAreArgText(RoutineArgs(name));
    RoutineHeadIsBalanced(pk, schema, name);
    RoutineHeadIs(pk, schema, name);
    ConcatAssoc(pk.keyword + " ", QualIdent(schema, name[..IndexOf(name, '(')]), RoutineArgs(name));
  }

  lemma RoutineHeadIs(pk: PrivKind, schema: string, name: string)
    ensures RoutineHead(pk, schema, name) == pk.keyword + " " + QualIdent(schema, name[..IndexOf(name, '(')])
  {
    hide QualIdent, IndexOf;
  }

  lemma RoutineHeadIsBalanced(pk: PrivKind, schema: string, name: string)
    requires IsRoutineKind(pk)
    ensures Balanced(RoutineHead(pk, schema, name))
  {
    hide Balanced, QualIdent;
    BalancedPlain(pk.keyword + " ");
    BalancedQualIdent(schema, name[..IndexOf(name, '(')]);
    BalancedConcat(pk.keyword + " ", QualIdent(schema, name[..IndexOf(name, '(')]));
  }

  lemma ArgsStartHard(args: string)
    requires IsRoutineArgs(args)
    ensures StartsHard(args) && args != ""
  {
  }

  lemma OddArgsAreUnbalanced(head: string, args: string)
    requires Balanced(head) && IsArgText(args) && StartsHard(args) && QuoteCount(args) % 2 == 1
    ensures !Balanced(head + args)
  {
    hide EndState, Balanced, QuoteCount, EndsInside;
    BalancedEndsNormal(false, head);
    EndStateAppend(false, Normal, head, args);
    EndOfArgs(IdentAfter(false, head), false, args);
    EndsInsideByCount(false, args);
    if Balanced(head + args) {
      BalancedEndsNormal(false, head + args);
    }
  }

  /** The target of a routine is balanced exactly if its arguments have an even number of
  quotes, though the code asks for an even number in the whole name. */
  lemma RoutineTargetBalancedIff(pk: PrivKind, schema: string, name: string)
    requires IsRoutineKind(pk) && !pk.server && PrivTarget(pk, schema, name).Ok?
    ensures Balanced(PrivTarget(pk, schema, name).value) <==> QuoteCount(RoutineArgs(name)) % 2 == 0
  {
    hide *;
    var head, args := RoutineHead(pk, schema, name), RoutineArgs(name);
    RoutineTargetParts(pk, schema, name);
    if QuoteCount(args) % 2 == 0 {
      EvenArgsAreBalanced(args);
      BalancedConcat(head, args);
    } else {
      ArgsStartHard(args);
      OddArgsAreUnbalanced(head, args);
    }
  }

  lemma QuotesOfArguments()
    ensures QuoteCount("(b\")") == 1
  {
    assert "(b\")"[1..] == "b\")" && "b\")"[1..] == "\")" && "\")"[1..] == ")" && ")"[1..] == "";
    assert QuoteCount(")") == 0 && QuoteCount("\")") == 1 && QuoteCount("b\")") == 1;
  }

  lemma NameOfRoutine()
    ensures var name := "a\"(b\")"; IndexOf(name, '(') == 2 && name[2..] == "(b\")" && QuoteCount(name) == 2
  {
    var name := "a\"(b\")";
    assert name[1..] == "\"(b\")" && name[1..][1..] == "(b\")" && name[2..] == "(b\")";
    QuotesOfArguments();
    assert QuoteCount(name[1..]) == 2 && QuoteCount(name) == 2;
    assert IndexOf("(b\")", '(') == 0;
    assert IndexOf(name[1..], '(') == 1;
  }

  /** A name that the check accepts and whose arguments are odd. */
  lemma OddArgumentsAreAccepted(schema: string)
    requires schema != ""
    ensures var name := "a\"(b\")";
            && KindOf("function").Some?
            && PrivTarget(KindOf("function").value, schema, name).Ok?
            && QuoteCount(RoutineArgs(name)) % 2 == 1
  {
    NameOfRoutine();
    QuotesOfArguments();
    hide QuoteCount, IndexOf, QualIdent;
  }

  // ---- Statements and scripts ------------------------------------------------------------

  /** Regrouping: everything up to the arguments, the arguments, the rest. */
  lemma SevenParts(a: string, on: string, head: string, args: string, prep: string, grantee: string, tail: string)
    ensures a + on + (head + args) + prep + grantee + tail == a + on + head + (args + (prep + (grantee + tail)))
  {
    assert a + on + (head + args) == a + on + head + args;
    var t := a + on + head;
    assert t + args + prep + grantee + tail == t + (args + (prep + (grantee + tail)));
  }

  lemma HeadIsPlain(v: Verb)
    ensures IsPlain(Head(v)) && IsPlain(" ON ")
  {
  }

  lemma FrontIsBalanced(c: Change, head: string)
    requires Balanced(head) && forall p | p in c.privs :: IsWord(p)
    ensures Balanced(Head(c.verb) + Join(c.privs, ", ") + " ON " + head)
  {
    var verb, list := Head(c.verb), Join(c.privs, ", ");
    hide *;
    PrivListIsBalanced(c.privs);
    HeadIsPlain(c.verb);
    BalancedPlain(verb);
    BalancedPlain(" ON ");
    BalancedConcat(verb, list);
    BalancedConcat(verb + list, " ON ");
    BalancedConcat(verb + list + " ON ", head);
  }

  lemma VerbTextIsCalm(v: Verb)
    ensures StartsHard(Preposition(v)) && Preposition(v) != "" && IsCalm(Preposition(v)) && IsCalm(Tail(v))
  {
  }

  /** With odd arguments the separator behind a statement is no top-level one. */
  lemma OddStatementEndsInside(pk: PrivKind, schema: string, name: string, c: Change, g: string)
    requires IsRoutineKind(pk) && !pk.server && PrivTarget(pk, schema, name).Ok?
    requires (forall p | p in c.privs :: IsWord(p)) && QuoteCount(RoutineArgs(name)) % 2 == 1
    ensures EndState(false, Normal, RenderChange(c, PrivTarget(pk, schema, name).value, GranteeSql(g))) != Normal
  {
    var target, head, args := PrivTarget(pk, schema, name).value, RoutineHead(pk, schema, name), RoutineArgs(name);
    hide PrivTarget, EndState, Balanced, GranteeSql, IsWord, QuoteCount, RoutineHead, RoutineArgs, Join, IsRoutineArgs, IsArgText;
    RoutineTargetParts(pk, schema, name);
    FrontIsBalanced(c, head);
    RenderedParts(c, target, GranteeSql(g));
    hide *;
    ArgsStartHard(args);
    VerbTextIsCalm(c.verb);
    SevenParts(Head(c.verb) + Join(c.privs, ", "), " ON ", head, args, Preposition(c.verb), GranteeSql(g), Tail(c.verb));
    OddArgsEndInside(Head(c.verb) + Join(c.privs, ", ") + " ON " + head, args, Preposition(c.verb), g, Tail(c.verb));
  }

  /** A script whose first statement ends inside a quote or a comment does not split back. */
  lemma InsideDoesNotSplitBack(stmts: seq<string>)
    requires |stmts| > 0 && IsTrimmed(stmts[0]) && stmts[0][0] != ';' && EndState(false, Normal, stmts[0]) != Normal
    ensures Split(JoinStatements(stmts)) != stmts
  {
    hide Split, EndState;
    JoinStatementsCons(stmts);
    var s, more := stmts[0], if |stmts| == 1 then "" else JoinStatements(stmts[1..]);
    assert s + ";\n" + more == s + (";" + ("\n" + more));
    if Split(JoinStatements(stmts)) == stmts {
      FirstReturnedEndsNormal(s, "\n" + more);
    }
  }

  lemma RenderStarts(c: Change, target: string, grantee: string)
    requires IsTrimmed(grantee)
    ensures IsTrimmed(RenderChange(c, target, grantee)) && RenderChange(c, target, grantee)[0] != ';'
  {
    RenderIsTrimmed(c, target, grantee);
    RenderedParts(c, target, grantee);
    hide RenderChange, Join;
    assert RenderChange(c, target, grantee)[0] == Head(c.verb)[0];
  }

  /** One statement about a routine splits back into itself exactly if the arguments have
  an even number of quotes and the text is ASCII. */
  lemma RoutineStatementSplitsBack(pk: PrivKind, schema: string, name: string, c: Change, g: string)
    requires IsRoutineKind(pk) && !pk.server && PrivTarget(pk, schema, name).Ok?
    requires forall p | p in c.privs :: IsWord(p)
    ensures var s := RenderChange(c, PrivTarget(pk, schema, name).value, GranteeSql(g));
            Split(JoinStatements([s])) == [s] <==> QuoteCount(RoutineArgs(name)) % 2 == 0 && IsAscii(s)
  {
    var target := PrivTarget(pk, schema, name).value;
    var s := RenderChange(c, target, GranteeSql(g));
    RoutineTargetBalancedIff(pk, schema, name);
    GranteeIsClosed(g);
    hide PrivTarget, RenderChange, Split, Balanced, JoinStatements, EndState, GranteeSql;
    if QuoteCount(RoutineArgs(name)) % 2 == 0 {
      RenderIsClosed(c, target, GranteeSql(g));
      assert [s][0] == s;
      SplitJoinRoundTrip([s]);
      assert IsAscii([s][0]) <==> IsAscii(s);
    } else {
      RenderStarts(c, target, GranteeSql(g));
      OddStatementEndsInside(pk, schema, name, c, g);
      InsideDoesNotSplitBack([s]);
    }
  }

  ghost predicate EndsOpen(s: string) {
    IsTrimmed(s) && s[0] != ';' && EndState(false, Normal, s) != Normal
  }

  lemma OddRowEndsInside(pk: PrivKind, schema: string, name: string, row: FormRow)
    requires IsRoutineKind(pk) && !pk.server && PrivTarget(pk, schema, name).Ok? && HasPrivNames(pk)
    requires QuoteCount(RoutineArgs(name)) % 2 == 1
    ensures forall s | s in RenderChanges(RowChanges(pk, row), PrivTarget(pk, schema, name).value, GranteeSql(row.grantee)) :: EndsOpen(s)
  {
    hide PrivTarget, RenderChange, Diff, ParsePrivState, Ticked, IsWord, GranteeSql, QuoteCount, RoutineArgs, EndState, Balanced, IsTrimmed;
    var target, grantee := PrivTarget(pk, schema, name).value, GranteeSql(row.grantee);
    GranteeIsClosed(row.grantee);
    DiffShape(pk.privs, ParsePrivState(row.orig), Ticked(pk, row));
    var cs := RowChanges(pk, row);
    forall i | 0 <= i < |cs| ensures EndsOpen(RenderChange(cs[i], target, grantee)) {
      RenderStarts(cs[i], target, grantee);
      OddStatementEndsInside(pk, schema, name, cs[i], row.grantee);
    }
  }

  lemma {:induction false} OddRowsEndInside(pk: PrivKind, schema: string, name: string, rows: seq<FormRow>)
    requires IsRoutineKind(pk) && !pk.server && PrivTarget(pk, schema, name).Ok? && HasPrivNames(pk)
    requires QuoteCount(RoutineArgs(name)) % 2 == 1
    ensures forall s | s in RowsToSql(pk, PrivTarget(pk, schema, name).value, rows) :: EndsOpen(s)
  {
    hide EndsOpen, PrivTarget, QuoteCount, RoutineArgs;
    if |rows| > 0 {
      OddRowsEndInside(pk, schema, name, rows[..|rows| - 1]);
      OddRowEndsInside(pk, schema, name, rows[|rows| - 1]);
      hide RenderChanges, RowChanges, GranteeSql;
    }
  }

  /** A script about a routine splits back into the statements it was joined from exactly if
  the arguments have an even number of quotes and the statements are ASCII. */
  lemma RoutineScriptSplitsBack(form: PrivForm)
    requires Script(form).Ok? && IsRoutineKind(KindOf(form.kind).value)
    ensures Split(Script(form).value) == FormSql(form)
       <==> QuoteCount(RoutineArgs(form.name)) % 2 == 0 && forall i | 0 <= i < |FormSql(form)| :: IsAscii(FormSql(form)[i])
  {
    RoutinesAreNotServerWide(form.kind);
    KindsHavePrivNames(form.kind);
    hide KindOf, PrivTarget, RowsToSql, Split, Balanced, JoinStatements, QuoteCount, RoutineArgs, HasPrivNames;
    var pk := KindOf(form.kind).value;
    RoutineTargetBalancedIff(pk, form.schema, form.name);
    if QuoteCount(RoutineArgs(form.name)) % 2 == 0 {
      BalancedScriptSplitsBack(form);
    } else {
      OddRowsEndInside(pk, form.schema, form.name, AllRows(form));
      var stmts := FormSql(form);
      assert EndsOpen(stmts[0]);
      InsideDoesNotSplitBack(stmts);
    }
  }

  lemma RoutinesAreNotServerWide(kind: string)
    ensures KindOf(kind).Some? && IsRoutineKind(KindOf(kind).value) ==> !KindOf(kind).value.server
  {
  }
}
