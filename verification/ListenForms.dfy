/** Which LISTEN and UNLISTEN statements parseListen accepts, and what it takes them for. */
module ListenForms {
  import opened Wrappers
  import opened GoStrings
  import opened SqlQuote
  import opened Listen
  import opened ListenMeaning
  import opened ListenLaws

  // ---- The argument -----------------------------------------------------------------------------

  /** A letter that strings.ToLower makes an ASCII one: the Kelvin sign and the dotted capital i are two more. */
  predicate IsCased(c: char) {
    'a' <= c <= 'z' || 'A' <= c <= 'Z' || c == '\U{130}' || c == '\U{212A}'
  }

  /** A name as it is written without quotes, in either case. */
  predicate IsPlainName(arg: string) {
    && arg != "" && (IsCased(arg[0]) || arg[0] == '_')
    && forall i :: 1 <= i < |arg| ==> IsCased(arg[i]) || arg[i] == '_' || '0' <= arg[i] <= '9'
  }

  lemma CasedLower(c: char)
    ensures 'a' <= LowerChar(c) <= 'z' <==> IsCased(c)
    ensures !IsCased(c) ==> LowerChar(c) == c
  {
  }

  lemma PlainNameIsSafe(arg: string)
    ensures IsSafeIdent(Lower(arg)) <==> IsPlainName(arg)
  {
    forall i | 0 <= i < |arg| ensures 'a' <= Lower(arg)[i] <= 'z' <==> IsCased(arg[i])
                              ensures !IsCased(arg[i]) ==> Lower(arg)[i] == arg[i] {
      CasedLower(arg[i]);
    }
    hide Lower, IsCased;
  }

  /** The quoted form of a name that is not empty. */
  ghost predicate IsQuotedName(arg: string) {
    exists c :: c != "" && arg == QuoteIdent(c)
  }

  lemma AcceptedQuotes(kind: string, arg: string)
    requires IsQuotedArg(arg)
    ensures ParseArg(kind, arg).Ok? <==> IsQuotedName(arg)
    ensures ParseArg(kind, arg).Ok? ==> ParseArg(kind, arg).value.kind == kind && arg == QuoteIdent(ParseArg(kind, arg).value.channel)
  {
    if ParseArg(kind, arg).Ok? {
      AcceptedIsQuoting(kind, arg);
      ChannelIsNotEmpty(kind, arg);
    }
    hide ParseArg, QuoteIdent;
    if IsQuotedName(arg) {
      var c :| c != "" && arg == QuoteIdent(c);
      ParseQuotedArg(kind, c);
    }
  }

  lemma AcceptedIsQuoting(kind: string, arg: string)
    requires IsQuotedArg(arg) && ParseArg(kind, arg).Ok?
    ensures ParseArg(kind, arg).value.kind == kind && arg == QuoteIdent(ParseArg(kind, arg).value.channel)
  {
    InsideQuotes(arg);
    assert arg != "*" && '"' !in ReplaceAll(Inner(arg), "\"\"", "");
    hide Inner, ReplaceAll;
    PairedIsDoubled(Inner(arg));
  }

  lemma InsideQuotes(arg: string)
    requires IsQuotedArg(arg)
    ensures arg == "\"" + Inner(arg) + "\""
  {
  }

  lemma QuotedNameIsQuoted(arg: string)
    ensures IsQuotedName(arg) ==> IsQuotedArg(arg) && !IsPlainName(arg) && arg != "*"
  {
    hide Doubled;
  }

  /** An argument is accepted exactly if it is a quoted name, an unquoted one of ASCII letters (as
  strings.ToLower makes them), digits and underscores, or the star of an UNLISTEN.  The channel is the name
  in the quotes, the unquoted one in lower case, or the star. */
  lemma ArgumentIsAccepted(kind: string, arg: string)
    ensures ParseArg(kind, arg).Ok? <==> (arg == "*" && kind == "UNLISTEN") || IsQuotedName(arg) || IsPlainName(arg)
    ensures ParseArg(kind, arg).Ok? ==>
              var cmd := ParseArg(kind, arg).value;
              && cmd.kind == kind
              && if arg == "*" then cmd.channel == "*"
                 else if IsPlainName(arg) then |cmd.channel| == |arg| && forall i | 0 <= i < |arg| :: cmd.channel[i] == LowerChar(arg[i])
                 else arg == QuoteIdent(cmd.channel)
  {
    PlainNameIsSafe(arg);
    QuotedNameIsQuoted(arg);
    StarIsNoWord();
    assert IsQuotedArg(arg) ==> !IsPlainName(arg);
    if IsQuotedArg(arg) {
      AcceptedQuotes(kind, arg);
    }
    hide IsQuotedName, QuoteIdent, ReplaceAll, IsPlainName, IsSafeIdent;
  }

  // ---- The statement around it ---------------------------------------------------------------------

  lemma {:induction false} FrontIsCut(l: string, x: string)
    requires AllSpace(l) && x != "" && !IsSpace(x[0])
    ensures TrimLeft(l + x) == x
  {
    if l == "" {
      assert l + x == x;
    } else {
      assert (l + x)[1..] == l[1..] + x;
      FrontIsCut(l[1..], x);
    }
  }

  lemma {:induction false} BackIsCut(x: string, r: string)
    requires AllSpace(r) && x != "" && !IsSpace(x[|x| - 1])
    ensures TrimRight(x + r) == x
    decreases |r|
  {
    if r == "" {
      assert x + r == x;
    } else {
      var s := x + r;
      assert s[..|s| - 1] == x + r[..|r| - 1] && s[|s| - 1] == r[|r| - 1];
      BackIsCut(x, r[..|r| - 1]);
    }
  }

  /** Blanks around a text that has none at its ends are what is trimmed. */
  lemma TrimAround(l: string, t: string, r: string)
    requires AllSpace(l) && AllSpace(r) && IsTrimmed(t)
    ensures Trim(l + (t + r)) == t
  {
    assert (t + r)[0] == t[0];
    hide IsSpace, TrimLeft, TrimRight;
    FrontIsCut(l, t + r);
    BackIsCut(t, r);
  }

  lemma {:induction false} SemicolonsAreCut(t: string, semis: string)
    requires t != "" && t[|t| - 1] != ';' && forall i :: 0 <= i < |semis| ==> semis[i] == ';'
    ensures TrimRightSemicolons(t + semis) == t
    decreases |semis|
  {
    var s := t + semis;
    if semis == "" {
      assert s == t;
    } else {
      assert s[..|s| - 1] == t + semis[..|semis| - 1];
      SemicolonsAreCut(t, semis[..|semis| - 1]);
    }
  }

  /** Blanks around the statement, and semicolons behind it, do not matter. */
  lemma FieldsAre(l: string, q: string, gap: string, semis: string, r: string)
    requires AllSpace(l) && AllSpace(gap) && AllSpace(r) && IsTrimmed(q) && q[|q| - 1] != ';'
    requires forall i :: 0 <= i < |semis| ==> semis[i] == ';'
    ensures Fields(l + (q + (gap + (semis + r)))) == q
  {
    hide Trim, TrimRightSemicolons, IsSpace;
    if semis == "" {
      assert gap + (semis + r) == gap + r && AllSpace(gap + r);
      TrimAround(l, q, gap + r);
      SemicolonsAreCut(q, "");
      assert q + "" == q;
      TrimOfTrimmed(q);
    } else {
      var u := q + gap;
      var t := u + semis;
      assert q + (gap + (semis + r)) == t + r;
      assert t[0] == q[0] && t[|t| - 1] == ';' && IsTrimmed(t) by { SemicolonIsNoBlank(); }
      TrimAround(l, t, r);
      assert u[|u| - 1] != ';' by { SemicolonIsNoBlank(); LastOf(q, gap); }
      SemicolonsAreCut(u, semis);
      TrimAround("", q, gap);
      assert "" + (q + gap) == u;
    }
  }

  lemma SemicolonIsNoBlank()
    ensures !IsSpace(';')
  {
  }

  lemma LastOf(q: string, gap: string)
    requires q != ""
    ensures var u := q + gap; u[|u| - 1] == if gap == "" then q[|q| - 1] else gap[|gap| - 1]
  {
  }

  /** A word, blanks and an argument are taken for the word in capitals and the argument, whatever blanks
  are around them and semicolons behind. */
  lemma StatementIsParsed(l: string, word: string, gap: string, arg: string, behind: string, semis: string, r: string)
    requires AllSpace(l) && AllSpace(gap) && AllSpace(behind) && AllSpace(r) && (forall i :: 0 <= i < |semis| ==> semis[i] == ';')
    requires word != "" && forall i :: 0 <= i < |word| ==> !IsSpace(word[i])
    requires gap != "" && (gap[0] == ' ' || gap[0] == '\t' || gap[0] == '\r' || gap[0] == '\n')
    requires IsTrimmed(arg) && arg[|arg| - 1] != ';'
    ensures ParseListen(l + (word + (gap + arg) + (behind + (semis + r)))) == ParseArg(Upper(word), arg)
  {
    var q := word + (gap + arg);
    assert q[0] == word[0] && q[|q| - 1] == arg[|arg| - 1] && q[|word|] == gap[0];
    assert forall i | 0 <= i < |word| :: q[i] == word[i] && !IsWordEnd(q[i]);
    assert q[..|word|] == word && q[|word|..] == gap + arg;
    hide IsSpace, Trim, ParseArg, Fields, Upper;
    FieldsAre(l, q, behind, semis, r);
    FirstWordEndIs(q, |word|);
    assert Trim(gap + arg) == arg by { assert gap + (arg + "") == gap + arg; TrimAround(gap, arg, ""); }
  }

  /** A statement of one word names no channel. */
  lemma OneWordIsRefused(l: string, word: string, behind: string, semis: string, r: string)
    requires AllSpace(l) && AllSpace(behind) && AllSpace(r) && (forall i :: 0 <= i < |semis| ==> semis[i] == ';')
    requires word != "" && word[|word| - 1] != ';' && forall i :: 0 <= i < |word| ==> !IsSpace(word[i])
    ensures ParseListen(l + (word + (behind + (semis + r)))) == Err("A channel name is required")
  {
    assert forall i | 0 <= i < |word| :: !IsWordEnd(word[i]);
    hide IsSpace, Trim, ParseArg, Fields, Upper;
    FieldsAre(l, word, behind, semis, r);
    assert FirstWordEnd(word) == |word|;
  }
}
