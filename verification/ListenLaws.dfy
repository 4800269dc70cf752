/** What is sent for an accepted LISTEN or UNLISTEN statement against what was written. */
module ListenLaws {
  import opened Wrappers
  import opened GoStrings
  import opened SqlQuote
  import opened SqlNames
  import opened Listen
  import opened ListenMeaning

  // ---- The parts of an accepted statement ---------------------------------------------------------

  lemma {:induction false} SemicolonsAreAtTheEnd(s: string) returns (semis: string)
    ensures s == TrimRightSemicolons(s) + semis && IsEnd(semis)
  {
    if s != "" && s[|s| - 1] == ';' {
      var more := SemicolonsAreAtTheEnd(s[..|s| - 1]);
      semis := more + [';'];
      assert s == s[..|s| - 1] + [';'];
    } else {
      semis := "";
    }
  }

  /** The text in front of a trimmed one is all the blank there is. */
  lemma TrimmedInFront(u: string)
    requires Trim(u) != "" && !IsSpace(u[0])
    ensures u == Trim(u) + Trailing(TrimLeft(u)) && AllSpace(Trailing(TrimLeft(u)))
  {
    TrimParts(u);
    hide Trim, TrimLeft, Trailing;
    var l, t, r := Leading(u), Trim(u), Trailing(TrimLeft(u));
    assert l == "" && l + t + r == t + r;
  }

  lemma TrimmedBehind(u: string)
    requires u != "" && !IsSpace(u[|u| - 1])
    ensures u == Leading(u) + Trim(u) && AllSpace(Leading(u)) && IsTrimmed(Trim(u))
  {
    LeadingSplits(u);
    var l, t := Leading(u), TrimLeft(u);
    hide Leading, TrimLeft;
    EndOfText(l, t, u);
    assert TrimRight(t) == t;
  }

  lemma EndOfText(l: string, t: string, u: string)
    requires u == l + t && AllSpace(l) && u != "" && !IsSpace(u[|u| - 1])
    ensures t != "" && t[|t| - 1] == u[|u| - 1]
  {
    assert t == "" ==> u == l;
  }

  /** The first word of an accepted statement. */
  function FirstWord(stmt: string): string {
    Fields(stmt)[..FirstWordEnd(Fields(stmt))]
  }

  /** The statement in five parts: blanks, the first word, blanks, the argument, and the end. */
  predicate HasParts(stmt: string, l: string, gap: string, post: string) {
    && stmt == l + (FirstWord(stmt) + (gap + (ArgOf(stmt) + post)))
    && AllSpace(l) && AllSpace(gap) && IsEnd(post)
    && gap != "" && IsWordEnd(gap[0]) && IsTrimmed(ArgOf(stmt)) && FirstWord(stmt) != "" && !IsSpace(FirstWord(stmt)[0])
  }

  lemma FieldsInside(stmt: string) returns (l: string, post: string)
    requires Fields(stmt) != ""
    ensures stmt == l + (Fields(stmt) + post) && AllSpace(l) && IsEnd(post) && IsTrimmed(Fields(stmt))
  {
    var t := Trim(stmt);
    var u := TrimRightSemicolons(t);
    TrimParts(stmt);
    var semis := SemicolonsAreAtTheEnd(t);
    TrimParts(u);
    hide Trim, TrimLeft, Leading, Trailing, TrimRightSemicolons;
    assert u != "" by { TrimOfNothing(); }
    assert t != "" && u[0] == t[0];
    TrimmedInFront(u);
    l := Leading(stmt);
    post := Trailing(TrimLeft(u)) + semis + Trailing(TrimLeft(stmt));
    FiveParts(l, Trim(u), Trailing(TrimLeft(u)), semis, Trailing(TrimLeft(stmt)));
  }

  lemma TrimOfNothing()
    ensures Trim("") == ""
  {
  }

  lemma FiveParts(a: string, b: string, c: string, d: string, e: string)
    ensures a + (b + c + d) + e == a + (b + (c + d + e))
  {
  }

  lemma ArgumentInside(stmt: string) returns (gap: string)
    requires ParseListen(stmt).Ok? && IsTrimmed(Fields(stmt))
    ensures Fields(stmt) == FirstWord(stmt) + (gap + ArgOf(stmt)) && AllSpace(gap) && gap != "" && IsWordEnd(gap[0])
    ensures IsTrimmed(ArgOf(stmt)) && FirstWord(stmt) != "" && !IsSpace(FirstWord(stmt)[0])
  {
    var q := Fields(stmt);
    var idx := FirstWordEnd(q);
    assert idx < |q|;
    var behind := q[idx..];
    hide Fields, ParseArg, Trim, Leading, FirstWordEnd;
    assert behind[|behind| - 1] == q[|q| - 1] && behind[0] == q[idx];
    TrimmedBehind(behind);
    gap := Leading(behind);
    BlankInFront(gap, Trim(behind), behind);
    assert q == q[..idx] + behind;
  }

  lemma BlankInFront(gap: string, arg: string, behind: string)
    requires behind == gap + arg && behind != "" && IsWordEnd(behind[0]) && IsTrimmed(arg)
    ensures gap != "" && gap[0] == behind[0]
  {
    assert gap == "" ==> gap + arg == arg;
  }

  lemma StatementParts(stmt: string) returns (l: string, gap: string, post: string)
    requires ParseListen(stmt).Ok?
    ensures HasParts(stmt, l, gap, post)
  {
    assert Fields(stmt) != "";
    hide Fields, ParseListen, FirstWord, ArgOf, IsTrimmed;
    l, post := FieldsInside(stmt);
    gap := ArgumentInside(stmt);
    var x, arg := FirstWord(stmt), ArgOf(stmt);
    assert x + (gap + arg) + post == x + (gap + (arg + post));
  }

  // ---- Statements that begin with their keyword -------------------------------------------------------

  lemma KindIsFirstWord(stmt: string)
    requires ParseListen(stmt).Ok?
    ensures ParseListen(stmt).value.kind == Upper(FirstWord(stmt)) && ParseArg(Upper(FirstWord(stmt)), ArgOf(stmt)) == ParseListen(stmt)
  {
    hide Fields, ReplaceAll, FirstWordEnd, Upper, Lower, Trim;
  }

  lemma ChannelIsNotEmpty(kind: string, arg: string)
    requires ParseArg(kind, arg).Ok?
    ensures ParseArg(kind, arg).value.channel != ""
  {
    hide ReplaceAll;
  }

  lemma {:induction false} AsciiConcat(a: string, b: string)
    ensures IsAscii(a + b) <==> IsAscii(a) && IsAscii(b)
  {
    var s := a + b;
    if IsAscii(s) {
      assert forall i | 0 <= i < |a| :: a[i] == s[i];
      assert forall i | 0 <= i < |b| :: b[i] == s[|a| + i];
    }
  }

  /** Everything outside the argument, and the argument too unless it is quoted, is ASCII. */
  predicate PartsAreAscii(stmt: string, l: string, gap: string, post: string) {
    && IsAscii(l) && IsAscii(FirstWord(stmt)) && IsAscii(gap) && IsAscii(post)
    && (IsQuotedArg(ArgOf(stmt)) || IsAscii(ArgOf(stmt)))
  }

  /** The argument is neither an unquoted reserved word nor the quoted channel "*" of an UNLISTEN. */
  predicate IsTakenLiterally(cmd: Command, arg: string) {
    if IsQuotedArg(arg) then !(cmd.kind == "UNLISTEN" && arg == "\"*\"") else !IsReserved(cmd.channel)
  }

  lemma ArgumentMeans(stmt: string, gap: string, post: string)
    requires ParseListen(stmt).Ok? && IsVerb(ParseListen(stmt).value.kind) && AllSpace(gap) && IsEnd(post)
    ensures var cmd, arg := ParseListen(stmt).value, ArgOf(stmt);
            VerbMeaning(cmd.kind, gap + (arg + post)) == Some(MeaningFor(cmd))
            <==> IsAscii(gap) && IsAscii(post) && (IsQuotedArg(arg) || IsAscii(arg)) && IsTakenLiterally(cmd, arg)
  {
    var cmd, arg := ParseListen(stmt).value, ArgOf(stmt);
    KindIsFirstWord(stmt);
    hide ParseListen, FirstWord, ArgOf, VerbMeaning, ReplaceAll, IsReserved, QuoteIdent, Lower;
    if IsQuotedArg(arg) {
      AcceptedQuotedArg(stmt);
      ChannelIsNotEmpty(cmd.kind, arg);
      QuotedArgument(cmd.kind, gap, cmd.channel, post);
      QuotedStar(cmd.channel);
    } else if arg == "*" {
      StarIsNoWord();
      StarArgument(gap, post);
    } else {
      PlainArgument(cmd.kind, gap, arg, post);
      PlainChars(arg);
      StarIsNoWord();
    }
  }

  lemma StarIsNoWord()
    ensures !IsSafeIdent("*") && !IsReserved("*") && !IsSafeIdent(Lower("*")) && IsAscii("*")
  {
    assert Lower("*")[0] == '*';
  }

  lemma QuotedStar(c: string)
    ensures QuoteIdent(c) == "\"*\"" <==> c == "*"
  {
    DoubledCons("*", '"');
    assert "*"[1..] == "";
    ReadQuotedOf(c, '"', "");
    ReadQuotedOf("*", '"', "");
    assert QuoteIdent(c)[1..] == Doubled(c, '"') + ['"'] + "" && QuoteIdent("*")[1..] == Doubled("*", '"') + ['"'] + "";
  }

  /** A statement that begins with its keyword means what its command means exactly if it is ASCII
  outside the quotes and its argument is taken literally. */
  lemma VerbStatement(stmt: string, l: string, gap: string, post: string)
    requires ParseListen(stmt).Ok? && IsVerb(ParseListen(stmt).value.kind) && HasParts(stmt, l, gap, post)
    ensures MeaningOf(stmt) == Some(MeaningFor(ParseListen(stmt).value))
       <==> PartsAreAscii(stmt, l, gap, post) && IsTakenLiterally(ParseListen(stmt).value, ArgOf(stmt))
  {
    var x, y := FirstWord(stmt), gap + (ArgOf(stmt) + post);
    KindIsFirstWord(stmt);
    hide ParseListen, FirstWord, ArgOf, MeaningOf, VerbMeaning, MeaningFor, IsTakenLiterally, IsQuotedArg, IsVerb, Upper;
    assert stmt == l + (x + y) && AllSpace(l) && AllSpace(gap) && IsEnd(post) && y[0] == gap[0] && !IsPgIdent(gap[0]);
    assert PartsAreAscii(stmt, l, gap, post) <==>
             (IsAscii(l) && IsAscii(x)) && (IsAscii(gap) && IsAscii(post) && (IsQuotedArg(ArgOf(stmt)) || IsAscii(ArgOf(stmt))));
    hide *;
    ArgumentMeans(stmt, gap, post);
    VerbInFront(l, x, y);
  }

  // ---- Statements behind a comment ----------------------------------------------------------------

  function Letters(s: string): nat {
    if s == "" then 0 else (if IsLetter(s[0]) then 1 else 0) + Letters(s[1..])
  }

  lemma {:induction false} LettersConcat(a: string, b: string)
    ensures Letters(a + b) == Letters(a) + Letters(b)
  {
    if a == "" {
      assert a + b == b;
    } else {
      assert (a + b)[1..] == a[1..] + b;
      LettersConcat(a[1..], b);
    }
  }

  lemma LettersOfRest(r: string, s: string)
    requires IsRest(r, s)
    ensures Letters(r) <= Letters(s)
  {
    assert s == s[..|s| - |r|] + r;
    LettersConcat(s[..|s| - |r|], r);
  }

  lemma {:induction false} NoLetters(s: string)
    requires forall i :: 0 <= i < |s| ==> !IsLetter(s[i])
    ensures Letters(s) == 0
  {
    if s != "" {
      NoLetters(s[1..]);
    }
  }

  lemma {:induction false} LettersOfCase(s: string)
    ensures Letters(AsciiUpper(s)) == Letters(s) && Letters(AsciiLower(s)) == Letters(s) && Letters(s) <= Letters(Lower(s))
  {
    if s != "" {
      LettersOfCase(s[1..]);
      assert AsciiUpper(s)[1..] == AsciiUpper(s[1..]) && AsciiLower(s)[1..] == AsciiLower(s[1..]) && Lower(s)[1..] == Lower(s[1..]);
      assert Lower(s)[0] == LowerChar(s[0]);
    }
  }

  lemma LettersOfVerbs()
    ensures Letters("LISTEN") == 6 && Letters("UNLISTEN") == 8
  {
    assert "LISTEN"[1..] == "ISTEN" && "ISTEN"[1..] == "STEN" && "STEN"[1..] == "TEN" && "TEN"[1..] == "EN" && "EN"[1..] == "N" && "N"[1..] == "";
    assert Letters("EN") == 2 && Letters("STEN") == 4;
    assert "UNLISTEN"[1..] == "NLISTEN" && "NLISTEN"[1..] == "LISTEN";
  }

  /** A quoted text has no fewer letters than what it stands for. */
  lemma {:induction false} LettersOfQuoted(s: string)
    requires ReadQuoted(s, '"').Some?
    ensures Letters(ReadQuoted(s, '"').value.0) <= Letters(s)
    decreases |s|
  {
    if s[0] == '"' {
      if |s| > 1 && s[1] == '"' {
        LettersOfQuoted(s[2..]);
        assert s[1..][1..] == s[2..];
        var x := ReadQuoted(s[2..], '"').value.0;
        assert (['"'] + x)[1..] == x;
      }
    } else {
      LettersOfQuoted(s[1..]);
      var x := ReadQuoted(s[1..], '"').value.0;
      assert ([s[0]] + x)[1..] == x;
    }
  }

  lemma {:induction false} LettersOfDoubled(c: string)
    ensures Letters(Doubled(c, '"')) == Letters(c)
  {
    if c != "" {
      DoubledCons(c, '"');
      LettersOfDoubled(c[1..]);
      var d := if c[0] == '"' then ['"', '"'] else [c[0]];
      LettersConcat(d, Doubled(c[1..], '"'));
      assert d[1..] == (if c[0] == '"' then ['"'] else "") && ['"'][1..] == "";
    }
  }

  lemma LettersOfChannel(s: string)
    requires ReadChannel(s).Some?
    ensures Letters(ReadChannel(s).value.0) <= Letters(s)
  {
    if s != "" && s[0] == '"' {
      LettersOfQuoted(s[1..]);
    } else {
      var w := Word(s);
      LettersOfCase(w);
      assert s == w + s[|w|..];
      LettersConcat(w, s[|w|..]);
      hide Word, Letters, IsReserved;
    }
  }

  /** What a statement is about, as it is written. */
  function NameOf(m: Meaning): string {
    match m
    case Listens(c) => c
    case Unlistens(c) => c
    case UnlistensAll => "*"
  }

  lemma LettersOfName(s: string)
    requires NameAt(s).Some?
    ensures Letters(NameAt(s).value) <= Letters(s)
  {
    LettersOfRest(Skip(s), s);
    hide Skip, ReadChannel, OnlyEnds, Letters;
    LettersOfChannel(Skip(s));
  }

  lemma LettersOfVerbMeaning(verb: string, s: string)
    requires VerbMeaning(verb, s).Some?
    ensures IsVerb(verb) && Letters(NameOf(VerbMeaning(verb, s).value)) <= Letters(s)
  {
    NoLetters("*");
    hide Skip, NameAt, OnlyEnds, Letters;
    if NameAt(s).Some? {
      LettersOfName(s);
    }
  }

  lemma LettersOfVerb(w: string)
    requires IsVerb(AsciiUpper(w))
    ensures Letters(w) >= 6
  {
    LettersOfVerbs();
    LettersOfCase(w);
    hide Letters, AsciiUpper;
  }

  /** A statement has the letters of its keyword more than the name it is about. */
  lemma LettersOfMeaning(stmt: string)
    requires MeaningOf(stmt).Some?
    ensures Letters(NameOf(MeaningOf(stmt).value)) + 6 <= Letters(Skip(stmt))
  {
    var r := Skip(stmt);
    var w := Word(r);
    hide Skip, Word, VerbMeaning, Letters, NameOf, IsVerb;
    LettersOfVerbMeaning(AsciiUpper(w), r[|w|..]);
    LettersOfVerb(w);
    assert r == w + r[|w|..];
    LettersConcat(w, r[|w|..]);
  }

  lemma {:induction false} BehindLinePasses(x: string, y: string)
    requires forall i :: 0 <= i < |x| ==> x[i] != '\n' && x[i] != '\r'
    ensures IsRest(BehindLine(x + y), y)
  {
    if x == "" {
      assert x + y == y;
    } else {
      assert (x + y)[1..] == x[1..] + y;
      BehindLinePasses(x[1..], y);
    }
  }

  /** A comment takes the whole first word with it. */
  lemma SkipComment(x: string, y: string)
    requires "--" <= x && forall i :: 0 <= i < |x| ==> x[i] != '\n' && x[i] != '\r'
    ensures IsRest(Skip(x + y), y)
  {
    var s := x + y;
    assert s[0] == '-' && s[1] == '-' && s[..2] == "--";
    assert s[2..] == x[2..] + y;
    BehindLinePasses(x[2..], y);
    RestOfRest(Skip(BehindLine(s[2..])), BehindLine(s[2..]), y);
    assert Skip(s) == Skip(BehindLine(s[2..]));
  }

  lemma LettersOfArgument(kind: string, arg: string)
    requires ParseArg(kind, arg).Ok?
    ensures Letters(arg) <= Letters(ParseArg(kind, arg).value.channel)
  {
    var c := ParseArg(kind, arg).value.channel;
    if IsQuotedArg(arg) {
      PairedIsDoubled(Inner(arg));
      LettersOfDoubled(c);
      hide ReplaceAll, Doubled, Letters;
      var inner := Inner(arg);
      assert arg == "\"" + (inner + "\"");
      LettersConcat("\"", inner + "\"");
      LettersConcat(inner, "\"");
      NoLetters("\"");
    } else if arg != "*" {
      LettersOfCase(arg);
    }
    hide *;
  }

  /** Behind a comment only the argument has letters, too few for a keyword and the channel. */
  lemma CommentMeansAnother(stmt: string, l: string, gap: string, post: string)
    requires ParseListen(stmt).Ok? && HasParts(stmt, l, gap, post) && "--" <= FirstWord(stmt)
    ensures MeaningOf(stmt) != Some(MeaningFor(ParseListen(stmt).value))
  {
    var x, arg, cmd := FirstWord(stmt), ArgOf(stmt), ParseListen(stmt).value;
    var y := gap + (arg + post);
    KindIsFirstWord(stmt);
    LettersOfArgument(cmd.kind, arg);
    assert forall i | 0 <= i < |x| :: !IsWordEnd(x[i]);
    NoLetters(gap);
    NoLetters(post);
    hide Skip, Letters, MeaningOf, ParseListen, FirstWord, ArgOf, ParseArg;
    LettersConcat(gap, arg + post);
    LettersConcat(arg, post);
    if IsAscii(l) {
      SkipBlanks(l, x + y);
      SkipComment(x, y);
      LettersOfRest(Skip(stmt), y);
      FewLettersMeanAnother(stmt, cmd);
    } else {
      var k := SkipToName(l, x + y);
      HighIsNoVerb(stmt);
    }
  }

  lemma FewLettersMeanAnother(stmt: string, cmd: Command)
    requires Letters(Skip(stmt)) <= Letters(cmd.channel)
    ensures MeaningOf(stmt) != Some(MeaningFor(cmd))
  {
    assert NameOf(MeaningFor(cmd)) == cmd.channel;
    hide Skip, Letters, MeaningOf, MeaningFor, NameOf;
    if MeaningOf(stmt).Some? {
      LettersOfMeaning(stmt);
    }
  }

  // ---- What is intercepted ------------------------------------------------------------------------

  /** Trimming keeps what begins and ends in no blank. */
  lemma TrimKeeps(l: string, a: string, b: string)
    requires AllSpace(l) && IsTrimmed(a)
    ensures a <= Trim(l + (a + b))
  {
    var s := l + (a + b);
    TrimParts(s);
    hide Trim, TrimLeft, Leading, Trailing;
    var l', t, r := Leading(s), Trim(s), Trailing(TrimLeft(s));
    assert s[|l|] == a[0] && s[|l| + |a| - 1] == a[|a| - 1];
    assert s == l' + (t + r) && |s| == |l'| + |t| + |r|;
    KeptPart(s, l', t, r, |l|, |a|);
    assert s[|l|..|l| + |a|] == a;
  }

  lemma KeptPart(s: string, l': string, t: string, r: string, n: nat, m: nat)
    requires s == l' + (t + r) && AllSpace(l') && AllSpace(r) && (t != "" ==> IsTrimmed(t))
    requires n + m <= |s| && m > 0 && (forall i :: 0 <= i < n ==> IsSpace(s[i])) && !IsSpace(s[n]) && !IsSpace(s[n + m - 1])
    ensures s[n..n + m] <= t
  {
    assert forall i | 0 <= i < |l'| :: s[i] == l'[i] && IsSpace(s[i]);
    assert forall i | 0 <= i < |t| :: s[|l'| + i] == t[i];
    assert forall i | |l'| + |t| <= i < |s| :: s[i] == r[i - |l'| - |t|] && IsSpace(s[i]);
    assert |l'| <= n && n + m <= |l'| + |t|;
    assert t[0] == s[|l'|];
    assert |l'| == n;
    assert t[..m] == s[n..n + m];
  }

  lemma UpperConcat(a: string, b: string)
    ensures Upper(a + b) == Upper(a) + Upper(b)
  {
  }

  lemma UpperKeepsBlanks(s: string)
    ensures forall i | 0 <= i < |s| :: (IsSpace(Upper(s)[i]) <==> IsSpace(s[i])) && (IsWordEnd(Upper(s)[i]) <==> IsWordEnd(s[i]))
    ensures forall i | 0 <= i < |s| :: Upper(s)[i] == '-' <==> s[i] == '-'
  {
  }

  lemma {:induction false} FirstWordEndIs(s: string, n: nat)
    requires n < |s| && IsWordEnd(s[n]) && forall i :: 0 <= i < n ==> !IsWordEnd(s[i])
    ensures FirstWordEnd(s) == n
  {
  }

  /** An intercepted statement begins with its keyword or with a comment. */
  lemma InterceptedBegins(stmt: string, l: string, gap: string, post: string)
    requires ParseListen(stmt).Ok? && HasParts(stmt, l, gap, post) && IsIntercepted(stmt) && !("--" <= FirstWord(stmt))
    ensures IsVerb(ParseListen(stmt).value.kind)
  {
    var x, arg := FirstWord(stmt), ArgOf(stmt);
    var a := x + (gap + arg);
    KindIsFirstWord(stmt);
    WordHasNoEnd(stmt);
    hide ParseListen, FirstWord, ArgOf, Upper, Trim, StripLeadingComments, IsSpace, ParseArg, FirstKeyword;
    assert stmt == l + (a + post);
    assert a[|a| - 1] == arg[|arg| - 1] && a[0] == x[0] && a[|x|] == gap[0] && x <= a;
    hide IsWordEnd;
    UpperIsTrimmed(l, a, post);
    hide HasParts, AllSpace, IsEnd, IsTrimmed;
    KeywordInFront(stmt, a, x);
  }

  lemma WordHasNoEnd(stmt: string)
    ensures forall i | 0 <= i < |FirstWord(stmt)| :: !IsWordEnd(FirstWord(stmt)[i])
  {
    hide Fields;
  }

  lemma KeywordInFront(stmt: string, a: string, x: string)
    requires Upper(a) <= Trim(Upper(stmt)) && x <= a && |x| < |a| && IsWordEnd(a[|x|]) && !("--" <= x) && x != ""
    requires forall i :: 0 <= i < |x| ==> !IsWordEnd(x[i])
    ensures FirstKeyword(stmt) == Upper(x)
  {
    hide Upper, Trim, StripLeadingComments, FirstWordEnd;
    FirstKeywordIs(Trim(Upper(stmt)), a, x);
  }

  lemma UpperIsTrimmed(l: string, a: string, post: string)
    requires AllSpace(l) && IsTrimmed(a)
    ensures Upper(a) <= Trim(Upper(l + (a + post)))
  {
    UpperConcat(l, a + post);
    UpperConcat(a, post);
    UpperKeepsBlanks(l);
    UpperKeepsBlanks(a);
    hide Upper, Trim;
    TrimKeeps(Upper(l), Upper(a), Upper(post));
  }

  lemma FirstKeywordIs(t: string, a: string, x: string)
    requires Upper(a) <= t && x <= a && |x| < |a| && IsWordEnd(a[|x|]) && !("--" <= x) && x != ""
    requires forall i :: 0 <= i < |x| ==> !IsWordEnd(x[i])
    ensures var q := StripLeadingComments(t); q[..FirstWordEnd(q)] == Upper(x)
  {
    UpperKeepsBlanks(a);
    assert forall i | 0 <= i < |a| :: t[i] == Upper(a)[i];
    assert a[0] == x[0] && (|x| >= 2 ==> a[1] == x[1]) && (|x| == 1 ==> IsWordEnd(a[1]));
    assert |x| == 1 || x[0] != '-' || x[1] != '-' by { assert |x| >= 2 ==> x[..2] == [x[0], x[1]]; }
    assert !("--" <= t);
    assert forall i | 0 <= i < |x| :: a[i] == x[i];
    FirstWordEndIs(t, |x|);
    assert t[..|x|] == Upper(x);
  }

  // ---- The theorem --------------------------------------------------------------------------------

  /** Where the first quote stands, or the end of the text. */
  function QuoteAt(s: string): (n: nat)
    ensures n <= |s| && (forall i :: 0 <= i < n ==> s[i] != '"') && (n < |s| ==> s[n] == '"')
  {
    if s == "" || s[0] == '"' then 0 else 1 + QuoteAt(s[1..])
  }

  /** Behind the last quote, or the beginning of the text. */
  function QuoteEnd(s: string): (n: nat)
    ensures n <= |s| && (forall i :: n <= i < |s| ==> s[i] != '"') && (n > 0 ==> s[n - 1] == '"')
  {
    if s == "" || s[|s| - 1] == '"' then |s| else QuoteEnd(s[..|s| - 1])
  }

  /** The text without what is quoted in it. */
  function Outside(s: string): string {
    if QuoteAt(s) < QuoteEnd(s) then s[..QuoteAt(s)] + s[QuoteEnd(s)..] else s
  }

  lemma QuotesOf(a: string, m: string, b: string)
    requires '"' !in a && '"' !in b && IsQuotedArg(m)
    ensures QuoteAt(a + (m + b)) == |a| && QuoteEnd(a + (m + b)) == |a| + |m|
  {
    var s := a + (m + b);
    hide QuoteAt, QuoteEnd;
    assert s[|a|] == '"' && s[|a| + |m| - 1] == '"';
    assert forall i | 0 <= i < |a| :: s[i] == a[i];
    assert forall i | |a| + |m| <= i < |s| :: s[i] == b[i - |a| - |m|];
  }

  lemma OutsideOf(a: string, m: string, b: string)
    requires '"' !in a && '"' !in b && (IsQuotedArg(m) || '"' !in m)
    ensures Outside(a + (m + b)) == if IsQuotedArg(m) then a + b else a + (m + b)
  {
    var s := a + (m + b);
    hide QuoteAt, QuoteEnd;
    if IsQuotedArg(m) {
      QuotesOf(a, m, b);
      assert s[..|a|] == a && s[|a| + |m|..] == b;
    } else {
      assert forall i | 0 <= i < |s| :: s[i] != '"';
    }
  }

  lemma OutsideOfParts(stmt: string, l: string, gap: string, post: string)
    requires ParseListen(stmt).Ok? && HasParts(stmt, l, gap, post) && IsVerb(Upper(FirstWord(stmt)))
    ensures PartsAreAscii(stmt, l, gap, post) <==> IsAscii(Outside(stmt))
  {
    var x, arg := FirstWord(stmt), ArgOf(stmt);
    KindIsFirstWord(stmt);
    if !IsQuotedArg(arg) {
      UnquotedHasNoQuote(Upper(x), arg);
    }
    VerbHasNoQuote(x);
    hide ParseListen, ParseArg, FirstWord, ArgOf, Outside, Upper, IsVerb, IsQuotedArg;
    var front := l + x + gap;
    assert l + (x + (gap + (arg + post))) == front + (arg + post);
    OutsideOf(front, arg, post);
    hide HasParts;
    AsciiConcat(l + x, gap);
    AsciiConcat(l, x);
    AsciiConcat(front, post);
    AsciiConcat(front, arg + post);
    AsciiConcat(arg, post);
  }

  lemma VerbHasNoQuote(x: string)
    requires IsVerb(Upper(x))
    ensures '"' !in x
  {
    assert forall i | 0 <= i < |x| :: Upper(x)[i] == UpperChar(x[i]);
  }

  lemma UnquotedHasNoQuote(kind: string, arg: string)
    requires ParseArg(kind, arg).Ok? && !IsQuotedArg(arg)
    ensures '"' !in arg
  {
    if arg != "*" {
      assert forall i | 0 <= i < |arg| :: Lower(arg)[i] == LowerChar(arg[i]);
    }
  }

  /** What is sent for an accepted statement means what was written if and only if the statement
  begins with its keyword, is ASCII outside the quotes, and its argument is neither an unquoted
  reserved word nor the quoted channel "*" of an UNLISTEN. */
  lemma SentMeansWhatWasWritten(stmt: string)
    requires IsIntercepted(stmt) && ParseListen(stmt).Ok?
    ensures var cmd := ParseListen(stmt).value;
            MeaningOf(SentFor(cmd)) == MeaningOf(stmt)
            <==> IsVerb(cmd.kind) && IsAscii(Outside(stmt)) && IsTakenLiterally(cmd, ArgOf(stmt))
  {
    var cmd := ParseListen(stmt).value;
    var l, gap, post := StatementParts(stmt);
    KindIsFirstWord(stmt);
    hide MeaningOf, SentFor, MeaningFor, ParseListen, FirstWord, ArgOf, HasParts, PartsAreAscii, IsIntercepted, Outside, ParseArg, IsTakenLiterally;
    ChannelIsNotEmpty(cmd.kind, ArgOf(stmt));
    MeaningOfSent(cmd);
    if IsVerb(cmd.kind) {
      VerbStatement(stmt, l, gap, post);
      OutsideOfParts(stmt, l, gap, post);
    } else {
      assert "--" <= FirstWord(stmt) by { if !("--" <= FirstWord(stmt)) { InterceptedBegins(stmt, l, gap, post); } }
      CommentMeansAnother(stmt, l, gap, post);
    }
  }

  // ---- Statements that are sent as others ---------------------------------------------------------

  /** UNLISTEN "*" asks to leave one channel and is sent as the statement that leaves all. */
  lemma QuotedStarLeavesAll()
    ensures ParseListen("UNLISTEN \"*\"") == Ok(Command("UNLISTEN", "*"))
    ensures MeaningOf("UNLISTEN \"*\"") == Some(Unlistens("*"))
    ensures MeaningOf(SentFor(Command("UNLISTEN", "*"))) == Some(UnlistensAll)
  {
    QuotedStar("*");
    assert "UNLISTEN" + " " + QuoteIdent("*") == "UNLISTEN \"*\"" && QuoteIdent("*") + "" == QuoteIdent("*");
    hide *;
    UnlistenIsWord();
    ParseOfQuoted("UNLISTEN", "*");
    MeaningOfWords("UNLISTEN", QuoteIdent("*"));
    BlankIsBlank();
    QuotedArgument("UNLISTEN", " ", "*", "");
    MeaningOfSent(Command("UNLISTEN", "*"));
    StarIsLeft();
  }

  lemma UnlistenIsWord()
    ensures IsWord("UNLISTEN") && IsVerb("UNLISTEN") && "*" != "" && "UNLISTEN" != "LISTEN"
  {
  }

  lemma BlankIsBlank()
    ensures AllSpace(" ") && IsEnd("") && IsAscii(" ") && IsAscii("")
  {
  }

  lemma StarIsLeft()
    ensures MeaningFor(Command("UNLISTEN", "*")) == UnlistensAll
  {
  }

  /** A comment line and the bare keyword: no statement, but it is accepted and an UNLISTEN is sent. */
  lemma CommentedKeywordIsSent()
    ensures var stmt := "--\nLISTEN";
            && IsIntercepted(stmt) && ParseListen(stmt) == Ok(Command("--", "listen"))
            && MeaningOf(stmt) == None
            && MeaningOf(SentFor(Command("--", "listen"))) == Some(Unlistens("listen"))
  {
    hide *;
    ParsedBehindComment();
    KeywordBehindComment();
    NothingBehindKeyword();
    MeaningOfSent(Command("--", "listen"));
    ListenIsLeft();
  }

  lemma ListenIsLeft()
    ensures Command("--", "listen").channel != "" && MeaningFor(Command("--", "listen")) == Unlistens("listen")
  {
  }

  lemma NothingBehindKeyword()
    ensures MeaningOf("--\nLISTEN") == None
  {
    assert "--\nLISTEN" == "--" + ("\n" + "LISTEN");
    NothingBehind();
    SkipStops("LISTEN");
    hide *;
    CommentIsSkipped("LISTEN");
    BehindSkip("--\nLISTEN", "LISTEN");
  }

  lemma CommentIsSkipped(w: string)
    ensures Skip("--" + ("\n" + w)) == Skip(w)
  {
    var s := "--" + ("\n" + w);
    assert s[..2] == "--" && s[2..] == "\n" + w && s[2..][0] == '\n';
    assert BehindLine(s[2..]) == s[2..];
    SkipLine(s);
    hide Skip, BehindLine;
    SkipBlanks("\n", w);
  }

  lemma SkipLine(s: string)
    requires "--" <= s
    ensures Skip(s) == Skip(BehindLine(s[2..]))
  {
  }

  lemma BehindSkip(s: string, w: string)
    requires Skip(s) == w && Word(w) == w
    ensures MeaningOf(s) == VerbMeaning(AsciiUpper(w), w[|w|..])
  {
  }

  lemma NothingBehind()
    ensures Word("LISTEN") == "LISTEN" && VerbMeaning(AsciiUpper("LISTEN"), "LISTEN"[|"LISTEN"|..]) == None
  {
    WordOf("LISTEN", "");
    assert "LISTEN" + "" == "LISTEN" && "LISTEN"[6..] == "" && Skip("") == "";
    assert ReadChannel("") == None;
    hide Skip, Word, OnlyEnds;
    assert AsciiUpper("LISTEN") == "LISTEN";
  }

  lemma TrimmedComment()
    ensures Trim("--\nLISTEN") == "--\nLISTEN" && Fields("--\nLISTEN") == "--\nLISTEN"
  {
    TrimOfTrimmed("--\nLISTEN");
  }

  lemma UpperStays(s: string)
    requires forall i :: 0 <= i < |s| ==> UpperChar(s[i]) == s[i]
    ensures Upper(s) == s
  {
  }

  lemma KeywordBehindComment()
    ensures IsIntercepted("--\nLISTEN")
  {
    hide StripLeadingComments, FirstWordEnd, Trim, Upper;
    UpperStays("--\nLISTEN");
    TrimmedComment();
    StrippedComment();
    OneWord("LISTEN");
  }

  lemma OneWord(w: string)
    requires IsWord(w)
    ensures FirstWordEnd(w) == |w| && w[..|w|] == w
  {
  }

  lemma StrippedComment()
    ensures StripLeadingComments("--\nLISTEN") == "LISTEN"
  {
    var s := "--\nLISTEN";
    assert s[1..][1..] == "\nLISTEN" && NewlineAt(s[1..]) == 1 && NewlineAt(s) == 2;
    assert s[3..] == "LISTEN";
    TrimOfTrimmed("LISTEN");
    hide Trim, NewlineAt;
    assert StripLeadingComments("LISTEN") == "LISTEN" by { assert "LISTEN"[0] == 'L'; }
  }

  lemma ParsedBehindComment()
    ensures ParseListen("--\nLISTEN") == Ok(Command("--", "listen"))
  {
    var s := "--\nLISTEN";
    TrimmedComment();
    FirstWordEndIs(s, 2);
    hide Trim, FirstWordEnd, Fields;
    assert s[..2] == "--" && s[2..] == "\nLISTEN";
    UpperStays("--");
    WordBehindNewline();
    hide Upper, Lower, IsSafeIdent;
    LowerOfKeyword();
  }

  lemma WordBehindNewline()
    ensures Trim("\nLISTEN") == "LISTEN"
  {
    TrimOfTrimmed("LISTEN");
    assert "\nLISTEN"[1..] == "LISTEN";
  }

  lemma LowerOfKeyword()
    ensures Lower("LISTEN") == "listen" && IsSafeIdent("listen")
  {
  }

  /** A blank beyond ASCII in front of the channel: it is part of the name to PostgreSQL. */
  lemma HighBlankIsAName(blank: string, word: string)
    requires |blank| == 1 && IsSpace(blank[0]) && blank[0] >= '\U{80}' && IsSafeIdent(word)
    ensures var stmt := "LISTEN" + " " + (blank + word);
            IsIntercepted(stmt) && ParseListen(stmt) == Ok(Command("LISTEN", word)) && MeaningOf(stmt) == Some(Listens(blank + word))
  {
    var name := blank + word;
    assert IsPgStart(name[0]) && !IsSafeIdent(name) && (forall i :: 0 <= i < |name| ==> IsPgIdent(name[i])) && AsciiLower(name) == name;
    hide *;
    BlankStatement(blank, word);
    BlankIsBlank();
    ListenIsVerb();
    MeaningOfWords("LISTEN", name);
    NameMeans(" ", name);
  }

  lemma ListenIsVerb()
    ensures IsVerb("LISTEN")
  {
  }

  lemma NameMeans(gap: string, name: string)
    requires AllSpace(gap) && IsAscii(gap) && name != "" && IsPgStart(name[0]) && AsciiLower(name) == name && !IsSafeIdent(name)
    requires forall i :: 0 <= i < |name| ==> IsPgIdent(name[i])
    ensures VerbMeaning("LISTEN", gap + name) == Some(Listens(name))
  {
    SkipBlanks(gap, name);
    SkipStops(name);
    WordOf(name, "");
    assert name + "" == name && name[|name|..] == "";
    EndsByAscii("");
    hide Skip, Word, OnlyEnds;
    assert name[0] != '"';
    assert ReadChannel(name) == Some((name, ""));
    assert NameAt(gap + name) == Some(name);
  }

  lemma ListenInFront(behind: string)
    requires |behind| > 1 && behind[0] == ' ' && !IsSpace(behind[|behind| - 1])
    ensures var stmt := "LISTEN" + behind; IsTrimmed(stmt) && |stmt| > 6 && stmt[..6] == "LISTEN" && stmt[6] == ' '
  {
    var stmt := "LISTEN" + behind;
    assert stmt[0] == 'L' && stmt[|stmt| - 1] == behind[|behind| - 1];
  }

  lemma SafeWord(word: string)
    requires IsSafeIdent(word)
    ensures Lower(word) == word && IsTrimmed(word) && word[|word| - 1] != ';' && ParseArg("LISTEN", word) == Ok(Command("LISTEN", word))
  {
    assert word[0] != '"' && word != "*";
  }

  lemma BlankStatement(blank: string, word: string)
    requires IsSafeIdent(word) && |blank| == 1 && IsSpace(blank[0])
    ensures var stmt := "LISTEN" + " " + (blank + word);
            IsIntercepted(stmt) && ParseListen(stmt) == Ok(Command("LISTEN", word))
  {
    var behind := " " + (blank + word);
    SafeWord(word);
    assert behind[|behind| - 1] == word[|word| - 1] && behind[0] == ' ';
    hide ParseArg, ParseListen, IsIntercepted, Trim, IsSafeIdent;
    ConcatWords("LISTEN", blank + word);
    ListenInFront(behind);
    TrimTwo(blank, word);
    assert IsWord("LISTEN");
    WordsParse("LISTEN", behind);
    UpperStatement("LISTEN" + behind);
  }

  lemma UpperStatement(stmt: string)
    requires IsTrimmed(stmt) && |stmt| > 6 && stmt[..6] == "LISTEN" && stmt[6] == ' '
    ensures IsIntercepted(stmt)
  {
    UpperKeepsBlanks(stmt);
    TrimOfTrimmed(Upper(stmt));
    VerbsAreUpper();
    assert forall i | 0 <= i < 6 :: stmt[i] == "LISTEN"[i];
    hide Trim;
    FirstKeywordIs(Upper(stmt), stmt, "LISTEN");
  }

  lemma TrimTwo(blank: string, word: string)
    requires IsTrimmed(word) && |blank| == 1 && IsSpace(blank[0])
    ensures Trim(" " + (blank + word)) == word
  {
    var u := blank + word;
    assert u[1..] == word && (" " + u)[1..] == u;
    TrimOfTrimmed(word);
    assert TrimLeft(word) == word;
    assert TrimLeft(u) == TrimLeft(word);
    assert TrimLeft(" " + u) == TrimLeft(u);
    hide TrimLeft;
  }
}
