/** Laws of the splitter: it composes over semicolons, it loses nothing but
semicolons and blanks, and its statements are its fixed points exactly when they
are ASCII. */
module SplitLaws {
  import opened GoStrings
  import opened SplitStatements

  // ---- Composition -----------------------------------------------------------

  /** A byte that no lookahead of the scanner can take for part of a token that
  began before it. */
  predicate Hard(c: char) {
    !IsSqlIdentByte(c) && c != '$' && c != '-' && c != '*' && c != '/'
  }

  predicate StartsHard(x: string) {
    x == "" || Hard(x[0])
  }

  lemma {:induction false} TagFromStable(a: string, x: string, i: nat)
    requires 1 <= i <= |a| && a[0] == '$' && (i == 1 && i < |a + x| ==> (a + x)[1] != '$')
    requires forall j :: 1 <= j < i ==> IsSqlIdentByte(a[j])
    requires StartsHard(x)
    ensures TagFrom(a + x, i) == TagFrom(a, i)
    decreases |a| - i
  {
    if i < |a| && IsSqlIdentByte(a[i]) {
      TagFromStable(a, x, i + 1);
    } else if i < |a| && a[i] == '$' {
      assert (a + x)[..i + 1] == a[..i + 1];
    }
  }

  lemma DollarQuoteTagStable(a: string, x: string)
    requires a != "" && StartsHard(x)
    ensures DollarQuoteTag(a + x) == DollarQuoteTag(a)
  {
    if a[0] == '$' && |a + x| >= 2 && (a + x)[1] != '$' {
      TagFromStable(a, x, 1);
    }
  }

  /** A delimiter cannot reach across the boundary either. */
  lemma PrefixStable(p: string, a: string, x: string)
    requires StartsHard(x)
    requires forall i :: 1 <= i < |p| ==> !Hard(p[i])
    requires a != ""
    ensures p <= a + x <==> p <= a
  {
    if |a| < |p| {
      assert x != "" ==> (a + x)[|a|] == x[0] && !Hard(p[|a|]);
    } else {
      assert (a + x)[..|p|] == a[..|p|];
    }
  }

  lemma NextTokenStable(afterIdent: bool, state: Lex, a: string, x: string)
    requires a != "" && StartsHard(x)
    ensures NextToken(afterIdent, state, a + x) == NextToken(afterIdent, state, a)
  {
    assert (a + x)[..1] == a[..1];
    match state {
      case Normal =>
        PrefixStable("--", a, x);
        PrefixStable("/*", a, x);
        DollarQuoteTagStable(a, x);
      case BlockComment => PrefixStable("*/", a, x);
      case DollarQuoted(tag) => PrefixStable(tag, a, x);
      case _ =>
    }
  }

  /** Whether the byte after `s` follows an identifier byte. */
  predicate IdentAfter(afterIdent: bool, s: string) {
    if s == "" then afterIdent else EndsIdent(s)
  }

  /** Joins two lists of pieces where the last of `a` and the first of `b` are one. */
  function Glue(a: seq<string>, b: seq<string>): (r: seq<string>)
    requires |a| > 0 && |b| > 0
    ensures |r| == |a| + |b| - 1
  {
    if |a| == 1 then Prepend(a[0], b) else [a[0]] + Glue(a[1..], b)
  }

  lemma GluePrepend(t: string, a: seq<string>, b: seq<string>)
    requires |a| > 0 && |b| > 0
    ensures Glue(Prepend(t, a), b) == Prepend(t, Glue(a, b))
  {
    if |a| == 1 {
      PrependPrepend(t, a[0], b);
    } else {
      assert Prepend(t, a)[1..] == a[1..];
    }
  }

  lemma GlueCons(p: string, a: seq<string>, b: seq<string>)
    requires |a| > 0 && |b| > 0
    ensures Glue([p] + a, b) == [p] + Glue(a, b)
  {
    assert ([p] + a)[1..] == a;
  }

  /** Scanning `a + x` is scanning `a` and going on with `x` where that ended. */
  ghost predicate Resumes(afterIdent: bool, state: Lex, a: string, x: string) {
    Pieces(afterIdent, state, a + x)
      == Glue(Pieces(afterIdent, state, a), Pieces(IdentAfter(afterIdent, a), EndState(afterIdent, state, a), x))
  }

  lemma PiecesAtSemicolon(afterIdent: bool, s: string)
    requires s != "" && s[0] == ';'
    ensures Pieces(afterIdent, Normal, s) == [""] + Pieces(false, Normal, s[1..])
    ensures EndState(afterIdent, Normal, s) == EndState(false, Normal, s[1..])
  {
  }

  lemma PiecesAtToken(afterIdent: bool, state: Lex, s: string, t: Token)
    requires s != "" && !(state == Normal && s[0] == ';') && t == NextToken(afterIdent, state, s)
    ensures Pieces(afterIdent, state, s) == Prepend(t.text, Pieces(EndsIdent(t.text), t.next, s[|t.text|..]))
    ensures EndState(afterIdent, state, s) == EndState(EndsIdent(t.text), t.next, s[|t.text|..])
  {
  }

  lemma IdentAfterTail(afterIdent: bool, a: string, n: nat)
    requires 1 <= n <= |a|
    ensures IdentAfter(EndsIdent(a[..n]), a[n..]) == IdentAfter(afterIdent, a)
  {
  }

  lemma ResumesAtSemicolon(afterIdent: bool, a: string, x: string)
    requires a != "" && a[0] == ';' && Resumes(false, Normal, a[1..], x)
    ensures Resumes(afterIdent, Normal, a, x)
  {
    hide Pieces, EndState;
    var a' := a[1..];
    assert (a + x)[1..] == a' + x;
    PiecesAtSemicolon(afterIdent, a);
    PiecesAtSemicolon(afterIdent, a + x);
    IdentAfterTail(afterIdent, a, 1);
    GlueCons("", Pieces(false, Normal, a'), Pieces(IdentAfter(false, a'), EndState(false, Normal, a'), x));
  }

  lemma ResumesAtToken(afterIdent: bool, state: Lex, a: string, x: string, t: Token)
    requires t.text != "" && t.text <= a && Resumes(EndsIdent(t.text), t.next, a[|t.text|..], x)
    requires Pieces(afterIdent, state, a) == Prepend(t.text, Pieces(EndsIdent(t.text), t.next, a[|t.text|..]))
    requires Pieces(afterIdent, state, a + x) == Prepend(t.text, Pieces(EndsIdent(t.text), t.next, (a + x)[|t.text|..]))
    requires EndState(afterIdent, state, a) == EndState(EndsIdent(t.text), t.next, a[|t.text|..])
    ensures Resumes(afterIdent, state, a, x)
  {
    hide Pieces, EndState;
    var n := |t.text|;
    assert (a + x)[n..] == a[n..] + x && a[..n] == t.text;
    IdentAfterTail(afterIdent, a, n);
    GluePrepend(t.text, Pieces(EndsIdent(t.text), t.next, a[n..]),
                Pieces(IdentAfter(afterIdent, a), EndState(afterIdent, state, a), x));
  }

  /** Every text resumes with a continuation that starts with a hard byte. */
  lemma {:induction false} PiecesAppend(afterIdent: bool, state: Lex, a: string, x: string)
    requires StartsHard(x)
    ensures Resumes(afterIdent, state, a, x)
    decreases |a|
  {
    if a == "" {
      assert a + x == x;
      PrependNothing(Pieces(afterIdent, state, x));
    } else if state == Normal && a[0] == ';' {
      PiecesAppend(false, Normal, a[1..], x);
      ResumesAtSemicolon(afterIdent, a, x);
    } else {
      var t := NextToken(afterIdent, state, a);
      PiecesAppend(EndsIdent(t.text), t.next, a[|t.text|..], x);
      NextTokenStable(afterIdent, state, a, x);
      PiecesAtToken(afterIdent, state, a, t);
      PiecesAtToken(afterIdent, state, a + x, t);
      ResumesAtToken(afterIdent, state, a, x, t);
    }
  }

  lemma {:induction false} GlueSeparator(a: seq<string>, b: seq<string>)
    requires |a| > 0
    ensures Glue(a, [""] + b) == a + b
  {
    if |a| > 1 {
      GlueSeparator(a[1..], b);
      assert [a[0]] + (a[1..] + b) == a + b;
    } else {
      assert a[0] + "" == a[0];
    }
  }

  lemma {:induction false} StatementsConcat(a: seq<string>, b: seq<string>)
    ensures Statements(a + b) == Statements(a) + Statements(b)
  {
    if |a| == 0 {
      assert a + b == b;
    } else {
      assert (a + b)[1..] == a[1..] + b;
      StatementsConcat(a[1..], b);
      assert Flushed(a[0]) + (Statements(a[1..]) + Statements(b)) == Statements(a) + Statements(b);
    }
  }

  /** Compositional: when scanning `a` ends outside every quote and comment, the
  script `a; b` has the statements of `a` followed by those of `b`. */
  lemma SplitComposes(a: string, b: string)
    requires EndState(false, Normal, a) == Normal
    ensures Split(a + ";" + b) == Split(a) + Split(b)
  {
    assert a + ";" + b == a + (";" + b);
    PiecesAppend(false, Normal, a, ";" + b);
    assert (";" + b)[1..] == b;
    GlueSeparator(Pieces(false, Normal, a), Pieces(false, Normal, b));
    StatementsConcat(Pieces(false, Normal, a), Pieces(false, Normal, b));
  }

  /** Inside a quote the semicolon is text: the law needs its hypothesis. */
  lemma SplitDoesNotComposeInsideAQuote()
    ensures EndState(false, Normal, "'") != Normal
    ensures Split("'" + ";" + "'") != Split("'") + Split("'")
  {
    var q := "';'";
    assert "'" + ";" + "'" == q && q[1..] == ";'" && q[1..][1..] == "'" && q[1..][1..][1..] == "";
    assert Pieces(true, Normal, "") == [""];
    assert |Pieces(false, SingleQuoted, q[1..][1..])| == 1;
    assert |Pieces(false, SingleQuoted, q[1..])| == 1;
    assert |Pieces(false, Normal, q)| == 1;
    assert "'"[1..] == "";
    assert |Pieces(false, SingleQuoted, "")| == 1;
    assert |Pieces(false, Normal, "'")| == 1;
    assert IsTrimmed(q) && IsTrimmed("'");
    AloneByCount(false, Normal, q);
    AloneByCount(false, Normal, "'");
    OnePieceSplits(q);
    OnePieceSplits("'");
  }

  // ---- Idempotence -----------------------------------------------------------

  /** A list of one piece is the whole text; otherwise the text goes on after the
  first piece with a separator, from the start state. */
  lemma {:induction false} FirstPiece(afterIdent: bool, state: Lex, s: string)
    ensures IsFirstPiece(Pieces(afterIdent, state, s), s)
    decreases |s|
  {
    if s == "" {
    } else if state == Normal && s[0] == ';' {
      assert Pieces(afterIdent, state, s)[1..] == Pieces(false, Normal, s[1..]);
    } else {
      var t := NextToken(afterIdent, state, s);
      FirstPiece(EndsIdent(t.text), t.next, s[|t.text|..]);
      IsFirstPiecePrepend(t.text, Pieces(EndsIdent(t.text), t.next, s[|t.text|..]), s);
    }
  }

  predicate IsFirstPiece(ps: seq<string>, s: string)
    requires |ps| > 0
  {
    && ps[0] <= s
    && (|ps| == 1 ==> ps[0] == s)
    && (|ps| > 1 ==> |ps[0]| < |s| && s[|ps[0]|] == ';' && ps[1..] == Pieces(false, Normal, s[|ps[0]| + 1..]))
  }

  lemma IsFirstPiecePrepend(t: string, ps: seq<string>, s: string)
    requires |ps| > 0 && t <= s && IsFirstPiece(ps, s[|t|..])
    ensures IsFirstPiece(Prepend(t, ps), s)
  {
    hide Pieces;
    var s' := s[|t|..];
    assert s == t + s';
    if |ps| > 1 {
      assert s'[|ps[0]| + 1..] == s[|t + ps[0]| + 1..];
      assert s'[|ps[0]|] == s[|t + ps[0]|];
    }
  }

  lemma GlueFirst(a: seq<string>, b: seq<string>)
    requires |a| > 1 && |b| > 0
    ensures Glue(a, b)[0] == a[0]
  {
  }

  /** Scanned on its own, `q` is one piece. */
  ghost predicate Alone(afterIdent: bool, state: Lex, q: string) {
    Pieces(afterIdent, state, q) == [q]
  }

  lemma AloneByCount(afterIdent: bool, state: Lex, q: string)
    requires |Pieces(afterIdent, state, q)| == 1
    ensures Alone(afterIdent, state, q)
  {
    FirstPiece(afterIdent, state, q);
  }

  /** A prefix of the first piece, cut at a hard byte, stands alone. */
  lemma PrefixOfFirstPieceAlone(afterIdent: bool, state: Lex, a: string, x: string)
    requires StartsHard(x) && |a| <= |Pieces(afterIdent, state, a + x)[0]|
    ensures Alone(afterIdent, state, a)
  {
    var pa := Pieces(afterIdent, state, a);
    FirstPiece(afterIdent, state, a);
    PiecesAppend(afterIdent, state, a, x);
    if |pa| > 1 {
      GlueFirst(pa, Pieces(IdentAfter(afterIdent, a), EndState(afterIdent, state, a), x));
      assert false;
    }
  }

  /** The first piece stands alone. */
  lemma FirstPieceAlone(afterIdent: bool, state: Lex, s: string)
    ensures Alone(afterIdent, state, Pieces(afterIdent, state, s)[0])
  {
    FirstPiece(afterIdent, state, s);
    hide Pieces, Alone;
    var k := |Pieces(afterIdent, state, s)[0]|;
    assert s == s[..k] + s[k..] && s[..k] == Pieces(afterIdent, state, s)[0];
    PrefixOfFirstPieceAlone(afterIdent, state, s[..k], s[k..]);
  }

  lemma {:induction false} EveryPieceAlone(s: string, ps: seq<string>, i: nat)
    requires ps == Pieces(false, Normal, s) && i < |ps|
    ensures Alone(false, Normal, ps[i])
    decreases |s|
  {
    FirstPiece(false, Normal, s);
    hide Pieces, Alone;
    if i == 0 {
      FirstPieceAlone(false, Normal, s);
    } else {
      EveryPieceAlone(s[|ps[0]| + 1..], ps[1..], i - 1);
    }
  }

  /** Leading blanks leave the scanner where it was. */
  lemma {:induction false} PiecesAfterBlanks(l: string, x: string)
    requires AllSpace(l)
    ensures Pieces(false, Normal, l + x) == Prepend(l, Pieces(false, Normal, x))
  {
    if l == "" {
      assert l + x == x;
      PrependNothing(Pieces(false, Normal, x));
    } else {
      var s := l + x;
      assert s[..1] == l[..1] && s[1..] == l[1..] + x;
      assert IsSpace(s[0]) && NextToken(false, Normal, s) == Token(l[..1], Normal);
      PiecesAfterBlanks(l[1..], x);
      PrependPrepend(l[..1], l[1..], Pieces(false, Normal, x));
      assert l[..1] + l[1..] == l;
    }
  }

  lemma BlanksAroundAlone(l: string, t: string, r: string)
    requires AllSpace(l) && StartsHard(r) && Alone(false, Normal, l + (t + r))
    ensures Alone(false, Normal, t)
  {
    PiecesAfterBlanks(l, t + r);
    hide Pieces;
    AloneByCount(false, Normal, t + r);
    assert Pieces(false, Normal, t + r)[0] == t + r;
    PrefixOfFirstPieceAlone(false, Normal, t, r);
  }

  /** Trimming a piece leaves one piece. */
  lemma TrimmedPieceAlone(q: string)
    requires Alone(false, Normal, q)
    ensures Alone(false, Normal, Trim(q))
  {
    hide Alone;
    TrimParts(q);
    var l, t, r := Leading(q), Trim(q), Trailing(TrimLeft(q));
    assert q == l + (t + r);
    BlanksAroundAlone(l, t, r);
  }

  /** The trimmed texts of the pieces are the raw statements. */
  lemma {:induction false} RawStatementIsTrimmedPiece(ps: seq<string>, i: nat) returns (k: nat)
    requires i < |RawStatements(ps)|
    ensures k < |ps| && RawStatements(ps)[i] == Trim(ps[k]) && Trim(ps[k]) != ""
  {
    if Trim(ps[0]) == "" {
      k := RawStatementIsTrimmedPiece(ps[1..], i);
      k := k + 1;
    } else if i == 0 {
      k := 0;
    } else {
      k := RawStatementIsTrimmedPiece(ps[1..], i - 1);
      k := k + 1;
    }
  }

  lemma {:induction false} StatementsAreRawEncoded(ps: seq<string>)
    ensures Statements(ps) == Utf8All(RawStatements(ps))
  {
    hide Trim, Utf8;
    if |ps| > 0 {
      StatementsAreRawEncoded(ps[1..]);
      var t, raw := Trim(ps[0]), RawStatements(ps[1..]);
      if t == "" {
        assert [] + raw == raw && [] + Utf8All(raw) == Utf8All(raw);
      } else {
        assert ([t] + raw)[1..] == raw;
      }
    }
  }

  /** Splitting a raw statement again finds that statement and nothing else. */
  lemma RawStatementStandsAlone(sql: string, i: nat)
    requires i < |RawSplit(sql)|
    ensures var t := RawSplit(sql)[i];
            IsTrimmed(t) && Alone(false, Normal, t) && RawSplit(t) == [t] && Split(t) == [Utf8(t)]
  {
    var ps := Pieces(false, Normal, sql);
    var k := RawStatementIsTrimmedPiece(ps, i);
    EveryPieceAlone(sql, ps, k);
    TrimmedPieceAlone(ps[k]);
    TrimParts(ps[k]);
    OnePieceSplits(RawSplit(sql)[i]);
  }

  lemma OnePieceSplits(t: string)
    requires IsTrimmed(t) && Alone(false, Normal, t)
    ensures RawSplit(t) == [t] && Split(t) == [Utf8(t)]
  {
    TrimOfTrimmed(t);
    assert [t][1..] == [];
    assert RawStatements([t]) == [t] + [];
    assert Statements([t]) == [Utf8(t)] + [];
  }

  lemma {:induction false} Utf8OfAscii(s: string)
    requires IsAscii(s)
    ensures Utf8(s) == s
  {
    if s != "" {
      Utf8OfAscii(s[1..]);
    }
  }

  lemma {:induction false} Utf8ReflectsAscii(s: string)
    requires IsAscii(Utf8(s))
    ensures IsAscii(s)
  {
    if s != "" {
      var e, r := Utf8Byte(s[0]), Utf8(s[1..]);
      assert Utf8(s)[0] == e[0];
      assert r == Utf8(s)[|e|..];
      Utf8ReflectsAscii(s[1..]);
    }
  }

  // ---- Losslessness ----------------------------------------------------------

  predicate IsGap(g: string) {
    forall i :: 0 <= i < |g| ==> IsSpace(g[i]) || g[i] == ';'
  }

  function Interleave(gaps: seq<string>, stmts: seq<string>): string
    requires |gaps| == |stmts| + 1
  {
    if |stmts| == 0 then gaps[0] else gaps[0] + stmts[0] + Interleave(gaps[1..], stmts[1..])
  }

  function JoinPieces(ps: seq<string>): string
    requires |ps| > 0
  {
    if |ps| == 1 then ps[0] else ps[0] + ";" + JoinPieces(ps[1..])
  }

  lemma {:induction false} PiecesJoinBack(s: string, ps: seq<string>)
    requires ps == Pieces(false, Normal, s)
    ensures JoinPieces(ps) == s
    decreases |s|
  {
    FirstPiece(false, Normal, s);
    hide Pieces;
    if |ps| > 1 {
      var k := |ps[0]|;
      PiecesJoinBack(s[k + 1..], ps[1..]);
      assert s == s[..k] + ";" + s[k + 1..];
    }
  }

  /** The text between the statements: blanks and separators. */
  function Gaps(ps: seq<string>): (gaps: seq<string>)
    requires |ps| > 0
    ensures |gaps| == |RawStatements(ps)| + 1
  {
    var p := ps[0];
    if |ps| == 1 then
      assert RawStatements(ps[1..]) == [];
      if Trim(p) == "" then [p] else [Leading(p), Trailing(TrimLeft(p))]
    else
      var g := Gaps(ps[1..]);
      if Trim(p) == "" then [p + ";" + g[0]] + g[1..]
      else [Leading(p), Trailing(TrimLeft(p)) + ";" + g[0]] + g[1..]
  }

  /** The gaps put the statements back into `text`, and no two statements touch. */
  ghost predicate Rebuilds(gaps: seq<string>, stmts: seq<string>, text: string) {
    && |gaps| == |stmts| + 1
    && Interleave(gaps, stmts) == text
    && (forall i :: 0 <= i < |gaps| ==> IsGap(gaps[i]))
    && (forall i :: 0 < i < |stmts| ==> ';' in gaps[i])
  }

  lemma RebuildsMore(a: string, gaps: seq<string>, stmts: seq<string>, text: string)
    requires IsGap(a) && Rebuilds(gaps, stmts, text)
    ensures Rebuilds([a + gaps[0]] + gaps[1..], stmts, a + text)
  {
    var gaps' := [a + gaps[0]] + gaps[1..];
    assert gaps'[1..] == gaps[1..];
    if |stmts| > 0 {
      var rest := Interleave(gaps[1..], stmts[1..]);
      assert a + gaps[0] + stmts[0] + rest == a + (gaps[0] + stmts[0] + rest);
    }
  }

  lemma RebuildsCons(l: string, t: string, gaps: seq<string>, stmts: seq<string>, text: string)
    requires IsGap(l) && Rebuilds(gaps, stmts, text) && (stmts == [] || ';' in gaps[0])
    ensures Rebuilds([l] + gaps, [t] + stmts, l + t + text)
  {
    assert ([l] + gaps)[1..] == gaps && ([t] + stmts)[1..] == stmts;
  }

  lemma {:induction false} GapsRebuild(ps: seq<string>)
    requires |ps| > 0
    ensures Rebuilds(Gaps(ps), RawStatements(ps), JoinPieces(ps))
  {
    if |ps| == 1 {
      GapsRebuildLast(ps[0]);
      assert RawStatements(ps[1..]) == [];
    } else {
      GapsRebuild(ps[1..]);
      GapsRebuildOne(ps[0], Gaps(ps[1..]), RawStatements(ps[1..]), JoinPieces(ps[1..]));
    }
  }

  lemma GapsRebuildLast(p: string)
    ensures var l, t, r := Leading(p), Trim(p), Trailing(TrimLeft(p));
            if t == "" then Rebuilds([p], [], p) else Rebuilds([l, r], [t] + [], p)
  {
    TrimParts(p);
    var l, t, r := Leading(p), Trim(p), Trailing(TrimLeft(p));
    if t == "" {
      assert p == l + r;
    } else {
      RebuildsCons(l, t, [r], [], r);
      assert [l] + [r] == [l, r];
    }
  }

  lemma GapsRebuildOne(p: string, gaps: seq<string>, stmts: seq<string>, text: string)
    requires Rebuilds(gaps, stmts, text) && |gaps| > 0
    ensures var l, t, r := Leading(p), Trim(p), Trailing(TrimLeft(p));
            if t == "" then Rebuilds([p + ";" + gaps[0]] + gaps[1..], [] + stmts, p + ";" + text)
            else Rebuilds([l, r + ";" + gaps[0]] + gaps[1..], [t] + stmts, p + ";" + text)
  {
    TrimParts(p);
    var l, t, r := Leading(p), Trim(p), Trailing(TrimLeft(p));
    hide Rebuilds, Trim, TrimLeft, Leading, Trailing;
    if t == "" {
      assert p == l + r && [] + stmts == stmts;
      RebuildsMore(p + ";", gaps, stmts, text);
    } else {
      RebuildsMore(r + ";", gaps, stmts, text);
      var gaps' := [r + ";" + gaps[0]] + gaps[1..];
      assert gaps'[0][|r|] == ';';
      RebuildsCons(l, t, gaps', stmts, r + ";" + text);
      assert [l] + gaps' == [l, r + ";" + gaps[0]] + gaps[1..];
      assert l + t + (r + ";" + text) == (l + t + r) + ";" + text;
    }
  }

  // ---- The semicolons that go ----------------------------------------------------

  /** Scanning up to the end of the first of several pieces ends outside every quote and comment. */
  lemma {:induction false} PieceEndsNormal(afterIdent: bool, state: Lex, s: string)
    requires |Pieces(afterIdent, state, s)| > 1
    ensures EndState(afterIdent, state, Pieces(afterIdent, state, s)[0]) == Normal
    decreases |s|
  {
    FirstPiece(afterIdent, state, s);
    hide Pieces, NextToken;
    if state == Normal && s[0] == ';' {
      PiecesAtSemicolon(afterIdent, s);
    } else {
      hide EndState;
      var t := NextToken(afterIdent, state, s);
      PiecesAtToken(afterIdent, state, s, t);
      var rest := Pieces(EndsIdent(t.text), t.next, s[|t.text|..])[0];
      PieceEndsNormal(EndsIdent(t.text), t.next, s[|t.text|..]);
      var p := t.text + rest;
      assert s == p + s[|p|..] && p[|t.text|..] == rest;
      NextTokenStable(afterIdent, state, p, s[|p|..]);
      PiecesAtToken(afterIdent, state, p, t);
    }
  }

  /** The state in which scanning `a + x` ends is the one `x` leads to behind `a`. */
  lemma {:induction false} EndStateAppend(afterIdent: bool, state: Lex, a: string, x: string)
    requires StartsHard(x)
    ensures EndState(afterIdent, state, a + x) == EndState(IdentAfter(afterIdent, a), EndState(afterIdent, state, a), x)
    decreases |a|
  {
    hide Pieces, NextToken;
    var s := a + x;
    if a == "" {
      assert s == x;
    } else if state == Normal && a[0] == ';' {
      assert s[1..] == a[1..] + x;
      hide EndState;
      PiecesAtSemicolon(afterIdent, a);
      PiecesAtSemicolon(afterIdent, s);
      IdentAfterTail(afterIdent, a, 1);
      EndStateAppend(false, Normal, a[1..], x);
    } else {
      hide EndState;
      var t := NextToken(afterIdent, state, a);
      NextTokenStable(afterIdent, state, a, x);
      PiecesAtToken(afterIdent, state, a, t);
      PiecesAtToken(afterIdent, state, s, t);
      assert s[|t.text|..] == a[|t.text|..] + x && t.text == a[..|t.text|];
      IdentAfterTail(afterIdent, a, |t.text|);
      EndStateAppend(EndsIdent(t.text), t.next, a[|t.text|..], x);
    }
  }

  /** Behind a top-level semicolon scanning starts afresh. */
  lemma EndStateResets(afterIdent: bool, state: Lex, a: string, x: string)
    requires EndState(afterIdent, state, a) == Normal
    ensures EndState(afterIdent, state, a + (";" + x)) == EndState(false, Normal, x)
  {
    EndStateAppend(afterIdent, state, a, ";" + x);
    hide EndState;
    PiecesAtSemicolon(IdentAfter(afterIdent, a), ";" + x);
    assert (";" + x)[1..] == x;
  }

  /** Scanning goes on behind `pre` as at the start of a script. */
  ghost predicate Resets(pre: string) {
    forall x :: EndState(false, Normal, pre + x) == EndState(false, Normal, x)
  }

  lemma ResetsBehind(pre: string, p: string)
    requires Resets(pre) && EndState(false, Normal, p) == Normal
    ensures Resets(pre + p + ";") && EndState(false, Normal, pre + p) == Normal
  {
    hide EndState;
    forall x ensures EndState(false, Normal, pre + p + ";" + x) == EndState(false, Normal, x) {
      assert pre + p + ";" + x == pre + (p + (";" + x));
      EndStateResets(false, Normal, p, x);
    }
  }

  /** Every semicolon of the gap, which stands behind `pre`, is a top-level one. */
  ghost predicate GapIsTopLevel(pre: string, gap: string) {
    forall k | 0 <= k < |gap| && gap[k] == ';' :: EndState(false, Normal, pre + gap[..k]) == Normal
  }

  /** So it is for all gaps of the script that continues `pre`. */
  ghost predicate GapsAreTopLevel(pre: string, gaps: seq<string>, stmts: seq<string>)
    requires |gaps| == |stmts| + 1
    decreases |stmts|
  {
    && GapIsTopLevel(pre, gaps[0])
    && (|stmts| > 0 ==> GapsAreTopLevel(pre + gaps[0] + stmts[0], gaps[1..], stmts[1..]))
  }

  lemma BlanksAreTopLevel(pre: string, gap: string)
    requires AllSpace(gap)
    ensures GapIsTopLevel(pre, gap)
  {
  }

  /** A gap of blanks, a top-level semicolon and another gap. */
  lemma GapBehindSemicolon(pre: string, r: string, gap: string)
    requires AllSpace(r) && EndState(false, Normal, pre + r) == Normal && GapIsTopLevel(pre + r + ";", gap)
    ensures GapIsTopLevel(pre, r + ";" + gap)
  {
    hide EndState;
    var g := r + ";" + gap;
    assert forall i | 0 <= i < |r| :: g[i] == r[i] && IsSpace(r[i]);
    forall k | |r| <= k < |g| && g[k] == ';' ensures EndState(false, Normal, pre + g[..k]) == Normal {
      if k == |r| {
        assert g[..k] == r;
      } else {
        var j := k - |r| - 1;
        assert gap[j] == ';' && g[..k] == r + ";" + gap[..j];
        assert pre + (r + ";" + gap[..j]) == pre + r + ";" + gap[..j];
      }
    }
  }

  lemma {:induction false} GapsOfPieces(pre: string, s: string, ps: seq<string>)
    requires ps == Pieces(false, Normal, s) && Resets(pre)
    ensures GapsAreTopLevel(pre, Gaps(ps), RawStatements(ps))
    decreases |s|
  {
    FirstPiece(false, Normal, s);
    hide EndState, Pieces, Resets, GapsAreTopLevel, GapIsTopLevel, Trim, TrimLeft, Leading, Trailing;
    var p := ps[0];
    if |ps| == 1 {
      LastGaps(pre, p);
      assert RawStatements(ps[1..]) == [] && [Trim(p)] + [] == [Trim(p)];
    } else {
      PieceEndsNormal(false, Normal, s);
      ResetsBehind(pre, p);
      GapsOfPieces(pre + p + ";", s[|p| + 1..], ps[1..]);
      FirstGaps(pre, p, Gaps(ps[1..]), RawStatements(ps[1..]));
    }
  }

  lemma LastGaps(pre: string, p: string)
    ensures Trim(p) == "" ==> GapsAreTopLevel(pre, [p], [])
    ensures GapsAreTopLevel(pre, [Leading(p), Trailing(TrimLeft(p))], [Trim(p)])
  {
    TrimParts(p);
    hide EndState, Trim, TrimLeft, Leading, Trailing;
    var l, t, r := Leading(p), Trim(p), Trailing(TrimLeft(p));
    assert t == "" ==> AllSpace(p) by { assert l + t + r == p; }
    if t == "" {
      BlanksAreTopLevel(pre, p);
    }
    BlanksAreTopLevel(pre, l);
    BlanksAreTopLevel(pre + l + t, r);
    assert [l, r][1..] == [r] && [t][1..] == [];
  }

  lemma FirstGaps(pre: string, p: string, g: seq<string>, raw: seq<string>)
    requires |g| == |raw| + 1 && EndState(false, Normal, pre + p) == Normal && GapsAreTopLevel(pre + p + ";", g, raw)
    ensures var l, t, r := Leading(p), Trim(p), Trailing(TrimLeft(p));
            if t == "" then GapsAreTopLevel(pre, [p + ";" + g[0]] + g[1..], [] + raw)
            else GapsAreTopLevel(pre, [l, r + ";" + g[0]] + g[1..], [t] + raw)
  {
    TrimParts(p);
    hide EndState, Trim, TrimLeft, Leading, Trailing, GapIsTopLevel, GapsAreTopLevel;
    var l, t, r := Leading(p), Trim(p), Trailing(TrimLeft(p));
    if t == "" {
      assert AllSpace(p) && [] + raw == raw by { assert p == l + t + r; }
      GapGrows(pre, p, g, raw);
    } else {
      assert pre + l + t + r == pre + p by { assert pre + (l + t + r) == pre + l + t + r; }
      GapGrows(pre + l + t, r, g, raw);
      BlanksAreTopLevel(pre, l);
      GapInFront(pre, l, t, [r + ";" + g[0]] + g[1..], raw);
      assert [l] + ([r + ";" + g[0]] + g[1..]) == [l, r + ";" + g[0]] + g[1..];
    }
  }

  /** The first gap grows by blanks and a top-level semicolon in front of it. */
  lemma GapGrows(pre: string, r: string, g: seq<string>, raw: seq<string>)
    requires |g| == |raw| + 1 && AllSpace(r) && EndState(false, Normal, pre + r) == Normal
    requires GapsAreTopLevel(pre + r + ";", g, raw)
    ensures GapsAreTopLevel(pre, [r + ";" + g[0]] + g[1..], raw)
  {
    GapBehindSemicolon(pre, r, g[0]);
    hide EndState, GapIsTopLevel;
    assert pre + (r + ";") == pre + r + ";";
    SameGaps(pre, pre + r + ";", r + ";", g, raw);
  }

  lemma GapInFront(pre: string, l: string, t: string, g: seq<string>, raw: seq<string>)
    requires |g| == |raw| + 1 && GapIsTopLevel(pre, l) && GapsAreTopLevel(pre + l + t, g, raw)
    ensures GapsAreTopLevel(pre, [l] + g, [t] + raw)
  {
    assert ([l] + g)[1..] == g && ([t] + raw)[1..] == raw;
  }

  /** The later gaps do not depend on where the first one is taken to begin. */
  lemma SameGaps(pre: string, longer: string, a: string, g: seq<string>, raw: seq<string>)
    requires |g| == |raw| + 1 && longer == pre + a && GapsAreTopLevel(longer, g, raw)
    requires GapIsTopLevel(pre, a + g[0])
    ensures GapsAreTopLevel(pre, [a + g[0]] + g[1..], raw)
  {
    hide GapIsTopLevel;
    var g' := [a + g[0]] + g[1..];
    assert g'[1..] == g[1..];
    if |raw| > 0 {
      assert longer + g[0] + raw[0] == pre + g'[0] + raw[0] by { assert pre + (a + g[0]) == pre + a + g[0]; }
    }
  }

  /** Lossless: the script is its raw statements in order with only blanks and semicolons
  between them, at least one semicolon between any two, and only top-level ones. */
  lemma SplitIsLossless(sql: string)
    ensures exists gaps :: Rebuilds(gaps, RawSplit(sql), sql) && GapsAreTopLevel("", gaps, RawSplit(sql))
  {
    var ps := Pieces(false, Normal, sql);
    GapsRebuild(ps);
    PiecesJoinBack(sql, ps);
    assert forall x: string :: "" + x == x;
    GapsOfPieces("", sql, ps);
    assert Rebuilds(Gaps(ps), RawSplit(sql), sql) && GapsAreTopLevel("", Gaps(ps), RawSplit(sql));
  }

  // ---- Exactly the ASCII statements are fixed points ---------------------------

  /** The number of bytes that string(c) turns into two. */
  function HighCount(s: string): (n: nat)
    ensures n <= |s|
  {
    if s == "" then 0 else (if s[0] < '\U{80}' then 0 else 1) + HighCount(s[1..])
  }

  lemma {:induction false} HighCountConcat(a: string, b: string)
    ensures HighCount(a + b) == HighCount(a) + HighCount(b)
  {
    if a == "" {
      assert a + b == b;
    } else {
      assert (a + b)[1..] == a[1..] + b;
      HighCountConcat(a[1..], b);
    }
  }

  lemma {:induction false} HighCountZero(s: string)
    requires HighCount(s) == 0
    ensures IsAscii(s)
  {
    if s != "" {
      HighCountZero(s[1..]);
    }
  }

  lemma {:induction false} HighCountFull(s: string)
    requires HighCount(s) == |s|
    ensures forall i :: 0 <= i < |s| ==> s[i] >= '\U{80}'
  {
    if s != "" {
      HighCountFull(s[1..]);
    }
  }

  lemma {:induction false} Utf8Counts(s: string)
    ensures |Utf8(s)| == |s| + HighCount(s) && HighCount(Utf8(s)) == 2 * HighCount(s)
  {
    if s != "" {
      Utf8Counts(s[1..]);
      var e := Utf8Byte(s[0]);
      HighCountConcat(e, Utf8(s[1..]));
      assert e[1..] == if s[0] < '\U{80}' then "" else [e[1]];
    }
  }

  lemma {:induction false} Utf8Concat(a: string, b: string)
    ensures Utf8(a + b) == Utf8(a) + Utf8(b)
  {
    if a == "" {
      assert a + b == b;
    } else {
      assert (a + b)[1..] == a[1..] + b;
      Utf8Concat(a[1..], b);
      assert Utf8Byte(a[0]) + (Utf8(a[1..]) + Utf8(b)) == Utf8(a) + Utf8(b);
    }
  }

  lemma {:induction false} FirstHigh(s: string) returns (k: nat)
    requires HighCount(s) > 0
    ensures k < |s| && s[k] >= '\U{80}' && IsAscii(s[..k])
  {
    if s[0] >= '\U{80}' {
      k := 0;
    } else {
      k := FirstHigh(s[1..]);
      assert s[..k + 1] == [s[0]] + s[1..][..k];
      k := k + 1;
    }
  }

  /** The four bytes that string(c) turns into bytes of these four. */
  predicate IsSelfCode(c: char) {
    c == '\U{C2}' || c == '\U{C3}' || c == '\U{82}' || c == '\U{83}'
  }

  lemma {:induction false} SelfCodes(x: string)
    requires forall i :: 0 <= i < |x| ==> IsSelfCode(x[i])
    ensures |Utf8(x)| == 2 * |x| && forall i :: 0 <= i < |Utf8(x)| ==> IsSelfCode(Utf8(x)[i])
  {
    if x != "" {
      SelfCodes(x[1..]);
      assert IsSelfCode(x[0]);
    }
  }

  /** A text whose encoding begins with the text itself ... */
  lemma SelfCodedPrefix(w: string, u: string, n: nat)
    requires Utf8(w) == w + u && n <= |w| && forall i :: 0 <= i < n ==> IsSelfCode(w[i])
    ensures 2 * n <= |w + u| && forall i :: 0 <= i < 2 * n ==> IsSelfCode((w + u)[i])
  {
    assert w == w[..n] + w[n..];
    SelfCodes(w[..n]);
    Utf8Concat(w[..n], w[n..]);
  }

  /** ... has only such bytes behind its first high one ... */
  lemma {:induction false} AllSelfCodes(w: string, u: string, n: nat)
    requires Utf8(w) == w + u && w != "" && w[0] >= '\U{80}' && 1 <= n <= |w|
    ensures forall i :: 0 <= i < n ==> IsSelfCode(w[i])
  {
    if n == 1 {
      assert Utf8(w)[0] == Utf8Byte(w[0])[0] == w[0];
    } else {
      AllSelfCodes(w, u, n - 1);
      SelfCodedPrefix(w, u, n - 1);
      assert (w + u)[n - 1] == w[n - 1];
    }
  }

  /** ... and so has what follows it in the encoding. */
  lemma EncodingRunsOn(w: string, u: string)
    requires Utf8(w) == w + u && !IsAscii(w)
    ensures u != "" && IsSelfCode(u[0])
  {
    if HighCount(w) == 0 {
      HighCountZero(w);
    }
    var k := FirstHigh(w);
    var a, v := w[..k], w[k..];
    assert w == a + v && w + u == a + (v + u);
    Utf8Concat(a, v);
    Utf8OfAscii(a);
    assert (a + Utf8(v))[k..] == Utf8(v) && (a + (v + u))[k..] == v + u;
    AllSelfCodes(v, u, |v|);
    SelfCodedPrefix(v, u, |v|);
    assert (v + u)[|v|] == u[0];
  }

  lemma FirstByteOfEncoding(w: string)
    requires w != ""
    ensures Utf8(w) != "" && (Utf8(w)[0] >= '\U{80}' ==> !IsSpace(Utf8(w)[0]))
  {
    assert Utf8(w)[0] == Utf8Byte(w[0])[0];
  }

  lemma FirstOfThree(a: string, b: string, c: string)
    requires b != ""
    ensures (a + b + c)[0] == if a != "" then a[0] else b[0]
  {
  }

  /** An encoding has as many bytes more as were lost, so all of those are high ... */
  lemma LostGapsAreHigh(g0: string, w: string, g1: string)
    requires Utf8(w) == g0 + w + g1
    ensures forall i :: 0 <= i < |g0| ==> g0[i] >= '\U{80}'
  {
    HighCountConcat(g0, w);
    HighCountConcat(g0 + w, g1);
    Utf8Counts(w);
    hide HighCount, Utf8;
    HighCountFull(g0);
  }

  /** ... none stands in front, and none behind either. */
  lemma LostGapsAreEmpty(g0: string, w: string, g1: string)
    requires w != "" && IsGap(g0) && IsGap(g1) && Utf8(w) == g0 + w + g1
    ensures IsAscii(Utf8(w))
  {
    LostGapsAreHigh(g0, w, g1);
    FirstByteOfEncoding(w);
    FirstOfThree(g0, w, g1);
    hide Utf8, IsSpace;
    assert g0 == "" && g0 + w + g1 == w + g1;
    if IsAscii(w) {
      Utf8OfAscii(w);
    } else {
      EncodingRunsOn(w, g1);
    }
  }

  lemma FixedPointIsAscii(s: string)
    requires Split(s) == [s]
    ensures IsAscii(s)
  {
    StatementsAreRawEncoded(Pieces(false, Normal, s));
    SplitIsLossless(s);
    var raw := RawSplit(s);
    var gaps :| Rebuilds(gaps, raw, s);
    assert |raw| == 1;
    OneStatementRebuilt(gaps, raw, s);
    var k := RawStatementIsTrimmedPiece(Pieces(false, Normal, s), 0);
    LostGapsAreEmpty(gaps[0], raw[0], gaps[1]);
  }

  lemma OneStatementRebuilt(gaps: seq<string>, raw: seq<string>, s: string)
    requires Rebuilds(gaps, raw, s) && |raw| == 1
    ensures s == gaps[0] + raw[0] + gaps[1] && IsGap(gaps[0]) && IsGap(gaps[1])
  {
    assert Interleave(gaps[1..], raw[1..]) == gaps[1];
  }

  /** The first statement comes back unchanged only if the separator behind it is a top-level one. */
  lemma FirstReturnedEndsNormal(s: string, rest: string)
    requires IsTrimmed(s) && s[0] != ';'
    requires var stmts := Split(s + (";" + rest)); |stmts| > 0 && stmts[0] == s
    ensures EndState(false, Normal, s) == Normal
  {
    var sql := s + (";" + rest);
    StatementsAreRawEncoded(Pieces(false, Normal, sql));
    SplitIsLossless(sql);
    var raw := RawSplit(sql);
    assert Split(sql) == Utf8All(raw);
    hide *;
    var gaps :| Rebuilds(gaps, raw, sql) && GapsAreTopLevel("", gaps, raw);
    FirstGapIsTopLevel(gaps, raw, s, rest);
  }

  lemma FirstGapIsTopLevel(gaps: seq<string>, raw: seq<string>, s: string, rest: string)
    requires IsTrimmed(s) && s[0] != ';' && Rebuilds(gaps, raw, s + (";" + rest)) && |raw| > 0 && Utf8(raw[0]) == s
    requires GapsAreTopLevel("", gaps, raw)
    ensures EndState(false, Normal, s) == Normal
  {
    FirstGapIsBehind(gaps, raw, s, rest);
    hide EndState, Rebuilds, Utf8;
    var pre := "" + gaps[0] + raw[0];
    assert GapIsTopLevel(pre, gaps[1..][0]);
    assert pre + gaps[1][..0] == s;
  }

  lemma FirstGapIsBehind(gaps: seq<string>, raw: seq<string>, s: string, rest: string)
    requires IsTrimmed(s) && s[0] != ';' && Rebuilds(gaps, raw, s + (";" + rest)) && |raw| > 0 && Utf8(raw[0]) == s
    ensures gaps[0] == "" && raw[0] == s && gaps[1] != "" && gaps[1][0] == ';'
  {
    var sql, tail := s + (";" + rest), Interleave(gaps[1..], raw[1..]);
    assert sql == gaps[0] + raw[0] + tail && sql[0] == s[0];
    assert gaps[1] <= tail && (|raw| > 1 ==> gaps[1] != "") && (|raw| == 1 ==> gaps[1] == tail);
    assert IsGap(gaps[0]) && IsGap(gaps[1]);
    hide Utf8, Rebuilds, Interleave;
    assert gaps[0] == "" && gaps[0] + raw[0] == raw[0];
    EncodedInFront(raw[0], s, ";" + rest, tail);
    assert gaps[1] != "" && gaps[1][0] == tail[0];
  }

  /** Text in front of a gap whose encoding is `s`, where `s` itself stands in front of a semicolon. */
  lemma EncodedInFront(w: string, s: string, behind: string, tail: string)
    requires Utf8(w) == s && w + tail == s + behind && behind != "" && behind[0] == ';'
    ensures tail != "" && (IsGap([tail[0]]) ==> w == s && tail[0] == ';')
  {
    Utf8Counts(w);
    hide Utf8;
    var sql := s + behind;
    assert w == sql[..|w|] == s[..|w|] && tail == sql[|w|..];
    if |w| < |s| {
      var u := s[|w|..];
      assert s == w + u && u[0] == tail[0];
      Utf8FixesAscii(w);
      EncodingRunsOn(w, u);
      assert [tail[0]][0] == u[0];
    }
  }

  /** Idempotence, exactly: a statement that splitStatements returned splits into
  itself if and only if it is ASCII. */
  lemma SplitIdempotent(sql: string, i: nat)
    requires i < |Split(sql)|
    ensures var s := Split(sql)[i]; Split(s) == [s] <==> IsAscii(s)
  {
    StatementsAreRawEncoded(Pieces(false, Normal, sql));
    var t := RawSplit(sql)[i];
    var s := Split(sql)[i];
    assert s == Utf8(t);
    if IsAscii(s) {
      Utf8ReflectsAscii(t);
      Utf8OfAscii(t);
      RawStatementStandsAlone(sql, i);
    } else if Split(s) == [s] {
      FixedPointIsAscii(s);
    }
  }

  /** The returned text is the text of the script exactly for the ASCII statements. */
  lemma SplitKeepsText(sql: string)
    ensures Split(sql) == RawSplit(sql) <==> forall i :: 0 <= i < |RawSplit(sql)| ==> IsAscii(RawSplit(sql)[i])
    ensures IsAscii(sql) ==> Split(sql) == RawSplit(sql)
  {
    var raw := RawSplit(sql);
    StatementsAreRawEncoded(Pieces(false, Normal, sql));
    forall i | 0 <= i < |raw|
      ensures Utf8(raw[i]) == raw[i] <==> IsAscii(raw[i])
      ensures IsAscii(sql) ==> IsAscii(raw[i])
    {
      Utf8FixesAscii(raw[i]);
      if IsAscii(sql) {
        SplitIsLossless(sql);
        var gaps :| Rebuilds(gaps, raw, sql);
        StatementInScript(gaps, raw, sql, i);
      }
    }
    assert Split(sql) == raw ==> forall i :: 0 <= i < |raw| ==> Utf8(raw[i]) == raw[i];
  }

  lemma Utf8FixesAscii(s: string)
    ensures Utf8(s) == s <==> IsAscii(s)
  {
    Utf8Counts(s);
    if Utf8(s) == s {
      HighCountZero(s);
    } else if IsAscii(s) {
      Utf8OfAscii(s);
    }
  }

  lemma {:induction false} StatementInScript(gaps: seq<string>, stmts: seq<string>, text: string, i: nat)
    requires |gaps| == |stmts| + 1 && Interleave(gaps, stmts) == text && i < |stmts| && IsAscii(text)
    ensures IsAscii(stmts[i])
  {
    var rest := Interleave(gaps[1..], stmts[1..]);
    assert text == gaps[0] + stmts[0] + rest;
    assert forall j :: 0 <= j < |stmts[0]| ==> stmts[0][j] == text[|gaps[0]| + j];
    assert forall j :: 0 <= j < |rest| ==> rest[j] == text[|gaps[0] + stmts[0]| + j];
    if i > 0 {
      StatementInScript(gaps[1..], stmts[1..], rest, i - 1);
    }
  }
}
