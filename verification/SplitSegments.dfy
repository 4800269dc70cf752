/** What a script is made of, told without the scanner: separators, comments, quotes and plain
bytes.  The splitter cuts every script at exactly its separators. */
module SplitSegments {
  import opened SplitStatements
  import opened SplitLaws

  // ---- Segments -------------------------------------------------------------------------------

  /** One part of a script.  A comment or a quote that is not closed runs to the end. */
  datatype Segment =
    | Separator
    | Plain(c: char)
    | Line(t: string, closed: bool)
    | Block(t: string, closed: bool)
    | Single(t: string, closed: bool)
    | Double(t: string, closed: bool)
    | Dollar(w: string, t: string, closed: bool)

  function Opener(g: Segment): string {
    match g
    case Separator => ";"
    case Plain(c) => [c]
    case Line(_, _) => "--"
    case Block(_, _) => "/*"
    case Single(_, _) => "'"
    case Double(_, _) => "\""
    case Dollar(w, _, _) => "$" + w + "$"
  }

  function Closer(g: Segment): string {
    match g
    case Separator => ""
    case Plain(_) => ""
    case Line(_, _) => "\n"
    case Block(_, _) => "*/"
    case Single(_, _) => "'"
    case Double(_, _) => "\""
    case Dollar(w, _, _) => "$" + w + "$"
  }

  predicate IsSpan(g: Segment) {
    !g.Separator? && !g.Plain?
  }

  function TextOf(g: Segment): (s: string)
    ensures s != ""
  {
    if IsSpan(g) then Opener(g) + (g.t + if g.closed then Closer(g) else "") else Opener(g)
  }

  predicate IsWordByte(c: char) {
    'a' <= c <= 'z' || 'A' <= c <= 'Z' || '0' <= c <= '9' || c == '_'
  }

  /** The text behind a dollar goes on with a word and another dollar. */
  predicate OpensDollar(rest: string) {
    exists n :: 0 <= n < |rest| && rest[n] == '$' && forall i :: 0 <= i < n ==> IsWordByte(rest[i])
  }

  /** The closer does not begin inside the text. */
  predicate ClosesBehind(t: string, closer: string) {
    forall i :: 0 <= i < |t| ==> !(closer <= (t + closer)[i..])
  }

  /** The closer is nowhere. */
  predicate NeverCloses(t: string, closer: string) {
    forall i :: 0 <= i < |t| ==> !(closer <= t[i..])
  }

  predicate IsWord(w: string) {
    forall i :: 0 <= i < |w| ==> IsWordByte(w[i])
  }

  /** Between the dollars of a delimiter there is a word, or nothing. */
  predicate HasWord(g: Segment) {
    match g
    case Dollar(w, _, _) => IsWord(w)
    case _ => true
  }

  /** What can stand in front of `rest`, and behind a word byte or not. */
  predicate Fits(afterWord: bool, g: Segment, rest: string) {
    match g
    case Separator => true
    case Plain(c) =>
      && c != ';' && c != '\'' && c != '"'
      && !(c == '-' && rest != "" && rest[0] == '-')
      && !(c == '/' && rest != "" && rest[0] == '*')
      && !(c == '$' && !afterWord && OpensDollar(rest))
    case _ =>
      && HasWord(g) && (g.Dollar? ==> !afterWord)
      && if g.closed then ClosesBehind(g.t, Closer(g)) else rest == "" && NeverCloses(g.t, Closer(g))
  }

  predicate EndsInWord(s: string)
    requires s != ""
  {
    IsWordByte(s[|s| - 1])
  }

  /** The script consists of these segments. */
  predicate IsMadeOf(afterWord: bool, s: string, gs: seq<Segment>)
    decreases |gs|
  {
    if |gs| == 0 then s == ""
    else
      && TextOf(gs[0]) <= s
      && Fits(afterWord, gs[0], s[|TextOf(gs[0])|..])
      && IsMadeOf(EndsInWord(TextOf(gs[0])), s[|TextOf(gs[0])|..], gs[1..])
  }

  /** The texts between the separators. */
  function CutAt(gs: seq<Segment>): (r: seq<string>)
    ensures |r| > 0
    decreases |gs|
  {
    if |gs| == 0 then [""]
    else if gs[0].Separator? then [""] + CutAt(gs[1..])
    else
      var rest := CutAt(gs[1..]);
      [TextOf(gs[0]) + rest[0]] + rest[1..]
  }

  predicate AllClosed(gs: seq<Segment>) {
    forall g | g in gs :: IsSpan(g) ==> g.closed
  }

  // ---- Inside a comment or a quote -----------------------------------------------------------

  /** The state behind the opener. */
  function StateIn(g: Segment): Lex
    requires IsSpan(g) && HasWord(g)
  {
    match g
    case Line(_, _) => LineComment
    case Block(_, _) => BlockComment
    case Single(_, _) => SingleQuoted
    case Double(_, _) => DoubleQuoted
    case Dollar(w, _, _) =>
      TagOfWord(w);
      DollarQuoted("$" + w + "$")
  }

  lemma TagOfWord(w: string)
    requires IsWord(w)
    ensures IsTag("$" + w + "$")
  {
    var t := "$" + w + "$";
    assert forall i | 1 <= i < |t| - 1 :: t[i] == w[i - 1];
  }

  predicate IsSegment(g: Segment) {
    IsSpan(g) && HasWord(g)
  }

  /** One byte that does not begin the closer. */
  lemma InsideToken(afterIdent: bool, g: Segment, s: string)
    requires IsSegment(g) && s != "" && !(Closer(g) <= s)
    ensures NextToken(afterIdent, StateIn(g), s) == Token(s[..1], StateIn(g))
  {
    assert s[..1] == [s[0]];
    if g.Line? { assert s[0] == '\n' ==> "\n" <= s; }
    if g.Single? { assert s[0] == '\'' ==> "'" <= s; }
    if g.Double? { assert s[0] == '"' ==> "\"" <= s; }
  }

  lemma ClosingToken(afterIdent: bool, g: Segment, s: string)
    requires IsSegment(g) && Closer(g) <= s
    ensures Closer(g) != "" && NextToken(afterIdent, StateIn(g), s) == Token(Closer(g), Normal)
  {
    assert s[..1] == [s[0]];
  }

  lemma CloserEnds(g: Segment)
    requires IsSegment(g)
    ensures Closer(g) != "" && !EndsIdent(Closer(g)) && !EndsInWord(Closer(g))
  {
    var c := Closer(g);
    if g.Dollar? {
      assert c[|c| - 1] == '$';
    }
  }

  /** The scanner goes through the text to the closer and comes out in the start state. */
  ghost predicate Passes(afterIdent: bool, state: Lex, text: string, behindWord: bool, rest: string) {
    && Pieces(afterIdent, state, text + rest) == Prepend(text, Pieces(behindWord, Normal, rest))
    && EndState(afterIdent, state, text + rest) == EndState(behindWord, Normal, rest)
  }

  lemma PassesToken(afterIdent: bool, state: Lex, t: Token, text: string, behindWord: bool, rest: string)
    requires t.text != "" && !(state == Normal && t.text[0] == ';')
    requires t == NextToken(afterIdent, state, t.text + (text + rest)) && Passes(EndsIdent(t.text), t.next, text, behindWord, rest)
    ensures Passes(afterIdent, state, t.text + text, behindWord, rest)
  {
    var s := t.text + (text + rest);
    assert s[0] == t.text[0] && s[|t.text|..] == text + rest;
    PiecesAtToken(afterIdent, state, s, t);
    hide Pieces, EndState, NextToken;
    ConcatAssoc(t.text, text, rest);
    PrependPrepend(t.text, text, Pieces(behindWord, Normal, rest));
  }

  lemma PassesNothing(afterIdent: bool, rest: string)
    ensures Passes(afterIdent, Normal, "", afterIdent, rest)
  {
    hide Pieces, EndState;
    assert "" + rest == rest;
    PrependNothing(Pieces(afterIdent, Normal, rest));
  }

  /** The closer in the text behind a byte of it. */
  lemma ClosesBehindTail(t: string, closer: string)
    requires t != "" && ClosesBehind(t, closer)
    ensures ClosesBehind(t[1..], closer)
  {
    forall i | 0 <= i < |t| - 1 ensures !(closer <= (t[1..] + closer)[i..]) {
      assert (t[1..] + closer)[i..] == (t + closer)[i + 1..];
    }
  }

  lemma NotYetClosing(t: string, closer: string, rest: string)
    requires t != "" && ClosesBehind(t, closer)
    ensures !(closer <= t + (closer + rest))
  {
    var s := t + (closer + rest);
    assert (t + closer)[0..] == t + closer;
    assert s[..|closer|] == (t + closer)[..|closer|];
  }

  lemma {:induction false} ThroughToCloser(afterIdent: bool, g: Segment, t: string, rest: string)
    requires IsSegment(g) && ClosesBehind(t, Closer(g))
    ensures Passes(afterIdent, StateIn(g), t + Closer(g), false, rest)
    decreases |t|
  {
    var c := Closer(g);
    CloserEnds(g);
    hide Passes, NextToken, StateIn, Closer, ClosesBehind, EndsInWord;
    if t == "" {
      ClosingToken(afterIdent, g, c + ("" + rest));
      PassesNothing(false, rest);
      PassesToken(afterIdent, StateIn(g), Token(c, Normal), "", false, rest);
      assert c + "" == c && "" + c == c;
    } else {
      var s := [t[0]] + (t[1..] + c + rest);
      ClosesBehindTail(t, c);
      ThroughToCloser(EndsIdent([t[0]]), g, t[1..], rest);
      NotYetClosing(t, c, rest);
      FirstByte(t, c, rest);
      InsideToken(afterIdent, g, s);
      SpanIsNotNormal(g);
      PassesToken(afterIdent, StateIn(g), Token([t[0]], StateIn(g)), t[1..] + c, false, rest);
    }
  }

  lemma FirstByte(t: string, c: string, rest: string)
    requires t != ""
    ensures var s := [t[0]] + (t[1..] + c + rest);
            s == t + (c + rest) && s[..1] == [t[0]] && [t[0]] + (t[1..] + c) == t + c
  {
    assert t == [t[0]] + t[1..];
  }

  lemma SpanIsNotNormal(g: Segment)
    requires IsSegment(g)
    ensures StateIn(g) != Normal
  {
  }

  /** Without the closer the scanner stays inside, and there is one piece. */
  lemma {:induction false} StaysInside(afterIdent: bool, g: Segment, t: string)
    requires IsSegment(g) && NeverCloses(t, Closer(g))
    ensures Pieces(afterIdent, StateIn(g), t) == [t] && EndState(afterIdent, StateIn(g), t) == StateIn(g)
    decreases |t|
  {
    SpanIsNotNormal(g);
    if t != "" {
      assert t[0..] == t && forall i | 0 <= i < |t| - 1 :: t[1..][i..] == t[i + 1..];
      hide NextToken, StateIn, Closer;
      InsideToken(afterIdent, g, t);
      PiecesAtToken(afterIdent, StateIn(g), t, Token(t[..1], StateIn(g)));
      hide Pieces, EndState;
      StaysInside(EndsIdent(t[..1]), g, t[1..]);
      assert t[..1] + t[1..] == t;
    }
  }

  // ---- The beginning of a segment ----------------------------------------------------------------

  /** A dollar, a word and a dollar are a delimiter. */
  lemma {:induction false} TagIsFound(s: string, n: nat, i: nat)
    requires 0 < n && n + 2 <= |s| && s[0] == '$' && s[n + 1] == '$' && forall k :: 1 <= k <= n ==> IsWordByte(s[k])
    requires 1 <= i <= n + 1 && s[1] != '$' && forall k :: 1 <= k < i ==> IsSqlIdentByte(s[k])
    ensures TagFrom(s, i) == s[..n + 2]
    decreases n + 1 - i
  {
    if i <= n {
      assert IsWordByte(s[i]);
      TagIsFound(s, n, i + 1);
    }
  }

  lemma OpenerIsTag(w: string, rest: string)
    requires IsWord(w)
    ensures DollarQuoteTag("$" + w + "$" + rest) == "$" + w + "$"
  {
    var s, n := "$" + w + "$" + rest, |w|;
    assert s[..n + 2] == "$" + w + "$" && s[n + 1] == '$';
    assert forall k | 1 <= k <= n :: s[k] == w[k - 1];
    if n > 0 {
      assert IsWordByte(s[1]);
      TagIsFound(s, n, 1);
    }
  }

  /** A delimiter is a word and another dollar behind the first one. */
  lemma TagOpens(rest: string)
    requires DollarQuoteTag("$" + rest) != ""
    ensures OpensDollar(rest)
  {
    var s := "$" + rest;
    var tag := DollarQuoteTag(s);
    var n := |tag| - 2;
    assert s[..|tag|] == tag && s[n + 1] == tag[n + 1];
    assert rest[n] == '$';
    assert forall i | 0 <= i < n :: rest[i] == s[i + 1] == tag[i + 1];
  }

  lemma OpeningToken(afterIdent: bool, g: Segment, rest: string)
    requires IsSegment(g) && (g.Dollar? ==> !afterIdent)
    ensures NextToken(afterIdent, Normal, Opener(g) + rest) == Token(Opener(g), StateIn(g)) && Opener(g) != "" && Opener(g)[0] != ';'
  {
    var s := Opener(g) + rest;
    assert s[0] == Opener(g)[0] && s[..1] == [s[0]];
    match g {
      case Line(_, _) => assert s[..2] == "--";
      case Block(_, _) => assert s[..2] == "/*" && s[0] == '/';
      case Dollar(w, _, _) => OpenerIsTag(w, rest);
      case _ =>
    }
  }

  lemma PlainToken(afterIdent: bool, c: char, rest: string)
    requires Fits(afterIdent, Plain(c), rest)
    ensures NextToken(afterIdent, Normal, [c] + rest) == Token([c], Normal) && c != ';'
  {
    var s := [c] + rest;
    assert s[..1] == [c] && s[1..] == rest;
    assert rest != "" ==> s[1] == rest[0];
    if c == '$' && !afterIdent && DollarQuoteTag(s) != "" {
      TagOpens(rest);
    }
  }

  // ---- The theorem ----------------------------------------------------------------------------

  /** A closed segment or a plain byte in front of the rest of a script. */
  lemma SegmentPasses(afterWord: bool, g: Segment, rest: string)
    requires Fits(afterWord, g, rest) && !g.Separator? && (IsSpan(g) ==> g.closed)
    ensures Passes(afterWord, Normal, TextOf(g), EndsInWord(TextOf(g)), rest)
  {
    if IsSpan(g) {
      var o, inner := Opener(g), g.t + Closer(g);
      CloserEnds(g);
      assert TextOf(g) == o + inner && !EndsInWord(TextOf(g)) by { LastOfThree(o, g.t, Closer(g)); }
      OpeningToken(afterWord, g, inner + rest);
      hide Passes, NextToken, ClosesBehind;
      ThroughToCloser(EndsIdent(o), g, g.t, rest);
      PassesToken(afterWord, Normal, Token(o, StateIn(g)), inner, false, rest);
    } else {
      PlainToken(afterWord, g.c, rest);
      hide Passes, NextToken, OpensDollar;
      PassesNothing(EndsIdent([g.c]), rest);
      assert [g.c] + "" == [g.c] && "" + rest == rest;
      PassesToken(afterWord, Normal, Token([g.c], Normal), "", EndsIdent([g.c]), rest);
    }
  }

  lemma LastOfThree(a: string, b: string, c: string)
    requires c != ""
    ensures (a + (b + c))[|a + (b + c)| - 1] == c[|c| - 1]
  {
  }

  /** Comments and quotes letter by letter: what ends them, and that nothing else does. */
  lemma CommentsAndQuotesClose(afterWord: bool, t: string, rest: string)
    ensures '\n' !in t ==> Passes(afterWord, Normal, "--" + (t + "\n"), false, rest) && EndState(afterWord, Normal, "--" + (t + "")) != Normal
    ensures '\'' !in t ==> Passes(afterWord, Normal, "'" + (t + "'"), false, rest) && EndState(afterWord, Normal, "'" + (t + "")) != Normal
    ensures '"' !in t ==> Passes(afterWord, Normal, "\"" + (t + "\""), false, rest) && EndState(afterWord, Normal, "\"" + (t + "")) != Normal
    ensures ClosesBehind(t, "*/") ==> Passes(afterWord, Normal, "/*" + (t + "*/"), false, rest)
    ensures NeverCloses(t, "*/") ==> EndState(afterWord, Normal, "/*" + (t + "")) != Normal
  {
    hide Passes, EndState, EndsInWord, ClosesBehind, NeverCloses;
    if '\n' !in t {
      OneByteCloses(t, '\n');
      SpanCloses(afterWord, Line(t, true), rest);
      SpanStaysOpen(afterWord, Line(t, false));
    }
    if '\'' !in t {
      OneByteCloses(t, '\'');
      SpanCloses(afterWord, Single(t, true), rest);
      SpanStaysOpen(afterWord, Single(t, false));
    }
    if '"' !in t {
      OneByteCloses(t, '"');
      SpanCloses(afterWord, Double(t, true), rest);
      SpanStaysOpen(afterWord, Double(t, false));
    }
    if ClosesBehind(t, "*/") {
      SpanCloses(afterWord, Block(t, true), rest);
    }
    if NeverCloses(t, "*/") {
      SpanStaysOpen(afterWord, Block(t, false));
    }
  }

  lemma OneByteCloses(t: string, c: char)
    requires c !in t
    ensures ClosesBehind(t, [c]) && NeverCloses(t, [c])
  {
    assert forall i | 0 <= i < |t| :: (t + [c])[i..][0] == t[i] && t[i..][0] == t[i] && t[i] in t;
  }

  lemma SpanCloses(afterWord: bool, g: Segment, rest: string)
    requires IsSegment(g) && g.closed && !g.Dollar? && ClosesBehind(g.t, Closer(g))
    ensures Passes(afterWord, Normal, TextOf(g), false, rest)
  {
    CloserEnds(g);
    LastOfThree(Opener(g), g.t, Closer(g));
    hide Passes, ClosesBehind, Opener, Closer;
    FitsClosed(afterWord, g, rest);
    SegmentPasses(afterWord, g, rest);
  }

  lemma SpanStaysOpen(afterWord: bool, g: Segment)
    requires IsSegment(g) && !g.closed && !g.Dollar? && NeverCloses(g.t, Closer(g))
    ensures EndState(afterWord, Normal, TextOf(g)) != Normal
  {
    hide EndState, NeverCloses;
    FitsOpen(afterWord, g);
    OpenSegmentIsLast(afterWord, g);
  }

  /** An open segment is the rest of the script. */
  lemma OpenSegmentIsLast(afterWord: bool, g: Segment)
    requires Fits(afterWord, g, "") && IsSpan(g) && !g.closed
    ensures Pieces(afterWord, Normal, TextOf(g)) == [TextOf(g)] && EndState(afterWord, Normal, TextOf(g)) != Normal
  {
    var o := Opener(g);
    assert g.t + "" == g.t;
    assert TextOf(g) == o + g.t;
    OpeningToken(afterWord, g, g.t);
    SpanIsNotNormal(g);
    StaysInside(EndsIdent(o), g, g.t);
    hide NextToken, NeverCloses;
    assert (o + g.t)[|o|..] == g.t && (o + g.t)[0] == o[0];
    PiecesAtToken(afterWord, Normal, o + g.t, Token(o, StateIn(g)));
  }

  /** The splitter cuts a script at exactly its separators; it ends in the start state exactly if
  all comments and quotes are closed. */
  lemma {:induction false} CutsAtSeparators(afterWord: bool, s: string, gs: seq<Segment>)
    requires IsMadeOf(afterWord, s, gs)
    ensures Pieces(afterWord, Normal, s) == CutAt(gs)
    ensures EndState(afterWord, Normal, s) == Normal <==> AllClosed(gs)
    decreases |gs|
  {
    if |gs| > 0 {
      var g, text := gs[0], TextOf(gs[0]);
      var rest := s[|text|..];
      assert s == text + rest && gs == [g] + gs[1..];
      CutsAtSeparators(EndsInWord(text), rest, gs[1..]);
      assert AllClosed(gs) <==> (IsSpan(g) ==> g.closed) && AllClosed(gs[1..]);
      hide Fits, NextToken, IsMadeOf, AllClosed;
      if g.Separator? {
        PiecesAtSemicolon(afterWord, s);
        hide Pieces, EndState;
      } else if IsSpan(g) && !g.closed {
        NothingBehindOpen(afterWord, g, rest, gs[1..]);
        OpenSegmentIsLast(afterWord, g);
        hide Pieces, EndState;
        assert text + rest == text && text + "" == text;
      } else {
        hide Pieces, EndState;
        SegmentPasses(afterWord, g, rest);
      }
    }
  }

  lemma NothingBehindOpen(afterWord: bool, g: Segment, rest: string, gs: seq<Segment>)
    requires IsSpan(g) && !g.closed && Fits(afterWord, g, rest) && IsMadeOf(EndsInWord(TextOf(g)), rest, gs)
    ensures rest == "" && gs == [] && CutAt(gs) == [""]
  {
    if |gs| > 0 {
      assert false;
    }
  }

  // ---- Every script has segments -------------------------------------------------------------------

  predicate NotBefore(closer: string, s: string, n: nat)
    requires n <= |s|
  {
    forall i :: 0 <= i < n ==> !(closer <= s[i..])
  }

  /** Where the closer begins first, or the end of the text. */
  function FirstAt(closer: string, s: string): (n: nat)
    ensures n <= |s| && NotBefore(closer, s, n) && (n < |s| ==> closer <= s[n..])
  {
    if s == "" then 0
    else if closer <= s then
      assert s[0..] == s;
      0
    else
      var n := FirstAt(closer, s[1..]);
      assert s[0..] == s && forall i :: 1 <= i <= |s| ==> s[i..] == s[1..][i - 1..];
      1 + n
  }

  /** A comment or a quote that begins the script, as far as it goes. */
  lemma SpanFromOpener(afterWord: bool, open: Segment, s: string) returns (g: Segment)
    requires IsSegment(open) && (open.Dollar? ==> !afterWord) && Opener(open) <= s
    ensures IsSpan(g) && TextOf(g) <= s && Fits(afterWord, g, s[|TextOf(g)|..])
  {
    var o, c, inner := Opener(open), Closer(open), s[|Opener(open)|..];
    CloserEnds(open);
    var n := FirstAt(c, inner);
    var t := inner[..n];
    g := WithText(open, t, n < |inner|);
    hide *;
    if n < |inner| {
      var rest := inner[n..][|c|..];
      ScriptParts(s, o, c, n);
      ClosedText(t, c, rest, inner, n);
      ClosedSpan(afterWord, g, rest, s);
    } else {
      assert t == inner && s == o + inner;
      OpenText(c, inner);
      OpenSpan(afterWord, g, s);
    }
  }

  lemma ScriptParts(s: string, o: string, c: string, n: nat)
    requires o <= s && n <= |s| - |o| && c <= s[|o|..][n..]
    ensures var inner := s[|o|..];
            var rest := inner[n..][|c|..];
            inner == inner[..n] + (c + rest) && s == o + (inner[..n] + (c + rest))
  {
    var inner := s[|o|..];
    assert inner[n..] == c + inner[n..][|c|..];
    assert inner == inner[..n] + inner[n..];
  }

  lemma OpenText(c: string, inner: string)
    requires NotBefore(c, inner, |inner|)
    ensures NeverCloses(inner, c)
  {
  }

  lemma ClosedSpan(afterWord: bool, g: Segment, rest: string, s: string)
    requires IsSegment(g) && (g.Dollar? ==> !afterWord) && g.closed && ClosesBehind(g.t, Closer(g))
    requires s == Opener(g) + (g.t + (Closer(g) + rest))
    ensures IsSpan(g) && TextOf(g) <= s && Fits(afterWord, g, s[|TextOf(g)|..])
  {
    hide Opener, Closer, ClosesBehind;
    DropThree(Opener(g), g.t, Closer(g), rest);
    FitsClosed(afterWord, g, rest);
  }

  lemma OpenSpan(afterWord: bool, g: Segment, s: string)
    requires IsSegment(g) && (g.Dollar? ==> !afterWord) && !g.closed && NeverCloses(g.t, Closer(g)) && s == Opener(g) + g.t
    ensures IsSpan(g) && TextOf(g) <= s && Fits(afterWord, g, s[|TextOf(g)|..])
  {
    hide Opener, Closer, NeverCloses;
    assert g.t + "" == g.t && s[|TextOf(g)|..] == "";
    FitsOpen(afterWord, g);
  }

  lemma DropThree(o: string, t: string, c: string, rest: string)
    ensures var s := o + (t + (c + rest)); o + (t + c) <= s && s[|o + (t + c)|..] == rest
  {
    assert o + (t + (c + rest)) == o + (t + c) + rest;
  }

  function WithText(g: Segment, t: string, closed: bool): (r: Segment)
    requires IsSegment(g)
    ensures IsSegment(r) && Opener(r) == Opener(g) && Closer(r) == Closer(g) && r.t == t && r.closed == closed && r.Dollar? == g.Dollar?
  {
    match g
    case Line(_, _) => Line(t, closed)
    case Block(_, _) => Block(t, closed)
    case Single(_, _) => Single(t, closed)
    case Double(_, _) => Double(t, closed)
    case Dollar(w, _, _) => Dollar(w, t, closed)
  }

  lemma ClosedText(t: string, c: string, rest: string, inner: string, n: nat)
    requires inner == t + (c + rest) && n == |t| && NotBefore(c, inner, n)
    ensures ClosesBehind(t, c)
  {
    forall i | 0 <= i < |t| ensures !(c <= (t + c)[i..]) {
      assert inner[i..] == (t + c)[i..] + rest;
    }
  }

  lemma FitsClosed(afterWord: bool, g: Segment, rest: string)
    requires IsSegment(g) && (g.Dollar? ==> !afterWord) && g.closed && ClosesBehind(g.t, Closer(g))
    ensures Fits(afterWord, g, rest)
  {
  }

  lemma FitsOpen(afterWord: bool, g: Segment)
    requires IsSegment(g) && (g.Dollar? ==> !afterWord) && !g.closed && NeverCloses(g.t, Closer(g))
    ensures Fits(afterWord, g, "")
  {
  }

  /** The first segment of a script. */
  lemma FirstSegment(afterWord: bool, s: string) returns (g: Segment)
    requires s != ""
    ensures TextOf(g) <= s && Fits(afterWord, g, s[|TextOf(g)|..])
  {
    var rest := s[1..];
    assert s == [s[0]] + rest;
    hide Fits;
    if s[0] == ';' {
      SeparatorFits(afterWord, rest);
      g := Separator;
    } else if s[0] == '\'' {
      g := SpanFromOpener(afterWord, Single("", true), s);
    } else if s[0] == '"' {
      g := SpanFromOpener(afterWord, Double("", true), s);
    } else if "--" <= s {
      g := SpanFromOpener(afterWord, Line("", true), s);
    } else if "/*" <= s {
      g := SpanFromOpener(afterWord, Block("", true), s);
    } else if s[0] == '$' && !afterWord && OpensDollar(rest) {
      var n :| 0 <= n < |rest| && rest[n] == '$' && forall i :: 0 <= i < n ==> IsWordByte(rest[i]);
      assert "$" + rest[..n] + "$" <= s;
      g := SpanFromOpener(afterWord, Dollar(rest[..n], "", true), s);
    } else {
      g := Plain(s[0]);
      PlainFirst(afterWord, s);
    }
  }

  lemma SeparatorFits(afterWord: bool, rest: string)
    ensures Fits(afterWord, Separator, rest)
  {
  }

  lemma PlainFirst(afterWord: bool, s: string)
    requires s != "" && s[0] != ';' && s[0] != '\'' && s[0] != '"' && !("--" <= s) && !("/*" <= s)
    requires !(s[0] == '$' && !afterWord && OpensDollar(s[1..]))
    ensures TextOf(Plain(s[0])) <= s && Fits(afterWord, Plain(s[0]), s[|TextOf(Plain(s[0]))|..])
  {
    hide OpensDollar;
    assert |s| >= 2 ==> s[..2] == [s[0], s[1..][0]];
  }

  /** Every script is made of segments. */
  lemma {:induction false} EveryScriptHasSegments(afterWord: bool, s: string) returns (gs: seq<Segment>)
    ensures IsMadeOf(afterWord, s, gs)
    decreases |s|
  {
    if s == "" {
      gs := [];
    } else {
      var g := FirstSegment(afterWord, s);
      var more := EveryScriptHasSegments(EndsInWord(TextOf(g)), s[|TextOf(g)|..]);
      gs := [g] + more;
      hide Fits;
      assert gs[1..] == more;
    }
  }

  /** A script is made of segments, and however it is told apart, its statements are the texts
  between the separators. */
  lemma SplitCutsAtSeparators(sql: string)
    ensures exists gs :: IsMadeOf(false, sql, gs)
    ensures forall gs | IsMadeOf(false, sql, gs) ::
              Split(sql) == Statements(CutAt(gs)) && (EndState(false, Normal, sql) == Normal <==> AllClosed(gs))
  {
    var some := EveryScriptHasSegments(false, sql);
    forall gs | IsMadeOf(false, sql, gs)
      ensures Split(sql) == Statements(CutAt(gs)) && (EndState(false, Normal, sql) == Normal <==> AllClosed(gs))
    {
      CutsAtSeparators(false, sql, gs);
    }
  }

  // ---- Statements and bytes ------------------------------------------------------------------------

  /** The bytes that a UTF-8 text of code points below 256 stands for. */
  function FromUtf8(s: string): string
    decreases |s|
  {
    if s == "" then ""
    else if s[0] < '\U{80}' then [s[0]] + FromUtf8(s[1..])
    else if |s| >= 2 && ('\U{C2}' <= s[0] <= '\U{C3}') && ('\U{80}' <= s[1] <= '\U{BF}') then
      [((s[0] as int - 0xC0) * 64 + (s[1] as int - 0x80)) as char] + FromUtf8(s[2..])
    else ""
  }

  /** A returned statement is the UTF-8 text of the bytes of the script. */
  lemma {:induction false} StatementBytesReadBack(s: string)
    requires forall i :: 0 <= i < |s| ==> s[i] < '\U{100}'
    ensures FromUtf8(Utf8(s)) == s
  {
    if s != "" {
      var e, more := Utf8Byte(s[0]), Utf8(s[1..]);
      StatementBytesReadBack(s[1..]);
      assert s == [s[0]] + s[1..];
      assert (e + more)[|e|..] == more && (e + more)[0] == e[0] && (|e| == 2 ==> (e + more)[1] == e[1]);
    }
  }
}
