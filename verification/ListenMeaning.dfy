/** What LISTEN and UNLISTEN statements mean to PostgreSQL, as they are written and as
internal/web/listen.go sends them on. */
module ListenMeaning {
  import opened Wrappers
  import opened GoStrings
  import opened SqlQuote
  import opened SqlNames
  import opened Listen

  // ---- PostgreSQL's lexical rules -----------------------------------------------------------

  predicate IsPgBlank(c: char) {
    c == ' ' || '\t' <= c <= '\r'
  }

  predicate IsLetter(c: char) {
    'a' <= c <= 'z' || 'A' <= c <= 'Z'
  }

  /** Every character beyond ASCII can stand in a name, blanks among them. */
  predicate IsPgStart(c: char) {
    IsLetter(c) || c == '_' || c >= '\U{80}'
  }

  predicate IsPgIdent(c: char) {
    IsPgStart(c) || '0' <= c <= '9' || c == '$'
  }

  predicate IsRest(r: string, s: string) {
    |r| <= |s| && s[|s| - |r|..] == r
  }

  lemma RestOfRest(a: string, b: string, c: string)
    requires IsRest(a, b) && IsRest(b, c)
    ensures IsRest(a, c)
  {
    assert c[|c| - |a|..] == c[|c| - |b|..][|b| - |a|..];
  }

  /** What follows the line. */
  function BehindLine(s: string): (r: string)
    ensures IsRest(r, s)
  {
    if s == "" || s[0] == '\n' || s[0] == '\r' then s
    else
      var r := BehindLine(s[1..]);
      RestOfRest(r, s[1..], s);
      r
  }

  /** What follows a comment that has been opened `depth` times, if it ends. */
  function BehindBlock(s: string, depth: nat): (r: Option<string>)
    ensures r.Some? ==> IsRest(r.value, s)
    decreases |s|
  {
    if depth == 0 then Some(s)
    else if |s| < 2 then None
    else
      var n := if s[..2] == "*/" || s[..2] == "/*" then 2 else 1;
      var r := BehindBlock(s[n..], if s[..2] == "*/" then depth - 1 else if s[..2] == "/*" then depth + 1 else depth);
      if r.Some? then
        RestOfRest(r.value, s[n..], s);
        r
      else None
  }

  /** What follows blanks and comments. */
  function Skip(s: string): (r: string)
    ensures IsRest(r, s)
    decreases |s|
  {
    if s != "" && IsPgBlank(s[0]) then
      var r := Skip(s[1..]);
      RestOfRest(r, s[1..], s);
      r
    else if "--" <= s then
      var line := BehindLine(s[2..]);
      RestOfRest(line, s[2..], s);
      var r := Skip(line);
      RestOfRest(r, line, s);
      r
    else if "/*" <= s && BehindBlock(s[2..], 1).Some? then
      var block := BehindBlock(s[2..], 1).value;
      RestOfRest(block, s[2..], s);
      var r := Skip(block);
      RestOfRest(r, block, s);
      r
    else s
  }

  function IdentEnd(s: string): (n: nat)
    ensures n <= |s|
  {
    if s == "" || !IsPgIdent(s[0]) then 0 else 1 + IdentEnd(s[1..])
  }

  /** The word in front. */
  function Word(s: string): (w: string)
    ensures w <= s
  {
    if s != "" && IsPgStart(s[0]) then s[..IdentEnd(s)] else ""
  }

  function AsciiUpper(s: string): (r: string)
    ensures |r| == |s|
  {
    seq(|s|, i requires 0 <= i < |s| => if 'a' <= s[i] <= 'z' then s[i] - 'a' + 'A' else s[i])
  }

  function AsciiLower(s: string): (r: string)
    ensures |r| == |s|
  {
    seq(|s|, i requires 0 <= i < |s| => if 'A' <= s[i] <= 'Z' then s[i] - 'A' + 'a' else s[i])
  }

  // ---- The meaning of a statement ----------------------------------------------------------

  datatype Meaning = Listens(channel: string) | Unlistens(channel: string) | UnlistensAll

  /** A channel name: a quoted one is taken literally, an unquoted one folds to lower case and is no
  reserved word. */
  function ReadChannel(s: string): Option<(string, string)> {
    if s != "" && s[0] == '"' then
      match ReadQuoted(s[1..], '"')
      case None => None
      case Some((x, rest)) => if x == "" then None else Some((x, rest))
    else
      var w := Word(s);
      if w == "" || IsReserved(AsciiLower(w)) then None else Some((AsciiLower(w), s[|w|..]))
  }

  /** Nothing is left but separators. */
  predicate OnlyEnds(s: string)
    decreases |s|
  {
    var r := Skip(s);
    r == "" || (r[0] == ';' && OnlyEnds(r[1..]))
  }

  function NameAt(s: string): Option<string> {
    match ReadChannel(Skip(s))
    case None => None
    case Some((x, rest)) => if OnlyEnds(rest) then Some(x) else None
  }

  /** The asterisk is the wildcard only where it stands by itself. */
  function VerbMeaning(verb: string, s: string): Option<Meaning> {
    if verb == "LISTEN" then (match NameAt(s) case None => None case Some(x) => Some(Listens(x)))
    else if verb == "UNLISTEN" then
      if "*" <= Skip(s) then if OnlyEnds(Skip(s)[1..]) then Some(UnlistensAll) else None
      else (match NameAt(s) case None => None case Some(x) => Some(Unlistens(x)))
    else None
  }

  /** What a text means to PostgreSQL, if it is a LISTEN or UNLISTEN statement. */
  function MeaningOf(stmt: string): Option<Meaning> {
    var r := Skip(stmt);
    var w := Word(r);
    VerbMeaning(AsciiUpper(w), r[|w|..])
  }

  // ---- What the server sends -----------------------------------------------------------------

  function NewlineAt(s: string): (i: nat)
    ensures i <= |s|
  {
    if s == "" || s[0] == '\n' then 0 else 1 + NewlineAt(s[1..])
  }

  lemma TrimShortens(s: string)
    ensures |Trim(s)| <= |s|
  {
    TrimParts(s);
    hide Trim, TrimLeft, Leading, Trailing;
    assert |s| == |Leading(s)| + |Trim(s)| + |Trailing(TrimLeft(s))|;
  }

  /** stripLeadingComments */
  function StripLeadingComments(q: string): string
    decreases |q|
  {
    if "--" <= q then
      var i := NewlineAt(q);
      if i == |q| then ""
      else
        TrimShortens(q[i + 1..]);
        StripLeadingComments(Trim(q[i + 1..]))
    else q
  }

  /** firstKeyword */
  function FirstKeyword(stmt: string): string {
    var q := StripLeadingComments(Trim(Upper(stmt)));
    q[..FirstWordEnd(q)]
  }

  predicate IsVerb(kind: string) {
    kind == "LISTEN" || kind == "UNLISTEN"
  }

  /** listenIntercept: which statements go to the listener at all. */
  predicate IsIntercepted(stmt: string) {
    IsVerb(FirstKeyword(stmt))
  }

  /** The statement that the listener sends for a parsed command: everything but LISTEN goes
  the way of UNLISTEN, and the channel named * is taken for the wildcard. */
  function SentFor(cmd: Command): string {
    if cmd.kind == "LISTEN" then "LISTEN " + QuoteIdent(cmd.channel)
    else if cmd.channel != "*" then "UNLISTEN " + QuoteIdent(cmd.channel)
    else "UNLISTEN *"
  }

  function MeaningFor(cmd: Command): Meaning {
    if cmd.kind == "LISTEN" then Listens(cmd.channel) else if cmd.channel == "*" then UnlistensAll else Unlistens(cmd.channel)
  }

  // ---- Blanks, words and names ------------------------------------------------------------------

  lemma SkipStops(s: string)
    requires s != "" && !IsPgBlank(s[0]) && s[0] != '-' && s[0] != '/'
    ensures Skip(s) == s
  {
  }

  /** Blanks are skipped as far as they are ASCII. */
  lemma {:induction false} SkipBlanks(l: string, y: string)
    requires AllSpace(l) && IsAscii(l)
    ensures Skip(l + y) == Skip(y)
  {
    if l == "" {
      assert l + y == y;
    } else {
      assert (l + y)[1..] == l[1..] + y;
      SkipBlanks(l[1..], y);
    }
  }

  /** At any other blank a name begins. */
  lemma {:induction false} SkipToName(l: string, y: string) returns (k: nat)
    requires AllSpace(l) && !IsAscii(l)
    ensures k < |l| && l[k] >= '\U{80}' && Skip(l + y) == l[k..] + y
  {
    if l[0] >= '\U{80}' {
      k := 0;
      assert (l + y)[0] == l[0];
      SkipStops(l + y);
    } else {
      assert (l + y)[1..] == l[1..] + y;
      k := SkipToName(l[1..], y);
      k := k + 1;
    }
  }

  lemma {:induction false} IdentEndOf(w: string, rest: string)
    requires (forall i :: 0 <= i < |w| ==> IsPgIdent(w[i])) && (rest == "" || !IsPgIdent(rest[0]))
    ensures IdentEnd(w + rest) == |w|
  {
    if w == "" {
      assert w + rest == rest;
    } else {
      assert (w + rest)[1..] == w[1..] + rest;
      IdentEndOf(w[1..], rest);
    }
  }

  lemma WordOf(w: string, rest: string)
    requires w != "" && IsPgStart(w[0]) && (forall i :: 0 <= i < |w| ==> IsPgIdent(w[i])) && (rest == "" || !IsPgIdent(rest[0]))
    ensures Word(w + rest) == w && (w + rest)[|w|..] == rest
  {
    IdentEndOf(w, rest);
    assert (w + rest)[0] == w[0] && (w + rest)[..|w|] == w;
  }

  lemma HighWord(s: string)
    requires s != "" && s[0] >= '\U{80}'
    ensures Word(s) != "" && Word(s)[0] == s[0]
  {
  }

  /** A word that begins beyond ASCII is no verb. */
  lemma HighIsNoVerb(stmt: string)
    requires Skip(stmt) != "" && Skip(stmt)[0] >= '\U{80}'
    ensures MeaningOf(stmt) == None
  {
    hide Skip, Word;
    HighWord(Skip(stmt));
    assert AsciiUpper(Word(Skip(stmt)))[0] >= '\U{80}';
  }

  /** The keyword of a statement, behind blanks: it counts if it and they are ASCII. */
  lemma VerbInFront(l: string, x: string, y: string)
    requires AllSpace(l) && IsVerb(Upper(x)) && y != "" && !IsPgIdent(y[0])
    ensures MeaningOf(l + (x + y)) == if IsAscii(l) && IsAscii(x) then VerbMeaning(Upper(x), y) else None
  {
    hide Skip, VerbMeaning, Word;
    assert forall i | 0 <= i < |x| :: Upper(x)[i] == UpperChar(x[i]) && IsLetter(Upper(x)[i]) && IsPgStart(x[i]);
    if !IsAscii(l) {
      var k := SkipToName(l, x + y);
      HighIsNoVerb(l + (x + y));
    } else {
      SkipBlanks(l, x + y);
      assert (x + y)[0] == x[0];
      SkipStops(x + y);
      WordOf(x, y);
      VerbByAscii(x, y);
    }
  }

  lemma VerbByAscii(x: string, y: string)
    requires IsVerb(Upper(x))
    ensures VerbMeaning(AsciiUpper(x), y) == if IsAscii(x) then VerbMeaning(Upper(x), y) else None
  {
    if IsAscii(x) {
      assert AsciiUpper(x) == Upper(x);
    } else {
      var i :| 0 <= i < |x| && x[i] >= '\U{80}';
      HighIsNotVerb(AsciiUpper(x), i);
      hide NameAt, OnlyEnds, Skip, AsciiUpper;
    }
  }

  lemma HighIsNotVerb(w: string, i: nat)
    requires i < |w| && w[i] >= '\U{80}'
    ensures !IsVerb(w)
  {
    assert forall j | 0 <= j < 6 :: "LISTEN"[j] < '\U{80}';
    assert forall j | 0 <= j < 8 :: "UNLISTEN"[j] < '\U{80}';
  }

  /** Blanks and separators at the end. */
  predicate IsEnd(post: string) {
    forall i :: 0 <= i < |post| ==> IsSpace(post[i]) || post[i] == ';'
  }

  /** They are nothing to PostgreSQL exactly if they are ASCII. */
  lemma {:induction false} EndsByAscii(post: string)
    requires IsEnd(post)
    ensures OnlyEnds(post) <==> IsAscii(post)
  {
    if post != "" {
      EndsByAscii(post[1..]);
      assert IsAscii(post) <==> post[0] < '\U{80}' && IsAscii(post[1..]);
      if !IsPgBlank(post[0]) {
        SkipStops(post);
      }
    }
  }

  lemma NameInQuotes(c: string, rest: string)
    requires rest == "" || rest[0] != '"'
    ensures ReadChannel(QuoteIdent(c) + rest) == if c == "" then None else Some((c, rest))
  {
    ReadQuotedOf(c, '"', rest);
    assert (QuoteIdent(c) + rest)[1..] == Doubled(c, '"') + ['"'] + rest;
  }

  /** An argument behind blanks, a quoted one. */
  lemma QuotedArgument(verb: string, gap: string, c: string, post: string)
    requires AllSpace(gap) && IsEnd(post) && c != "" && IsVerb(verb)
    ensures VerbMeaning(verb, gap + (QuoteIdent(c) + post))
         == if IsAscii(gap) && IsAscii(post) then Some(if verb == "LISTEN" then Listens(c) else Unlistens(c)) else None
  {
    hide Skip, ReadChannel, OnlyEnds, QuoteIdent;
    var y := QuoteIdent(c) + post;
    QuoteInFront(c, post);
    NameInQuotes(c, post);
    EndsByAscii(post);
    if IsAscii(gap) {
      SkipBlanks(gap, y);
      SkipStops(y);
    } else {
      var k := SkipToName(gap, y);
      HighNameBeforeQuote(gap[k..], y);
      assert (gap[k..] + y)[0] == gap[k];
    }
  }

  lemma QuoteInFront(c: string, post: string)
    ensures QuoteIdent(c) + post != "" && (QuoteIdent(c) + post)[0] == '"'
  {
  }

  /** A name that begins in blanks beyond ASCII is followed by the quote. */
  lemma HighNameBeforeQuote(gap: string, y: string)
    requires AllSpace(gap) && gap != "" && gap[0] >= '\U{80}' && y != "" && y[0] == '"'
    ensures var r := ReadChannel(gap + y); r.Some? ==> r.value.0[0] >= '\U{80}' && !OnlyEnds(r.value.1)
  {
    hide Skip, OnlyEnds;
    var s := gap + y;
    HighWord(s);
    WordEndsBefore(gap, y);
    var w := Word(s);
    assert AsciiLower(w)[0] == w[0] && |w| <= |gap|;
    hide Word, IsReserved, AllSpace;
    DropFront(gap, y, |w|);
    hide AsciiLower;
    QuoteRemains(gap[|w|..], y);
  }

  lemma DropFront(a: string, b: string, n: nat)
    requires n <= |a|
    ensures (a + b)[n..] == a[n..] + b
  {
  }

  lemma {:induction false} WordEndsBefore(gap: string, y: string)
    requires AllSpace(gap) && y != "" && y[0] == '"'
    ensures IdentEnd(gap + y) <= |gap|
  {
    if gap == "" {
      assert gap + y == y;
    } else {
      assert (gap + y)[1..] == gap[1..] + y;
      WordEndsBefore(gap[1..], y);
    }
  }

  lemma QuoteRemains(gap: string, y: string)
    requires AllSpace(gap) && y != "" && y[0] == '"'
    ensures !OnlyEnds(gap + y)
  {
    hide Skip;
    if IsAscii(gap) {
      SkipBlanks(gap, y);
      SkipStops(y);
    } else {
      var k := SkipToName(gap, y);
      assert (gap[k..] + y)[0] == gap[k];
    }
  }

  /** The wildcard. */
  lemma StarArgument(gap: string, post: string)
    requires AllSpace(gap) && IsEnd(post)
    ensures VerbMeaning("UNLISTEN", gap + ("*" + post)) == Some(UnlistensAll) <==> IsAscii(gap) && IsAscii(post)
  {
    hide Skip, ReadChannel, OnlyEnds;
    EndsByAscii(post);
    var y := "*" + post;
    assert y[0] == '*' && y[1..] == post;
    if IsAscii(gap) {
      SkipBlanks(gap, y);
      SkipStops(y);
    } else {
      var k := SkipToName(gap, y);
      assert (gap[k..] + y)[0] == gap[k];
    }
  }

  /** An argument without quotes. */
  lemma PlainArgument(verb: string, gap: string, arg: string, post: string)
    requires AllSpace(gap) && IsEnd(post) && IsVerb(verb) && IsSafeIdent(Lower(arg))
    ensures var c := Lower(arg);
            VerbMeaning(verb, gap + (arg + post)) == Some(if verb == "LISTEN" then Listens(c) else Unlistens(c))
            <==> IsAscii(gap) && IsAscii(arg) && IsAscii(post) && !IsReserved(c)
  {
    hide Skip, ReadChannel, OnlyEnds, IsReserved;
    var c, y := Lower(arg), arg + post;
    PlainChars(arg);
    if IsAscii(gap) {
      assert y[0] == arg[0];
      SkipBlanks(gap, y);
      SkipStops(y);
      PlainName(arg, post);
    } else {
      var k := SkipToName(gap, y);
      var s := gap[k..] + y;
      assert s[0] == gap[k] && c[0] < '\U{80}';
      NameBeyondAscii(s, 0);
    }
  }

  lemma PlainChars(arg: string)
    requires IsSafeIdent(Lower(arg))
    ensures arg != "" && IsPgStart(arg[0]) && (forall i :: 0 <= i < |arg| ==> IsPgIdent(arg[i])) && IsAscii(Lower(arg))
    ensures IsAscii(arg) ==> Lower(arg) == AsciiLower(arg)
  {
    assert forall i | 0 <= i < |arg| :: Lower(arg)[i] == LowerChar(arg[i]);
  }

  /** A name whose word holds a character beyond ASCII keeps it. */
  lemma NameBeyondAscii(s: string, i: nat)
    requires i < |Word(s)| && s[i] >= '\U{80}'
    ensures ReadChannel(s).Some? ==> i < |ReadChannel(s).value.0| && ReadChannel(s).value.0[i] >= '\U{80}'
  {
    assert AsciiLower(Word(s))[i] == s[i];
    hide IsReserved;
  }

  /** What is read in front is this name, and nothing follows it. */
  predicate IsName(s: string, c: string) {
    match ReadChannel(s)
    case None => false
    case Some((x, rest)) => x == c && OnlyEnds(rest)
  }

  lemma PlainName(arg: string, post: string)
    requires IsSafeIdent(Lower(arg)) && IsEnd(post)
    ensures IsName(arg + post, Lower(arg)) <==> IsAscii(arg) && IsAscii(post) && !IsReserved(Lower(arg))
  {
    PlainChars(arg);
    if post != "" && post[0] >= '\U{80}' {
      NameRunsOn(arg, post);
    } else {
      assert post == "" || !IsPgIdent(post[0]);
      NameIsArgument(arg, post);
    }
  }

  lemma NameRunsOn(arg: string, post: string)
    requires IsSafeIdent(Lower(arg)) && post != "" && post[0] >= '\U{80}'
    ensures !IsName(arg + post, Lower(arg))
  {
    hide OnlyEnds, ReadChannel, Word;
    PlainChars(arg);
    WordGoesOn(arg, post);
    NameBeyondAscii(arg + post, |arg|);
  }

  lemma NameIsArgument(arg: string, post: string)
    requires IsSafeIdent(Lower(arg)) && IsEnd(post) && (post == "" || !IsPgIdent(post[0]))
    ensures IsName(arg + post, Lower(arg)) <==> IsAscii(arg) && IsAscii(post) && !IsReserved(Lower(arg))
  {
    PlainChars(arg);
    EndsByAscii(post);
    WordOf(arg, post);
    assert (arg + post)[0] == arg[0];
    hide OnlyEnds, IsReserved, Word;
    if !IsAscii(arg) {
      var i :| 0 <= i < |arg| && arg[i] >= '\U{80}';
      hide ReadChannel;
      assert (arg + post)[i] == arg[i];
      NameBeyondAscii(arg + post, i);
      assert Lower(arg)[i] < '\U{80}';
    }
  }

  lemma WordGoesOn(w: string, rest: string)
    requires w != "" && IsPgStart(w[0]) && (forall i :: 0 <= i < |w| ==> IsPgIdent(w[i])) && rest != "" && IsPgIdent(rest[0])
    ensures |Word(w + rest)| > |w|
  {
    IdentEndAtLeast(w, rest);
    assert (w + rest)[0] == w[0];
  }

  lemma {:induction false} IdentEndAtLeast(w: string, rest: string)
    requires (forall i :: 0 <= i < |w| ==> IsPgIdent(w[i])) && rest != "" && IsPgIdent(rest[0])
    ensures IdentEnd(w + rest) > |w|
  {
    if w == "" {
      assert w + rest == rest;
    } else {
      assert (w + rest)[1..] == w[1..] + rest;
      IdentEndAtLeast(w[1..], rest);
    }
  }

  // ---- What is sent ---------------------------------------------------------------------------------

  lemma VerbsAreUpper()
    ensures Upper("LISTEN") == "LISTEN" && Upper("UNLISTEN") == "UNLISTEN" && IsAscii("LISTEN") && IsAscii("UNLISTEN")
  {
  }

  lemma MeaningOfWords(verb: string, arg: string)
    requires IsVerb(verb)
    ensures MeaningOf(verb + " " + arg) == VerbMeaning(verb, " " + arg)
  {
    hide MeaningOf, VerbMeaning;
    VerbsAreUpper();
    VerbInFront("", verb, " " + arg);
    assert "" + (verb + (" " + arg)) == verb + " " + arg;
  }

  /** The sent statement is about the parsed channel, or about all of them. */
  lemma MeaningOfSent(cmd: Command)
    requires cmd.channel != ""
    ensures MeaningOf(SentFor(cmd)) == Some(MeaningFor(cmd))
  {
    hide MeaningOf, VerbMeaning, QuoteIdent;
    var c := cmd.channel;
    assert QuoteIdent(c) + "" == QuoteIdent(c);
    if cmd.kind == "LISTEN" {
      assert "LISTEN" + " " + QuoteIdent(c) == "LISTEN " + QuoteIdent(c);
      MeaningOfWords("LISTEN", QuoteIdent(c));
      QuotedArgument("LISTEN", " ", c, "");
    } else if c == "*" {
      assert "UNLISTEN" + " " + "*" == "UNLISTEN *" && "*" + "" == "*";
      MeaningOfWords("UNLISTEN", "*");
      StarArgument(" ", "");
    } else {
      assert "UNLISTEN" + " " + QuoteIdent(c) == "UNLISTEN " + QuoteIdent(c);
      MeaningOfWords("UNLISTEN", QuoteIdent(c));
      QuotedArgument("UNLISTEN", " ", c, "");
    }
  }

  // ---- The listener -------------------------------------------------------------------------------------

  /** The channels of a session once it has executed a statement. */
  function Effect(m: Meaning, channels: set<string>): set<string> {
    match m
    case Listens(c) => channels + {c}
    case Unlistens(c) => channels - {c}
    case UnlistensAll => {}
  }

  /** A tab's listener: the channels it keeps track of, and those that PostgreSQL has for its
  connection. */
  class Listener {
    var channels: set<string>
    var closed: bool
    ghost var registered: set<string>

    /** The listener knows its channels. */
    ghost predicate Valid()
      reads this
    {
      channels == registered
    }

    constructor ()
      ensures Valid() && channels == {} && !closed
    {
      channels, closed, registered := {}, false, {};
    }

    /** listen; `executed` is whether the statement went through. */
    method Listen(channel: string, executed: bool) returns (sql: string)
      requires Valid() && channel != ""
      modifies this
      ensures Valid() && closed == old(closed)
      ensures MeaningOf(sql) == Some(Listens(channel))
      ensures registered == if executed then old(registered) + {channel} else old(registered)
    {
      hide MeaningOf, QuoteIdent;
      sql := "LISTEN " + QuoteIdent(channel);
      MeaningOfSent(Command("LISTEN", channel));
      if executed {
        registered := Effect(MeaningOf(sql).value, registered);
        channels := channels + {channel};
      }
    }

    /** unlisten; leaving the last channel ends the listener. */
    method Unlisten(channel: string, executed: bool) returns (sql: string)
      requires Valid() && channel != ""
      modifies this
      ensures Valid() && closed == (old(closed) || (executed && registered == {}))
      ensures MeaningOf(sql) == Some(if channel == "*" then UnlistensAll else Unlistens(channel))
      ensures registered == if !executed then old(registered) else if channel == "*" then {} else old(registered) - {channel}
    {
      hide MeaningOf, QuoteIdent;
      sql := "UNLISTEN *";
      if channel != "*" {
        sql := "UNLISTEN " + QuoteIdent(channel);
      }
      MeaningOfSent(Command("UNLISTEN", channel));
      if !executed {
        return;
      }
      registered := Effect(MeaningOf(sql).value, registered);
      if channel == "*" {
        channels := {};
      } else {
        channels := channels - {channel};
      }
      if channels == {} {
        closed := true;
      }
    }
  }
}
