/** Reading names back from SQL text, the way PostgreSQL reads what the printers print:
quoted text is taken literally but must not be empty, an unquoted one extends over the
characters that need no quotes and is no reserved word, unless a dot stands before it. */
module SqlNames {
  import opened Wrappers
  import opened SqlQuote

  /** The rest of a text quoted with `q`, and what follows it. */
  function ReadQuoted(s: string, q: char): Option<(string, string)> {
    if s == "" then None
    else if s[0] == q then
      if |s| > 1 && s[1] == q then
        match ReadQuoted(s[2..], q)
        case None => None
        case Some((x, rest)) => Some(([q] + x, rest))
      else Some(("", s[1..]))
    else
      match ReadQuoted(s[1..], q)
      case None => None
      case Some((x, rest)) => Some(([s[0]] + x, rest))
  }

  predicate IsIdentChar(c: char) {
    'a' <= c <= 'z' || '0' <= c <= '9' || c == '_'
  }

  function IdentLength(s: string): (n: nat)
    ensures n <= |s|
  {
    if s != "" && IsIdentChar(s[0]) then 1 + IdentLength(s[1..]) else 0
  }

  function ReadIdent(s: string): Option<(string, string)> {
    if s != "" && s[0] == '"' then
      match ReadQuoted(s[1..], '"')
      case None => None
      case Some((x, rest)) => if x == "" then None else Some((x, rest))
    else if IsSafeIdent(s[..IdentLength(s)]) then Some((s[..IdentLength(s)], s[IdentLength(s)..]))
    else None
  }

  /** The words that appendix C of the PostgreSQL documentation lists as reserved, those that
  can be function or type names among them. */
  const RESERVED: seq<string> := [
    "all", "analyse", "analyze", "and", "any", "array", "as", "asc", "asymmetric", "authorization",
    "binary", "both", "case", "cast", "check", "collate", "collation", "column", "concurrently",
    "constraint", "create", "cross", "current_catalog", "current_date", "current_role", "current_schema",
    "current_time", "current_timestamp", "current_user", "default", "deferrable", "desc", "distinct", "do",
    "else", "end", "except", "false", "fetch", "for", "foreign", "freeze", "from", "full", "grant",
    "group", "having", "ilike", "in", "initially", "inner", "intersect", "into", "is", "isnull", "join",
    "lateral", "leading", "left", "like", "limit", "localtime", "localtimestamp", "natural", "not",
    "notnull", "null", "offset", "on", "only", "or", "order", "outer", "overlaps", "placing", "primary",
    "references", "returning", "right", "select", "session_user", "similar", "some", "symmetric",
    "system_user", "table", "tablesample", "then", "to", "trailing", "true", "union", "unique", "user",
    "using", "variadic", "verbose", "when", "where", "window", "with"
  ]

  predicate IsReserved(s: string) {
    IsSafeIdent(s) && s in RESERVED
  }

  /** A name that quoteIfNeeded can print where no dot stands before it. */
  predicate CanLead(s: string) {
    s != "" && !IsReserved(s)
  }

  /** The role names that PostgreSQL keeps for itself. */
  predicate IsReservedRole(s: string) {
    s == "public" || s == "none" || "pg_" <= s
  }

  /** A name in front: an unquoted reserved word is none. */
  function ReadLead(s: string): Option<(string, string)> {
    match ReadIdent(s)
    case None => None
    case Some((x, rest)) => if s[0] != '"' && IsReserved(x) then None else Some((x, rest))
  }

  /** A name with its schema in front. */
  function ReadQual(s: string): Option<((string, string), string)> {
    match ReadLead(s)
    case None => None
    case Some((schema, rest)) =>
      if rest == "" || rest[0] != '.' then None
      else
        match ReadIdent(rest[1..])
        case None => None
        case Some((name, rest)) => Some(((schema, name), rest))
  }

  /** Text that cannot be taken for a continuation of the identifier before it. */
  predicate StopsIdent(rest: string) {
    rest == "" || (rest[0] != '"' && !IsIdentChar(rest[0]))
  }

  lemma {:induction false} ReadQuotedOf(x: string, q: char, rest: string)
    requires rest == "" || rest[0] != q
    ensures ReadQuoted(Doubled(x, q) + [q] + rest, q) == Some((x, rest))
  {
    var s := Doubled(x, q) + [q] + rest;
    if x == "" {
      assert Doubled(x, q) == "";
      assert s == [q] + rest && s[1..] == rest;
    } else {
      DoubledCons(x, q);
      var t := Doubled(x[1..], q) + [q] + rest;
      ReadQuotedOf(x[1..], q, rest);
      if x[0] == q {
        assert s == [q, q] + t;
        assert s[2..] == t;
      } else {
        assert s == [x[0]] + t;
        assert s[1..] == t;
      }
      assert [x[0]] + x[1..] == x;
    }
  }

  /** A string literal, and what follows it. */
  function ReadLiteral(s: string): Option<(string, string)> {
    if s != "" && s[0] == '\'' then ReadQuoted(s[1..], '\'') else None
  }

  /** A printed literal reads back as the text it was printed from, for every text. */
  lemma ReadQuoteLiteral(x: string, rest: string)
    requires rest == "" || rest[0] != '\''
    ensures ReadLiteral(QuoteLiteral(x) + rest) == Some((x, rest))
  {
    ReadQuotedOf(x, '\'', rest);
    assert (QuoteLiteral(x) + rest)[1..] == Doubled(x, '\'') + ['\''] + rest;
  }

  /** Whatever the name, the quoted form reads back as that name, unless it is empty. */
  lemma ReadQuoteIdent(x: string, rest: string)
    requires StopsIdent(rest)
    ensures ReadIdent(QuoteIdent(x) + rest) == if x == "" then None else Some((x, rest))
  {
    ReadQuotedOf(x, '"', rest);
    assert (QuoteIdent(x) + rest)[1..] == Doubled(x, '"') + ['"'] + rest;
  }

  lemma {:induction false} IdentLengthOf(x: string, rest: string)
    requires (forall i :: 0 <= i < |x| ==> IsIdentChar(x[i])) && StopsIdent(rest)
    ensures IdentLength(x + rest) == |x|
  {
    if x == "" {
      assert x + rest == rest;
    } else {
      assert (x + rest)[1..] == x[1..] + rest;
      IdentLengthOf(x[1..], rest);
    }
  }

  /** The form quoted only if needed reads back as the name unless it is empty; in front of a
  qualified name that is so exactly if the name is neither empty nor reserved. */
  lemma ReadQuoteIfNeeded(x: string, rest: string)
    requires StopsIdent(rest)
    ensures ReadIdent(QuoteIfNeeded(x) + rest) == if x == "" then None else Some((x, rest))
    ensures ReadLead(QuoteIfNeeded(x) + rest) == if CanLead(x) then Some((x, rest)) else None
  {
    if IsSafeIdent(x) {
      IdentLengthOf(x, rest);
      assert (x + rest)[..|x|] == x && (x + rest)[|x|..] == rest;
      assert (x + rest)[0] == x[0];
    } else {
      ReadQuoteIdent(x, rest);
      assert (QuoteIdent(x) + rest)[0] == '"';
    }
  }

  lemma ConcatRight(a: string, b: string, c: string, d: string)
    ensures a + b + c + d == a + (b + (c + d))
  {
  }

  /** A qualified name reads back as itself exactly if its schema is neither empty nor reserved
  and its name is not empty. */
  lemma ReadQualIdent(schema: string, name: string, rest: string)
    requires StopsIdent(rest)
    ensures ReadQual(QualIdent(schema, name) + rest) == if CanLead(schema) && name != "" then Some(((schema, name), rest)) else None
  {
    hide ReadIdent, ReadLead, QuoteIfNeeded, CanLead;
    var tail := QuoteIfNeeded(name) + rest;
    ConcatRight(QuoteIfNeeded(schema), ".", QuoteIfNeeded(name), rest);
    ReadQuoteIfNeeded(schema, "." + tail);
    ReadQuoteIfNeeded(name, rest);
    assert ("." + tail)[1..] == tail;
  }

  lemma ReservedWordCannotLead()
    ensures IsSafeIdent("user") && !CanLead("user")
  {
    assert RESERVED[93] == "user";
  }

  // ---- Words -------------------------------------------------------------------------------

  /** What follows `words`, if the text begins with them. */
  function After(words: string, s: string): Option<string> {
    if words <= s then Some(s[|words|..]) else None
  }

  lemma AfterItself(words: string, rest: string)
    ensures After(words, words + rest) == Some(rest)
  {
  }

  predicate IsUpper(c: char) {
    'A' <= c <= 'Z'
  }

  predicate IsWord(w: string) {
    w != "" && forall i :: 0 <= i < |w| ==> IsUpper(w[i])
  }

  /** The length of the word in front. */
  function WordLength(s: string): (n: nat)
    ensures n <= |s|
  {
    if s != "" && IsUpper(s[0]) then 1 + WordLength(s[1..]) else 0
  }

  lemma {:induction false} WordLengthOf(w: string, rest: string)
    requires (w == "" || IsWord(w)) && (rest == "" || !IsUpper(rest[0]))
    ensures WordLength(w + rest) == |w|
  {
    if w == "" {
      assert w + rest == rest;
    } else {
      assert (w + rest)[1..] == w[1..] + rest;
      WordLengthOf(w[1..], rest);
    }
  }

  lemma WordReadsBack(w: string, rest: string)
    requires IsWord(w) && (rest == "" || !IsUpper(rest[0]))
    ensures WordLength(w + rest) == |w| && (w + rest)[..|w|] == w && (w + rest)[|w|..] == rest
  {
    WordLengthOf(w, rest);
  }

  /** A whole identifier. */
  function ReadName(s: string): Option<string> {
    match ReadIdent(s)
    case None => None
    case Some((x, rest)) => if rest == "" then Some(x) else None
  }

  /** Two identifiers with a word between them. */
  function ReadPair(words: string, s: string): Option<(string, string)> {
    match ReadIdent(s)
    case None => None
    case Some((a, rest)) =>
      match After(words, rest)
      case None => None
      case Some(rest) =>
        match ReadName(rest)
        case None => None
        case Some(b) => Some((a, b))
  }

  lemma PairReadsBack(words: string, a: string, b: string)
    requires StopsIdent(words) && words != ""
    ensures ReadPair(words, QuoteIdent(a) + words + QuoteIdent(b)) == if a == "" || b == "" then None else Some((a, b))
  {
    hide ReadIdent, QuoteIdent;
    ReadQuoteIdent(a, words + QuoteIdent(b));
    ReadQuoteIdent(b, "");
    assert QuoteIdent(b) + "" == QuoteIdent(b);
    assert QuoteIdent(a) + words + QuoteIdent(b) == QuoteIdent(a) + (words + QuoteIdent(b));
    AfterItself(words, QuoteIdent(b));
    hide After;
  }
}
