/** Identifier and literal printers of internal/web/script.go and ddl.go. */
module SqlQuote {
  import opened GoStrings

  /** `s` with every occurrence of the quote character doubled. */
  function Doubled(s: string, q: char): string {
    ReplaceAll(s, [q], [q, q])
  }

  function QuoteIdent(s: string): string {
    "\"" + Doubled(s, '"') + "\""
  }

  function QuoteLiteral(s: string): string {
    "'" + Doubled(s, '\'') + "'"
  }

  /** strings.Count(s, `"`) */
  function QuoteCount(s: string): nat {
    if s == "" then 0 else (if s[0] == '"' then 1 else 0) + QuoteCount(s[1..])
  }

  /** The pattern ^[a-z_][a-z0-9_]*$ */
  predicate IsSafeIdent(s: string) {
    && s != ""
    && (forall i :: 0 <= i < |s| ==> 'a' <= s[i] <= 'z' || s[i] == '_' || (i > 0 && '0' <= s[i] <= '9'))
  }

  function QuoteIfNeeded(s: string): string {
    if IsSafeIdent(s) then s else QuoteIdent(s)
  }

  function QualIdent(schema: string, table: string): string {
    QuoteIfNeeded(schema) + "." + QuoteIfNeeded(table)
  }

  /** One step of the left-to-right scan of ReplaceAll over a doubled text. */
  lemma DoubledCons(s: string, q: char)
    requires s != ""
    ensures Doubled(s, q) == (if s[0] == q then [q, q] else [s[0]]) + Doubled(s[1..], q)
  {
    assert s[..1] == [s[0]];
  }

  /** A name stays as it is exactly if it is made of small letters, underscores and, but for the first
  character, digits; otherwise it is quoted. */
  lemma PlainNamesStay(s: string)
    ensures QuoteIfNeeded(s) == s <==>
              && s != "" && ('a' <= s[0] <= 'z' || s[0] == '_')
              && forall i :: 1 <= i < |s| ==> 'a' <= s[i] <= 'z' || s[i] == '_' || '0' <= s[i] <= '9'
    ensures QuoteIfNeeded(s) == s || QuoteIfNeeded(s) == QuoteIdent(s)
  {
    hide Doubled;
    assert QuoteIdent(s) != s by { QuotedIsLonger(s); }
  }

  lemma {:induction false} DoubledIsNoShorter(s: string, q: char)
    ensures |Doubled(s, q)| >= |s|
  {
    if s != "" {
      DoubledCons(s, q);
      DoubledIsNoShorter(s[1..], q);
    }
  }

  lemma QuotedIsLonger(s: string)
    ensures |QuoteIdent(s)| >= |s| + 2
  {
    DoubledIsNoShorter(s, '"');
    hide Doubled;
  }
}
