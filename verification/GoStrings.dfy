/** The few functions of Go's `strings` package that the modelled code calls.

A string is a sequence of characters.  Where the code works on bytes, a byte is
a character below 256. */
module GoStrings {

  /** unicode.IsSpace */
  predicate IsSpace(c: char) {
    || c == ' ' || '\t' <= c <= '\r' || c == '\U{85}' || c == '\U{A0}'
    || c == '\U{1680}' || '\U{2000}' <= c <= '\U{200A}' || c == '\U{2028}' || c == '\U{2029}'
    || c == '\U{202F}' || c == '\U{205F}' || c == '\U{3000}'
  }

  predicate AllSpace(s: string) {
    forall i :: 0 <= i < |s| ==> IsSpace(s[i])
  }

  predicate IsAscii(s: string) {
    forall i :: 0 <= i < |s| ==> s[i] < '\U{80}'
  }

  predicate AllAscii(texts: seq<string>) {
    forall i :: 0 <= i < |texts| ==> IsAscii(texts[i])
  }

  /** True of a non-empty string with no blank at either end. */
  predicate IsTrimmed(s: string) {
    s != "" && !IsSpace(s[0]) && !IsSpace(s[|s| - 1])
  }

  function TrimLeft(s: string): string {
    if s != "" && IsSpace(s[0]) then TrimLeft(s[1..]) else s
  }

  function TrimRight(s: string): string {
    if s != "" && IsSpace(s[|s| - 1]) then TrimRight(s[..|s| - 1]) else s
  }

  /** strings.TrimSpace */
  function Trim(s: string): string {
    TrimRight(TrimLeft(s))
  }

  /** The blanks that Trim removes in front ... */
  function Leading(s: string): string {
    if s != "" && IsSpace(s[0]) then [s[0]] + Leading(s[1..]) else ""
  }

  /** ... and behind, once the front is gone. */
  function Trailing(s: string): string {
    if s != "" && IsSpace(s[|s| - 1]) then Trailing(s[..|s| - 1]) + [s[|s| - 1]] else ""
  }

  lemma {:induction false} LeadingSplits(s: string)
    ensures AllSpace(Leading(s)) && Leading(s) + TrimLeft(s) == s
    ensures TrimLeft(s) != "" ==> !IsSpace(TrimLeft(s)[0])
  {
    if s != "" && IsSpace(s[0]) {
      LeadingSplits(s[1..]);
    }
  }

  lemma {:induction false} TrailingSplits(s: string)
    ensures AllSpace(Trailing(s)) && TrimRight(s) + Trailing(s) == s
    ensures TrimRight(s) != "" ==> !IsSpace(TrimRight(s)[|TrimRight(s)| - 1])
  {
    if s != "" && IsSpace(s[|s| - 1]) {
      TrailingSplits(s[..|s| - 1]);
      assert s == s[..|s| - 1] + [s[|s| - 1]];
    }
  }

  /** Trim removes blanks at the two ends and nothing else. */
  lemma TrimParts(s: string)
    ensures AllSpace(Leading(s)) && AllSpace(Trailing(TrimLeft(s)))
    ensures Leading(s) + Trim(s) + Trailing(TrimLeft(s)) == s
    ensures Trim(s) != "" ==> IsTrimmed(Trim(s))
  {
    LeadingSplits(s);
    TrailingSplits(TrimLeft(s));
    assert Leading(s) + Trim(s) + Trailing(TrimLeft(s)) == Leading(s) + (Trim(s) + Trailing(TrimLeft(s)));
  }

  /** Surrounding blanks do not matter to Trim. */
  lemma {:induction false} TrimOfTrimmed(t: string)
    requires t == "" || IsTrimmed(t)
    ensures Trim(t) == t
  {
  }

  /** strings.ReplaceAll for a non-empty pattern: left to right, no overlap. */
  function ReplaceAll(s: string, pattern: string, replacement: string): string
    requires pattern != ""
    decreases |s|
  {
    if |s| < |pattern| then s
    else if s[..|pattern|] == pattern then replacement + ReplaceAll(s[|pattern|..], pattern, replacement)
    else [s[0]] + ReplaceAll(s[1..], pattern, replacement)
  }

  /** strings.Join */
  function Join(parts: seq<string>, sep: string): string {
    if |parts| == 0 then ""
    else if |parts| == 1 then parts[0]
    else parts[0] + sep + Join(parts[1..], sep)
  }
}
