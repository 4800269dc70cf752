/** Go's strconv.Atoi and strconv.Itoa on a 64-bit platform. */
module Numbers {
  import opened Wrappers

  function DigitValue(c: char): int
    requires '0' <= c <= '9'
  {
    c as int - '0' as int
  }

  predicate IsDigits(s: string) {
    s != "" && forall i :: 0 <= i < |s| ==> '0' <= s[i] <= '9'
  }

  function DigitsValue(s: string): (n: int)
    requires s == "" || IsDigits(s)
    ensures n >= 0
  {
    if s == "" then 0
    else 10 * DigitsValue(s[..|s| - 1]) + DigitValue(s[|s| - 1])
  }

  const MAX_INT := 0x7fff_ffff_ffff_ffff

  /** The number that a text with an optional sign spells. */
  function Number(s: string): Option<int> {
    var signed := s != "" && (s[0] == '+' || s[0] == '-');
    var digits := if signed then s[1..] else s;
    if !IsDigits(digits) then None
    else Some(if signed && s[0] == '-' then -DigitsValue(digits) else DigitsValue(digits))
  }

  /** strconv.Atoi */
  function Atoi(s: string): Option<int> {
    match Number(s)
    case None => None
    case Some(n) => if -MAX_INT - 1 <= n <= MAX_INT then Some(n) else None
  }

  /** The number Atoi returns beside its error: 0 for text that is no number, the nearest
  integer for one out of range. */
  function AtoiOrNearest(s: string): int {
    match Number(s)
    case None => 0
    case Some(n) => if n > MAX_INT then MAX_INT else if n < -MAX_INT - 1 then -MAX_INT - 1 else n
  }

  function Digits(n: nat): (s: string)
    ensures IsDigits(s)
  {
    var last := ['0' + (n % 10) as char];
    if n < 10 then last else Digits(n / 10) + last
  }

  /** strconv.Itoa */
  function Itoa(n: int): string {
    if n < 0 then "-" + Digits(-n) else Digits(n)
  }

  lemma {:induction false} DigitsReadBack(n: nat)
    ensures DigitsValue(Digits(n)) == n
  {
    var last := ['0' + (n % 10) as char];
    if n < 10 {
      assert last[..0] == "";
    } else {
      DigitsReadBack(n / 10);
      assert (Digits(n / 10) + last)[..|Digits(n / 10)|] == Digits(n / 10);
    }
  }

  /** The printed limit is the number that was read. */
  lemma ItoaReadsBack(n: int)
    requires -MAX_INT - 1 <= n <= MAX_INT
    ensures Atoi(Itoa(n)) == Some(n)
  {
    DigitsReadBack(if n < 0 then -n else n);
  }

  /** So is a printed count, up to the largest integer. */
  lemma CountReadsBack(n: nat)
    ensures AtoiOrNearest(Itoa(n)) == if n > MAX_INT then MAX_INT else n
  {
    DigitsReadBack(n);
    var s := Itoa(n);
    assert '0' <= s[0] <= '9';
  }

  // ---- Which texts are numbers ----------------------------------------------------------------

  /** A number is digits, at least one, with at most a sign in front. */
  lemma NumbersAreNumerals(s: string)
    ensures Number(s).Some? <==>
              && s != "" && (forall i :: 1 <= i < |s| ==> '0' <= s[i] <= '9')
              && ('0' <= s[0] <= '9' || (|s| >= 2 && (s[0] == '+' || s[0] == '-')))
  {
    hide DigitsValue;
    if s != "" && (s[0] == '+' || s[0] == '-') {
      assert forall i | 0 <= i < |s| - 1 :: s[1..][i] == s[i + 1];
      assert forall i | 1 <= i < |s| :: s[i] == s[1..][i - 1];
    }
  }

  lemma {:induction false} LeadingZero(d: string)
    requires IsDigits(d)
    ensures DigitsValue("0" + d) == DigitsValue(d)
  {
    var s := "0" + d;
    assert s[|s| - 1] == d[|d| - 1] && s[..|s| - 1] == "0" + d[..|d| - 1];
    if |d| > 1 {
      LeadingZero(d[..|d| - 1]);
    } else {
      assert "0"[..0] == "" && d[..0] == "" && s[..1] == "0";
    }
  }

  /** A plus and leading zeros do not matter, a minus negates. */
  lemma SignsAndZeros(d: string)
    requires IsDigits(d)
    ensures Number(d).Some? && Number("+" + d) == Number(d) && Number("-" + d) == Some(-Number(d).value) && Number("0" + d) == Number(d)
  {
    assert ("+" + d)[1..] == d && ("-" + d)[1..] == d;
    LeadingZero(d);
    hide DigitsValue;
  }

  /** Atoi reads the numbers of 64 bits; beside its error stands the nearest of them, or 0. */
  lemma AtoiReadsInt64(s: string)
    ensures Atoi(s).Some? <==> Number(s).Some? && -9223372036854775808 <= Number(s).value <= 9223372036854775807
    ensures Atoi(s).Some? ==> Atoi(s) == Number(s) && AtoiOrNearest(s) == Number(s).value
    ensures Number(s).None? ==> AtoiOrNearest(s) == 0
    ensures Number(s).Some? && Number(s).value > 9223372036854775807 ==> AtoiOrNearest(s) == 9223372036854775807
    ensures Number(s).Some? && Number(s).value < -9223372036854775808 ==> AtoiOrNearest(s) == -9223372036854775808
  {
    hide Number;
  }
}
