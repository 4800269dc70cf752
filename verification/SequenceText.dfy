/** The options of ALTER SEQUENCE, read from their text and applied to a sequence. */
module SequenceText {
  import opened Wrappers
  import opened GoStrings
  import opened SqlNames
  import opened Numbers

  datatype Settings = Settings(increment: int, minvalue: int, maxvalue: int, restart: int, cache: int, cycle: bool)

  datatype Kind = Increment | MinValue | MaxValue | Restart | Cache

  datatype Setting = Limit(kind: Kind, n: int) | Cycle(on: bool)

  function Set(s: Settings, x: Setting): Settings {
    match x
    case Limit(Increment, n) => s.(increment := n)
    case Limit(MinValue, n) => s.(minvalue := n)
    case Limit(MaxValue, n) => s.(maxvalue := n)
    case Limit(Restart, n) => s.(restart := n)
    case Limit(Cache, n) => s.(cache := n)
    case Cycle(on) => s.(cycle := on)
  }

  // ---- The reader -----------------------------------------------------------------------------

  function BlankAt(s: string): (n: nat)
    ensures n <= |s|
  {
    if s == "" || s[0] == ' ' then 0 else 1 + BlankAt(s[1..])
  }

  function ReadNumber(s: string): Option<(int, string)> {
    match Number(s[..BlankAt(s)])
    case None => None
    case Some(n) => Some((n, s[BlankAt(s)..]))
  }

  function ReadKind(s: string): Option<(Kind, string)> {
    match After("INCREMENT BY ", s)
    case Some(rest) => Some((Increment, rest))
    case None =>
      match After("MINVALUE ", s)
      case Some(rest) => Some((MinValue, rest))
      case None =>
        match After("MAXVALUE ", s)
        case Some(rest) => Some((MaxValue, rest))
        case None =>
          match After("RESTART WITH ", s)
          case Some(rest) => Some((Restart, rest))
          case None =>
            match After("CACHE ", s)
            case Some(rest) => Some((Cache, rest))
            case None => None
  }

  function ReadSetting(s: string): Option<(Setting, string)> {
    match ReadKind(s)
    case Some((kind, rest)) =>
      (match ReadNumber(rest)
       case None => None
       case Some((n, rest)) => Some((Limit(kind, n), rest)))
    case None =>
      match After("CYCLE", s)
      case Some(rest) => Some((Cycle(true), rest))
      case None =>
        match After("NO CYCLE", s)
        case Some(rest) => Some((Cycle(false), rest))
        case None => None
  }

  /** Applies the options of a text one after the other; a text that is no list of options fails. */
  function ApplyText(s: Settings, text: string): Option<Settings>
    decreases |text|
  {
    match ReadSetting(text)
    case None => None
    case Some((x, rest)) =>
      if rest == "" then Some(Set(s, x))
      else
        match After(" ", rest)
        case None => None
        case Some(more) => if |more| >= |text| then None else ApplyText(Set(s, x), more)
  }

  // ---- Reading what was printed ---------------------------------------------------------------------

  function ReadAs(x: Option<Setting>, rest: string): Option<(Setting, string)> {
    match x case None => None case Some(y) => Some((y, rest))
  }

  /** The text is read as this option, or as none, in front of a blank and at the end. */
  ghost predicate Spells(p: string, x: Option<Setting>) {
    forall rest | rest == "" || rest[0] == ' ' :: ReadSetting(p + rest) == ReadAs(x, rest)
  }

  ghost predicate AllSpell(ps: seq<string>, xs: seq<Option<Setting>>) {
    |ps| == |xs| && forall i | 0 <= i < |ps| :: Spells(ps[i], xs[i])
  }

  function Run(s: Settings, xs: seq<Option<Setting>>): Option<Settings>
    decreases |xs|
  {
    if |xs| == 0 then Some(s) else if xs[0].None? then None else Run(Set(s, xs[0].value), xs[1..])
  }

  lemma {:induction false} RunConcat(s: Settings, a: seq<Option<Setting>>, b: seq<Option<Setting>>)
    ensures Run(s, a + b) == match Run(s, a) case None => None case Some(mid) => Run(mid, b)
    decreases |a|
  {
    if |a| == 0 {
      assert a + b == b;
    } else {
      assert (a + b)[1..] == a[1..] + b;
      if a[0].Some? {
        RunConcat(Set(s, a[0].value), a[1..], b);
      }
    }
  }

  lemma RunOneOption(s: Settings, x: Option<Setting>)
    ensures Run(s, [x]) == match x case None => None case Some(y) => Some(Set(s, y))
  {
    assert [x][1..] == [];
  }

  lemma AllSpellConcat(ps: seq<string>, xs: seq<Option<Setting>>, qs: seq<string>, ys: seq<Option<Setting>>)
    requires AllSpell(ps, xs) && AllSpell(qs, ys)
    ensures AllSpell(ps + qs, xs + ys)
  {
    hide Spells;
  }

  lemma ApplyFirst(s: Settings, p: string, x: Option<Setting>, more: string)
    requires Spells(p, x)
    ensures ApplyText(s, p) == match x case None => None case Some(y) => Some(Set(s, y))
    ensures ApplyText(s, p + " " + more) == match x case None => None case Some(y) => ApplyText(Set(s, y), more)
  {
    hide ReadSetting;
    assert p + "" == p;
    assert ReadSetting(p + "") == ReadAs(x, "");
    assert p + " " + more == p + (" " + more) && (" " + more)[0] == ' ';
    AfterItself(" ", more);
    assert ReadSetting(p + (" " + more)) == ReadAs(x, " " + more);
    hide After;
  }

  /** The options printed one behind the other do what each of them says. */
  lemma {:induction false} JoinedOptionsApply(s: Settings, ps: seq<string>, xs: seq<Option<Setting>>)
    requires AllSpell(ps, xs) && |ps| > 0
    ensures ApplyText(s, Join(ps, " ")) == Run(s, xs)
    decreases |ps|
  {
    hide Spells, ApplyText, Set;
    ApplyFirst(s, ps[0], xs[0], Join(ps[1..], " "));
    if |ps| == 1 {
      assert xs[1..] == [];
    } else {
      assert AllSpell(ps[1..], xs[1..]);
      if xs[0].Some? {
        JoinedOptionsApply(Set(s, xs[0].value), ps[1..], xs[1..]);
      }
    }
  }

  // ---- The printed options --------------------------------------------------------------------------

  predicate IsOneWord(s: string) {
    forall i :: 0 <= i < |s| ==> !IsSpace(s[i])
  }

  lemma {:induction false} BlankBehind(x: string, rest: string)
    requires IsOneWord(x) && (rest == "" || rest[0] == ' ')
    ensures BlankAt(x + rest) == |x|
  {
    if x == "" {
      assert x + rest == rest;
    } else {
      assert (x + rest)[1..] == x[1..] + rest;
      BlankBehind(x[1..], rest);
    }
  }

  lemma NumberReads(x: string, rest: string)
    requires IsOneWord(x) && (rest == "" || rest[0] == ' ')
    ensures ReadNumber(x + rest) == match Number(x) case None => None case Some(n) => Some((n, rest))
  {
    BlankBehind(x, rest);
    assert (x + rest)[..|x|] == x && (x + rest)[|x|..] == rest;
    hide Number, IsOneWord;
  }

  /** The words of an option in front of a number. */
  function WordsOf(kind: Kind): string {
    match kind
    case Increment => "INCREMENT BY"
    case MinValue => "MINVALUE"
    case MaxValue => "MAXVALUE"
    case Restart => "RESTART WITH"
    case Cache => "CACHE"
  }

  lemma KindReads(kind: Kind, rest: string)
    ensures ReadKind(WordsOf(kind) + " " + rest) == Some((kind, rest))
  {
    var words := WordsOf(kind) + " ";
    AfterItself(words, rest);
    assert words + rest == WordsOf(kind) + " " + rest;
    var s := words + rest;
    match kind {
      case Increment =>
      case MinValue => assert s[0] == 'M' && s[1] == 'I';
      case MaxValue => assert s[0] == 'M' && s[1] == 'A';
      case Restart => assert s[0] == 'R';
      case Cache => assert s[0] == 'C' && s[1] == 'A';
    }
  }

  lemma LimitSpells(kind: Kind, x: string)
    requires IsOneWord(x)
    ensures Spells(WordsOf(kind) + " " + x, match Number(x) case None => None case Some(n) => Some(Limit(kind, n)))
  {
    forall rest | rest == "" || rest[0] == ' '
      ensures ReadSetting(WordsOf(kind) + " " + x + rest) == match Number(x) case None => None case Some(n) => Some((Limit(kind, n), rest))
    {
      assert WordsOf(kind) + " " + x + rest == WordsOf(kind) + " " + (x + rest);
      KindReads(kind, x + rest);
      NumberReads(x, rest);
      hide WordsOf, ReadKind, ReadNumber, Number, After;
    }
  }

  lemma NoKind(s: string)
    requires |s| >= 2 && (s[0] == 'N' || (s[0] == 'C' && s[1] == 'Y'))
    ensures ReadKind(s) == None
  {
  }

  lemma CycleSpells()
    ensures Spells("CYCLE", Some(Cycle(true)))
  {
    forall rest | rest == "" || rest[0] == ' ' ensures ReadSetting("CYCLE" + rest) == Some((Cycle(true), rest)) {
      AfterItself("CYCLE", rest);
      NoKind("CYCLE" + rest);
      hide ReadKind, ReadNumber;
    }
  }

  lemma NoCycleSpells()
    ensures Spells("NO CYCLE", Some(Cycle(false)))
  {
    forall rest | rest == "" || rest[0] == ' ' ensures ReadSetting("NO CYCLE" + rest) == Some((Cycle(false), rest)) {
      AfterItself("NO CYCLE", rest);
      assert ("NO CYCLE" + rest)[0] == 'N';
      NoKind("NO CYCLE" + rest);
      hide ReadKind, ReadNumber;
    }
  }
}
