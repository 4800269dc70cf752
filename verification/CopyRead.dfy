/** COPY statements read back from their text. */
module CopyRead {
  import opened Wrappers
  import opened GoStrings
  import opened SqlQuote
  import opened SqlNames
  import opened SplitStatements
  import opened Lists
  import opened AlterObject
  import opened CopySql

  // ---- The reader ---------------------------------------------------------------------------

  /** A literal: quoted text, or the escape for a tab. */
  function ReadValue(s: string): Option<(string, string)> {
    match After("E'\\t'", s)
    case Some(rest) => Some(("\t", rest))
    case None =>
      if s != "" && s[0] == '\'' then ReadLiteral(s)
      else if IdentLength(s) > 0 then Some((s[..IdentLength(s)], s[IdentLength(s)..]))
      else None
  }

  /** Options up to the closing parenthesis, each a word and a value, none given twice. */
  function ReadOptions(s: string): Option<(map<string, string>, string)>
    decreases |s|
  {
    var n := WordLength(s);
    match After(" ", s[n..])
    case None => None
    case Some(rest) =>
      match ReadValue(rest)
      case None => None
      case Some((value, rest)) =>
        if rest != "" && rest[0] == ')' then Some((map[s[..n] := value], rest[1..]))
        else
          match After(", ", rest)
          case None => None
          case Some(more) =>
            if |more| >= |s| then None
            else
              match ReadOptions(more)
              case None => None
              case Some((opts, rest)) => if s[..n] in opts then None else Some((opts[s[..n] := value], rest))
  }

  /** Names with commas between them, up to the closing parenthesis. */
  function ReadColumns(s: string): Option<(seq<string>, string)>
    decreases |s|
  {
    match ReadIdent(s)
    case None => None
    case Some((x, rest)) =>
      if rest != "" && rest[0] == ')' then Some(([x], rest[1..]))
      else
        match After(", ", rest)
        case None => None
        case Some(more) =>
          if |more| >= |s| then None
          else match ReadColumns(more) case None => None case Some((xs, rest)) => Some(([x] + xs, rest))
  }

  /** A COPY statement: without a column list all columns are meant. */
  datatype Copy = Copy(toStdout: bool, schema: string, table: string, columns: seq<string>, options: map<string, string>)

  function ReadDirection(s: string): Option<(bool, string)> {
    match After(" TO STDOUT WITH (", s)
    case Some(rest) => Some((true, rest))
    case None => match After(" FROM STDIN WITH (", s) case Some(rest) => Some((false, rest)) case None => None
  }

  function ReadColumnList(s: string): Option<(seq<string>, string)> {
    match After(" (", s)
    case None => Some(([], s))
    case Some(rest) => ReadColumns(rest)
  }

  function ReadCopy(s: string): Option<Copy> {
    match After("COPY ", s)
    case None => None
    case Some(rest) =>
      match ReadQual(rest)
      case None => None
      case Some(((schema, table), rest)) =>
        match ReadColumnList(rest)
        case None => None
        case Some((columns, rest)) =>
          match ReadDirection(rest)
          case None => None
          case Some((toStdout, rest)) =>
            match ReadOptions(rest)
            case None => None
            case Some((options, rest)) => if rest == "" then Some(Copy(toStdout, schema, table, columns, options)) else None
  }

  // ---- What the form asks for ---------------------------------------------------------------------

  function Typed(v: Form, field: string): string {
    if field in v then v[field] else ""
  }

  function FormatWanted(v: Form): string {
    if Typed(v, "format") == "" then "csv" else Typed(v, "format")
  }

  /** The character a one-character field stands for. */
  function CharMeant(s: string): string {
    if s == "tab" || s == "\\t" then "\t" else s
  }

  function Given(s: string): Option<string> {
    if s == "" then None else Some(s)
  }

  function GivenChar(s: string): Option<string> {
    if s == "" then None else Some(CharMeant(s))
  }

  /** The value of an option, by the field of its own name; what the format has no use for is left out. */
  function OptionWanted(v: Form, word: string): Option<string> {
    var format := FormatWanted(v);
    match word
    case "FORMAT" => Some(format)
    case "HEADER" => if format == "csv" && Typed(v, "header") == "on" then Some("true") else None
    case "DELIMITER" => if format != "binary" then GivenChar(Typed(v, "delimiter")) else None
    case "NULL" => if format != "binary" then Given(Typed(v, "null")) else None
    case "QUOTE" => if format == "csv" then GivenChar(Typed(v, "quote")) else None
    case "ESCAPE" => if format == "csv" then GivenChar(Typed(v, "escape")) else None
    case "ENCODING" => Given(Typed(v, "encoding"))
    case _ => None
  }

  const OPTION_WORDS := {"FORMAT", "HEADER", "DELIMITER", "NULL", "QUOTE", "ESCAPE", "ENCODING"}

  function OptionsWanted(v: Form): map<string, string> {
    map w | w in OPTION_WORDS && OptionWanted(v, w).Some? :: OptionWanted(v, w).value
  }

  // ---- Options read back ---------------------------------------------------------------------------

  /** An option as it is printed and as it is read. */
  datatype Printed = Printed(word: string, text: string, value: string)

  /** The value is read as itself in front of a comma or the closing parenthesis. */
  ghost predicate Reads(p: Printed) {
    && IsWord(p.word)
    && forall rest | rest != "" && (rest[0] == ',' || rest[0] == ')') :: ReadValue(p.text + rest) == Some((p.value, rest))
  }

  function Texts(ps: seq<Printed>): (r: seq<string>)
    ensures |r| == |ps|
  {
    if |ps| == 0 then [] else [ps[0].word + " " + ps[0].text] + Texts(ps[1..])
  }

  function MapOf(ps: seq<Printed>): map<string, string> {
    if |ps| == 0 then map[] else MapOf(ps[1..])[ps[0].word := ps[0].value]
  }

  predicate NotRepeated(ps: seq<Printed>) {
    |ps| == 0 || (ps[0].word !in MapOf(ps[1..]) && NotRepeated(ps[1..]))
  }

  lemma WordThenValue(p: Printed, rest: string)
    requires Reads(p) && rest != "" && (rest[0] == ',' || rest[0] == ')')
    ensures var s := p.word + " " + p.text + rest;
            && WordLength(s) == |p.word| && s[..|p.word|] == p.word
            && After(" ", s[|p.word|..]) == Some(p.text + rest) && ReadValue(p.text + rest) == Some((p.value, rest))
  {
    hide ReadValue, WordLength, After, IsWord;
    ConcatRight(p.word, " ", p.text, rest);
    WordReadsBack(p.word, " " + (p.text + rest));
    AfterItself(" ", p.text + rest);
  }

  lemma ReadOneOption(p: Printed, rest: string)
    requires Reads(p)
    ensures ReadOptions(p.word + " " + p.text + (")" + rest)) == Some((map[p.word := p.value], rest))
  {
    hide Reads, ReadValue, WordLength, After;
    WordThenValue(p, ")" + rest);
    assert (")" + rest)[1..] == rest;
  }

  lemma ReadOptionMore(p: Printed, more: string, opts: map<string, string>, rest: string)
    requires Reads(p) && ReadOptions(more) == Some((opts, rest)) && p.word !in opts
    ensures ReadOptions(p.word + " " + p.text + (", " + more)) == Some((opts[p.word := p.value], rest))
  {
    hide Reads, ReadValue, WordLength;
    WordThenValue(p, ", " + more);
    AfterItself(", ", more);
    assert (", " + more)[0] == ',';
    hide After;
  }

  lemma {:induction false} OptionsReadBack(ps: seq<Printed>, rest: string)
    requires |ps| > 0 && NotRepeated(ps) && forall i | 0 <= i < |ps| :: Reads(ps[i])
    ensures ReadOptions(Join(Texts(ps), ", ") + (")" + rest)) == Some((MapOf(ps), rest))
    decreases |ps|
  {
    var p := ps[0];
    hide ReadOptions, Reads;
    if |ps| == 1 {
      assert ps[1..] == [];
      ReadOneOption(p, rest);
    } else {
      var more := Join(Texts(ps[1..]), ", ");
      assert Reads(p) && forall i | 0 <= i < |ps| - 1 :: ps[1..][i] == ps[i + 1];
      OptionsReadBack(ps[1..], rest);
      ConcatRight(p.word + " " + p.text, ", ", more, ")" + rest);
      assert Texts(ps)[1..] == Texts(ps[1..]);
      ReadOptionMore(p, more + (")" + rest), MapOf(ps[1..]), rest);
    }
  }

  // ---- The printed options --------------------------------------------------------------------------

  lemma LiteralReads(word: string, x: string)
    requires IsWord(word)
    ensures Reads(Printed(word, QuoteLiteral(x), x))
  {
    forall rest | rest != "" && (rest[0] == ',' || rest[0] == ')') ensures ReadValue(QuoteLiteral(x) + rest) == Some((x, rest)) {
      ReadQuoteLiteral(x, rest);
      assert (QuoteLiteral(x) + rest)[0] == '\'';
      hide ReadLiteral, QuoteLiteral;
    }
  }

  lemma TabReads(word: string)
    requires IsWord(word)
    ensures Reads(Printed(word, "E'\\t'", "\t"))
  {
    forall rest | rest != "" && (rest[0] == ',' || rest[0] == ')') ensures ReadValue("E'\\t'" + rest) == Some(("\t", rest)) {
      AfterItself("E'\\t'", rest);
      hide After;
    }
  }

  lemma PlainReads(word: string, x: string)
    requires IsWord(word) && x != "" && forall i :: 0 <= i < |x| ==> IsIdentChar(x[i])
    ensures Reads(Printed(word, x, x))
  {
    forall rest | rest != "" && (rest[0] == ',' || rest[0] == ')') ensures ReadValue(x + rest) == Some((x, rest)) {
      var s := x + rest;
      assert s[0] == x[0];
      IdentLengthOf(x, rest);
      assert s[..|x|] == x && s[|x|..] == rest;
      hide IdentLength;
    }
  }

  /** An option that is printed if there is a value for it. */
  datatype Slot = Slot(word: string, text: string, value: Option<string>)

  function Chosen(slots: seq<Slot>): seq<Printed> {
    if |slots| == 0 then []
    else (if slots[0].value.None? then [] else [Printed(slots[0].word, slots[0].text, slots[0].value.value)]) + Chosen(slots[1..])
  }

  function CharText(s: string): string {
    if s == "tab" || s == "\\t" then "E'\\t'" else QuoteLiteral(s)
  }

  /** The options of an accepted form as the statement has them. */
  function Slots(v: Form): (slots: seq<Slot>)
    ensures |slots| == 7
  {
    [Slot("FORMAT", FormatWanted(v), OptionWanted(v, "FORMAT")),
     Slot("HEADER", "true", OptionWanted(v, "HEADER")),
     Slot("DELIMITER", CharText(Typed(v, "delimiter")), OptionWanted(v, "DELIMITER")),
     Slot("NULL", QuoteLiteral(Typed(v, "null")), OptionWanted(v, "NULL")),
     Slot("QUOTE", CharText(Typed(v, "quote")), OptionWanted(v, "QUOTE")),
     Slot("ESCAPE", CharText(Typed(v, "escape")), OptionWanted(v, "ESCAPE")),
     Slot("ENCODING", QuoteLiteral(Typed(v, "encoding")), OptionWanted(v, "ENCODING"))]
  }

  function SlotText(slot: Slot): seq<string> {
    if slot.value.None? then [] else [slot.word + " " + slot.text]
  }

  function SlotTexts(slots: seq<Slot>): seq<string> {
    if |slots| == 0 then [] else SlotText(slots[0]) + SlotTexts(slots[1..])
  }

  lemma {:induction false} ChosenTexts(slots: seq<Slot>)
    ensures Texts(Chosen(slots)) == SlotTexts(slots)
  {
    if |slots| > 0 {
      ChosenTexts(slots[1..]);
      if slots[0].value.Some? {
        assert Chosen(slots)[1..] == Chosen(slots[1..]);
      } else {
        assert [] + Chosen(slots[1..]) == Chosen(slots[1..]);
      }
    }
  }

  lemma CharOptionPrints(opt: string, tag: string, value: string, allowed: bool)
    requires CharOption(opt, tag, value, allowed).Ok?
    ensures CharOption(opt, tag, value, allowed).value == SlotText(Slot(opt, CharText(value), if allowed then GivenChar(value) else None))
  {
  }

  lemma FixedTexts(v: Form)
    requires EncodingOption(v).Ok?
    ensures var f := FormatWanted(v);
            && FormatOf(v) == f
            && SlotText(Slots(v)[0]) == ["FORMAT " + f] && SlotText(Slots(v)[1]) == HeaderOption(v, f)
            && SlotText(Slots(v)[3]) == NullOption(v, f) && SlotText(Slots(v)[6]) == EncodingOption(v).value
  {
    hide QuoteLiteral, IsEncodingName, CharText;
    assert "FORMAT" + " " == "FORMAT " && "HEADER" + " " + "true" == "HEADER true" && "NULL" + " " == "NULL " && "ENCODING" + " " == "ENCODING ";
  }

  lemma CharTexts(v: Form)
    requires CopyOptions(v, FormatOf(v)).Ok?
    ensures var f := FormatWanted(v);
            && CharOption("DELIMITER", "Delimiter", Value(v, "delimiter"), f != "binary") == Ok(SlotText(Slots(v)[2]))
            && CharOption("QUOTE", "Quote", Value(v, "quote"), f == "csv") == Ok(SlotText(Slots(v)[4]))
            && CharOption("ESCAPE", "Escape", Value(v, "escape"), f == "csv") == Ok(SlotText(Slots(v)[5]))
  {
    var f := FormatWanted(v);
    assert FormatOf(v) == f;
    hide CharText, QuoteLiteral, EncodingOption, HeaderOption, NullOption, FormatOf, CharOption, SlotText, GivenChar;
    CharOptionPrints("DELIMITER", "Delimiter", Value(v, "delimiter"), f != "binary");
    CharOptionPrints("QUOTE", "Quote", Value(v, "quote"), f == "csv");
    CharOptionPrints("ESCAPE", "Escape", Value(v, "escape"), f == "csv");
  }

  lemma TextsOfSeven(s: seq<Slot>)
    requires |s| == 7
    ensures SlotTexts(s) == SlotText(s[0]) + SlotText(s[1]) + SlotText(s[2]) + SlotText(s[3]) + SlotText(s[4]) + SlotText(s[5]) + SlotText(s[6])
  {
    hide SlotText;
    var a, b, c, d, e, g, h := SlotText(s[0]), SlotText(s[1]), SlotText(s[2]), SlotText(s[3]), SlotText(s[4]), SlotText(s[5]), SlotText(s[6]);
    assert SlotTexts(s[7..]) == [];
    TextsBehind(s, 6);
    TextsBehind(s, 5);
    TextsBehind(s, 4);
    TextsBehind(s, 3);
    TextsBehind(s, 2);
    TextsBehind(s, 1);
    TextsBehind(s, 0);
    assert s[0..] == s;
    hide SlotTexts;
    assert a + (b + (c + (d + (e + (g + (h + [])))))) == a + b + c + d + e + g + h;
  }

  lemma TextsBehind(s: seq<Slot>, k: nat)
    requires k < |s|
    ensures SlotTexts(s[k..]) == SlotText(s[k]) + SlotTexts(s[k + 1..])
  {
    assert s[k..][1..] == s[k + 1..];
  }

  /** What the builder prints is this list. */
  lemma OptionsArePrinted(v: Form)
    requires CopyOptions(v, FormatOf(v)).Ok?
    ensures CopyOptions(v, FormatOf(v)).value == Texts(Chosen(Slots(v)))
  {
    CharTexts(v);
    FixedTexts(v);
    ChosenTexts(Slots(v));
    TextsOfSeven(Slots(v));
    hide CharOption, SlotText, HeaderOption, NullOption, EncodingOption, FormatOf, FormatWanted, Slots, Texts, Chosen, SlotTexts;
  }

  // ---- Read, repeated by nobody, and all that is wanted ---------------------------------------------

  lemma CharReads(word: string, s: string)
    requires IsWord(word) && s != ""
    ensures Reads(Printed(word, CharText(s), CharMeant(s)))
  {
    TabReads(word);
    LiteralReads(word, s);
    hide Reads, QuoteLiteral;
  }

  lemma WordsAreWords()
    ensures IsWord("FORMAT") && IsWord("HEADER") && IsWord("DELIMITER") && IsWord("NULL") && IsWord("QUOTE") && IsWord("ESCAPE") && IsWord("ENCODING")
  {
  }

  lemma FormatsArePlain(v: Form)
    requires IsFormat(FormatOf(v))
    ensures Reads(Printed("FORMAT", FormatWanted(v), FormatWanted(v))) && Reads(Printed("HEADER", "true", "true"))
  {
    WordsAreWords();
    var f := FormatWanted(v);
    assert f == FormatOf(v);
    hide Reads, IsWord;
    if f == "csv" {
      PlainReads("FORMAT", "csv");
    } else if f == "text" {
      PlainReads("FORMAT", "text");
    } else {
      PlainReads("FORMAT", "binary");
    }
    PlainReads("HEADER", "true");
  }

  ghost predicate SlotReads(slot: Slot) {
    slot.value.Some? ==> Reads(Printed(slot.word, slot.text, slot.value.value))
  }

  lemma CharSlotReads(word: string, s: string, value: Option<string>)
    requires IsWord(word) && (value == None || value == GivenChar(s))
    ensures SlotReads(Slot(word, CharText(s), value))
  {
    if s != "" {
      CharReads(word, s);
    }
    hide Reads, IsWord, CharText, CharMeant;
  }

  lemma TextSlotReads(word: string, s: string, value: Option<string>)
    requires IsWord(word) && (value == None || value == Given(s))
    ensures SlotReads(Slot(word, QuoteLiteral(s), value))
  {
    LiteralReads(word, s);
    hide Reads, IsWord, QuoteLiteral;
  }

  lemma ValuesAre(v: Form)
    ensures OptionWanted(v, "FORMAT") == Some(FormatWanted(v)) && OptionWanted(v, "HEADER") in {None, Some("true")}
    ensures OptionWanted(v, "DELIMITER") in {None, GivenChar(Typed(v, "delimiter"))} && OptionWanted(v, "NULL") in {None, Given(Typed(v, "null"))}
    ensures OptionWanted(v, "QUOTE") in {None, GivenChar(Typed(v, "quote"))} && OptionWanted(v, "ESCAPE") in {None, GivenChar(Typed(v, "escape"))}
    ensures OptionWanted(v, "ENCODING") in {None, Given(Typed(v, "encoding"))}
  {
    hide Typed, GivenChar, Given, FormatWanted;
  }

  lemma SlotsRead(v: Form)
    requires IsFormat(FormatOf(v))
    ensures forall i | 0 <= i < 7 :: SlotReads(Slots(v)[i])
  {
    WordsAreWords();
    FormatsArePlain(v);
    ValuesAre(v);
    hide Reads, IsWord, CharText, QuoteLiteral, IsFormat, OptionWanted, FormatWanted, FormatOf, Typed, GivenChar, Given;
    var s := Slots(v);
    assert SlotReads(s[0]) && SlotReads(s[1]);
    hide SlotReads;
    CharSlotReads("DELIMITER", Typed(v, "delimiter"), s[2].value);
    TextSlotReads("NULL", Typed(v, "null"), s[3].value);
    CharSlotReads("QUOTE", Typed(v, "quote"), s[4].value);
    CharSlotReads("ESCAPE", Typed(v, "escape"), s[5].value);
    TextSlotReads("ENCODING", Typed(v, "encoding"), s[6].value);
  }

  lemma {:induction false} ChosenReads(slots: seq<Slot>)
    requires forall i | 0 <= i < |slots| :: SlotReads(slots[i])
    ensures forall i | 0 <= i < |Chosen(slots)| :: Reads(Chosen(slots)[i])
  {
    hide Reads;
    if |slots| > 0 {
      ChosenReads(slots[1..]);
    }
  }

  /** The values by their words: those that there are, each once. */
  lemma {:induction false} ChosenMap(slots: seq<Slot>)
    requires forall i, j | 0 <= i < j < |slots| :: slots[i].word != slots[j].word
    ensures NotRepeated(Chosen(slots))
    ensures forall w | w in MapOf(Chosen(slots)) :: exists i :: 0 <= i < |slots| && slots[i].word == w && slots[i].value == Some(MapOf(Chosen(slots))[w])
    ensures forall i | 0 <= i < |slots| && slots[i].value.Some? :: slots[i].word in MapOf(Chosen(slots))
  {
    if |slots| > 0 {
      var more := slots[1..];
      ChosenMap(more);
      assert forall i | 0 <= i < |more| :: more[i] == slots[i + 1];
      if slots[0].value.Some? {
        assert Chosen(slots)[1..] == Chosen(more);
      } else {
        assert [] + Chosen(more) == Chosen(more);
      }
      MapsAgree(slots, MapOf(Chosen(more)), MapOf(Chosen(slots)));
    }
  }

  lemma MapsAgree(slots: seq<Slot>, before: map<string, string>, after: map<string, string>)
    requires |slots| > 0 && after == if slots[0].value.None? then before else before[slots[0].word := slots[0].value.value]
    requires forall w | w in before :: exists i :: 0 <= i < |slots| - 1 && slots[1..][i].word == w && slots[1..][i].value == Some(before[w])
    requires forall i | 0 <= i < |slots| - 1 && slots[1..][i].value.Some? :: slots[1..][i].word in before
    ensures forall w | w in after :: exists i :: 0 <= i < |slots| && slots[i].word == w && slots[i].value == Some(after[w])
    ensures forall i | 0 <= i < |slots| && slots[i].value.Some? :: slots[i].word in after
  {
    forall w | w in after ensures exists i :: 0 <= i < |slots| && slots[i].word == w && slots[i].value == Some(after[w]) {
      if slots[0].value.Some? && slots[0].word == w {
        assert slots[0].value == Some(after[w]);
      } else {
        var i :| 0 <= i < |slots| - 1 && slots[1..][i].word == w && slots[1..][i].value == Some(before[w]);
        assert slots[i + 1] == slots[1..][i];
      }
    }
    forall i | 0 <= i < |slots| && slots[i].value.Some? ensures slots[i].word in after {
      if i > 0 {
        assert slots[1..][i - 1] == slots[i];
      }
    }
  }

  lemma SlotsAreWanted(v: Form)
    ensures forall i, j | 0 <= i < j < 7 :: Slots(v)[i].word != Slots(v)[j].word
    ensures forall i | 0 <= i < 7 :: Slots(v)[i].word in OPTION_WORDS && Slots(v)[i].value == OptionWanted(v, Slots(v)[i].word)
    ensures forall w | w in OPTION_WORDS :: exists i :: 0 <= i < 7 && Slots(v)[i].word == w
  {
    hide OptionWanted, CharText, QuoteLiteral, Typed, FormatWanted;
    var s := Slots(v);
    assert s[0].word == "FORMAT" && s[1].word == "HEADER" && s[2].word == "DELIMITER" && s[3].word == "NULL";
    assert s[4].word == "QUOTE" && s[5].word == "ESCAPE" && s[6].word == "ENCODING";
  }

  lemma OptionsAreWanted(v: Form)
    ensures MapOf(Chosen(Slots(v))) == OptionsWanted(v) && NotRepeated(Chosen(Slots(v))) && |Chosen(Slots(v))| > 0
  {
    SlotsAreWanted(v);
    assert Slots(v)[0].value.Some?;
    var s := Slots(v);
    hide *;
    ChosenMap(s);
    SomethingIsChosen(s);
    MapIsWanted(v, s, MapOf(Chosen(s)));
  }

  lemma MapIsWanted(v: Form, s: seq<Slot>, m: map<string, string>)
    requires |s| == 7 && forall i | 0 <= i < 7 :: s[i].word in OPTION_WORDS && s[i].value == OptionWanted(v, s[i].word)
    requires forall w | w in OPTION_WORDS :: exists i :: 0 <= i < 7 && s[i].word == w
    requires forall w | w in m :: exists i :: 0 <= i < 7 && s[i].word == w && s[i].value == Some(m[w])
    requires forall i | 0 <= i < 7 && s[i].value.Some? :: s[i].word in m
    ensures m == OptionsWanted(v)
  {
    hide *;
    forall w: string
      ensures w in m <==> w in OptionsWanted(v)
      ensures w in m ==> m[w] == OptionsWanted(v)[w]
    {
      OptionAt(v, s, m, w);
    }
  }

  lemma OptionAt(v: Form, s: seq<Slot>, m: map<string, string>, w: string)
    requires |s| == 7 && forall i | 0 <= i < 7 :: s[i].word in OPTION_WORDS && s[i].value == OptionWanted(v, s[i].word)
    requires w in OPTION_WORDS ==> exists i :: 0 <= i < 7 && s[i].word == w
    requires w in m ==> exists i :: 0 <= i < 7 && s[i].word == w && s[i].value == Some(m[w])
    requires forall i | 0 <= i < 7 && s[i].value.Some? :: s[i].word in m
    ensures w in m <==> w in OptionsWanted(v)
    ensures w in m ==> m[w] == OptionsWanted(v)[w]
  {
    hide OptionWanted;
    if w in m {
      var i :| 0 <= i < 7 && s[i].word == w && s[i].value == Some(m[w]);
      assert OptionWanted(v, w) == Some(m[w]);
    } else if w in OPTION_WORDS {
      var i :| 0 <= i < 7 && s[i].word == w;
      assert OptionWanted(v, w).None?;
    }
  }

  lemma SomethingIsChosen(slots: seq<Slot>)
    requires |slots| > 0 && slots[0].value.Some?
    ensures |Chosen(slots)| > 0
  {
  }

  // ---- Columns --------------------------------------------------------------------------------------

  lemma {:induction false} QuotedIsQuoting(cols: seq<string>)
    ensures QuotedColumns(cols) == Quoted(TrimmedEntries(cols)) && "" !in TrimmedEntries(cols)
  {
    hide Trim, QuoteIdent;
    if |cols| > 0 {
      var n := |cols| - 1;
      QuotedIsQuoting(cols[..n]);
      QuotedConcat(TrimmedEntries(cols[..n]), if Trim(cols[n]) == "" then [] else [Trim(cols[n])]);
      assert [QuoteIdent(Trim(cols[n]))] + [] == [QuoteIdent(Trim(cols[n]))];
    }
  }

  function Quoted(names: seq<string>): (r: seq<string>)
    ensures |r| == |names|
  {
    if |names| == 0 then [] else [QuoteIdent(names[0])] + Quoted(names[1..])
  }

  lemma QuotedConcat(a: seq<string>, b: seq<string>)
    ensures Quoted(a + b) == Quoted(a) + Quoted(b)
    decreases |a|
  {
    if |a| == 0 {
      assert a + b == b;
    } else {
      assert (a + b)[1..] == a[1..] + b;
      QuotedConcat(a[1..], b);
    }
  }

  lemma {:induction false} ColumnsReadBack(names: seq<string>, rest: string)
    requires |names| > 0 && "" !in names
    ensures ReadColumns(Join(Quoted(names), ", ") + (")" + rest)) == Some((names, rest))
    decreases |names|
  {
    var x, q := names[0], QuoteIdent(names[0]);
    assert x in names && x != "";
    hide ReadIdent, QuoteIdent;
    if |names| == 1 {
      assert Quoted(names) == [q] by { assert names[1..] == []; }
      ReadQuoteIdent(x, ")" + rest);
      assert (")" + rest)[1..] == rest && names == [x];
      hide Quoted;
    } else {
      var more := Join(Quoted(names[1..]), ", ");
      assert "" !in names[1..] && Quoted(names)[1..] == Quoted(names[1..]) && names == [x] + names[1..];
      ColumnsReadBack(names[1..], rest);
      ConcatRight(q, ", ", more, ")" + rest);
      ReadQuoteIdent(x, ", " + (more + (")" + rest)));
      AfterItself(", ", more + (")" + rest));
      assert (", " + (more + (")" + rest)))[0] == ',';
      hide After, Quoted;
    }
  }

  lemma ColumnListReadsBack(cols: seq<string>, behind: string)
    requires behind == " TO STDOUT WITH (" || behind == " FROM STDIN WITH ("
    ensures forall rest :: ReadColumnList(ColumnList(cols) + (behind + rest)) == Some((TrimmedEntries(cols), behind + rest))
  {
    QuotedIsQuoting(cols);
    hide ReadColumns, QuoteIdent, Join, QuotedColumns, TrimmedEntries;
    var names := TrimmedEntries(cols);
    forall rest ensures ReadColumnList(ColumnList(cols) + (behind + rest)) == Some((names, behind + rest)) {
      if names == [] {
        assert ColumnList(cols) == "" && "" + (behind + rest) == behind + rest;
        assert (behind + rest)[1] != '(';
      } else {
        var list := Join(Quoted(names), ", ");
        assert |Quoted(names)| > 0;
        hide Quoted;
        ColumnsReadBack(names, behind + rest);
        ConcatRight(" (", list, ")", behind + rest);
        AfterItself(" (", list + (")" + (behind + rest)));
        hide After;
      }
    }
  }

  // ---- The statement ----------------------------------------------------------------------------------

  /** What the form asks for. */
  function CopyWanted(dir: string, v: Form, cols: seq<string>): Copy {
    Copy(dir == "export", Trim(Typed(v, "schema")), Trim(Typed(v, "table")), TrimmedEntries(cols), OptionsWanted(v))
  }

  function Behind(dir: Dir): string {
    " " + Endpoint(dir) + " WITH ("
  }

  lemma DirectionReadsBack(dir: string, rest: string)
    requires DirOf(dir).Some?
    ensures var behind := Behind(DirOf(dir).value);
            && (behind == " TO STDOUT WITH (" || behind == " FROM STDIN WITH (")
            && ReadDirection(behind + rest) == Some((dir == "export", rest)) && StopsIdent(behind + rest)
  {
    var behind := Behind(DirOf(dir).value);
    assert behind == if dir == "export" then " TO STDOUT WITH (" else " FROM STDIN WITH (";
    AfterItself(behind, rest);
    assert (behind + rest)[1] == if dir == "export" then 'T' else 'F';
  }

  lemma CopyParts(dir: Dir, v: Form, cols: seq<string>, opts: seq<string>)
    ensures var q := QualIdent(Field(v, "schema"), Field(v, "table"));
            CopyText(dir, v, cols, opts) == "COPY " + (q + (ColumnList(cols) + (Behind(dir) + (Join(opts, ", ") + (")" + "")))))
  {
    hide *;
    var q, list, e, o := QualIdent(Field(v, "schema"), Field(v, "table")), ColumnList(cols), Endpoint(dir), Join(opts, ", ");
    CopyTextIs(dir, v, cols, opts);
    BehindIs(dir);
    assert "COPY " + (q + list) + " " + e + " WITH (" + o + ")" == "COPY " + (q + (list + (" " + e + " WITH (" + (o + (")" + ""))))) by {
      assert ")" + "" == ")";
      Regroup("COPY ", q, list, " ", e, " WITH (", o, ")");
    }
  }

  lemma CopyTextIs(dir: Dir, v: Form, cols: seq<string>, opts: seq<string>)
    ensures CopyText(dir, v, cols, opts)
         == "COPY " + (QualIdent(Field(v, "schema"), Field(v, "table")) + ColumnList(cols)) + " " + Endpoint(dir) + " WITH (" + Join(opts, ", ") + ")"
  {
    hide QualIdent, ColumnList, Endpoint, Join, Field;
  }

  lemma BehindIs(dir: Dir)
    ensures Behind(dir) == " " + Endpoint(dir) + " WITH ("
  {
    hide Endpoint;
  }

  lemma Regroup(a: string, b: string, c: string, d: string, e: string, f: string, g: string, h: string)
    ensures a + (b + c) + d + e + f + g + h == a + (b + (c + (d + e + f + (g + h))))
  {
    hide *;
    ConcatAssoc(a, b, c);
    ConcatAssoc(a + b + c, d, e);
    ConcatAssoc(a + b + c, d + e, f);
    ConcatAssoc(a + b + c + (d + e + f), g, h);
    ConcatAssoc(a + b + c, d + e + f, g + h);
    ConcatAssoc(a + b, c, d + e + f + (g + h));
    ConcatAssoc(a, b, c + (d + e + f + (g + h)));
  }

  /** The parts are read one behind the other. */
  lemma PartsReadBack(schema: string, table: string, list: string, cols: seq<string>, behind: string, toStdout: bool, opts: string, m: map<string, string>)
    requires ReadColumnList(list + (behind + opts)) == Some((cols, behind + opts))
    requires ReadDirection(behind + opts) == Some((toStdout, opts))
    requires ReadOptions(opts) == Some((m, ""))
    requires ReadQual(QualIdent(schema, table) + (list + (behind + opts)))
          == if CanLead(schema) then Some(((schema, table), list + (behind + opts))) else None
    ensures ReadCopy("COPY " + (QualIdent(schema, table) + (list + (behind + opts))))
         == if CanLead(schema) then Some(Copy(toStdout, schema, table, cols, m)) else None
  {
    var rest := QualIdent(schema, table) + (list + (behind + opts));
    AfterItself("COPY ", rest);
    hide After, ReadColumnList, ReadDirection, ReadOptions, ReadQual, QualIdent, CanLead;
  }

  /** An accepted statement reads back as what the form asks for, direction, table, columns and each
  option, exactly if the schema is no reserved word; otherwise it is no statement. */
  lemma CopyReadsBack(dir: string, v: Form, cols: seq<string>)
    requires CopyScript(dir, v, cols).Ok?
    ensures ReadCopy(CopyScript(dir, v, cols).value) == if CanLead(Trim(Typed(v, "schema"))) then Some(CopyWanted(dir, v, cols)) else None
  {
    AcceptedIsText(dir, v, cols);
    var d, opts := DirOf(dir).value, CopyOptions(v, FormatOf(v)).value;
    var schema, table := Field(v, "schema"), Field(v, "table");
    hide *;
    var end := Join(opts, ", ") + (")" + "");
    CopyParts(d, v, cols, opts);
    AcceptedOptionsReadBack(v);
    DirectionReadsBack(dir, end);
    ColumnListReadsBack(cols, Behind(d));
    ListStops(cols, Behind(d) + end);
    ReadQualIdent(schema, table, ColumnList(cols) + (Behind(d) + end));
    PartsReadBack(schema, table, ColumnList(cols), TrimmedEntries(cols), Behind(d), dir == "export", end, OptionsWanted(v));
    WantedIs(dir, v, cols);
  }

  lemma AcceptedIsText(dir: string, v: Form, cols: seq<string>)
    requires CopyScript(dir, v, cols).Ok?
    ensures DirOf(dir).Some? && IsFormat(FormatOf(v)) && CopyOptions(v, FormatOf(v)).Ok?
    ensures CopyScript(dir, v, cols).value == CopyText(DirOf(dir).value, v, cols, CopyOptions(v, FormatOf(v)).value)
    ensures Field(v, "schema") == Trim(Typed(v, "schema")) && Field(v, "table") == Trim(Typed(v, "table")) && Field(v, "table") != ""
  {
    hide CopyOptions, CopyText, Trim, IsFormat, FormatOf;
  }

  lemma AcceptedOptionsReadBack(v: Form)
    requires IsFormat(FormatOf(v)) && CopyOptions(v, FormatOf(v)).Ok?
    ensures ReadOptions(Join(CopyOptions(v, FormatOf(v)).value, ", ") + (")" + "")) == Some((OptionsWanted(v), ""))
  {
    hide *;
    assert |Slots(v)| == 7;
    OptionsArePrinted(v);
    SlotsRead(v);
    ChosenReads(Slots(v));
    OptionsAreWanted(v);
    OptionsReadBack(Chosen(Slots(v)), "");
  }

  lemma WantedIs(dir: string, v: Form, cols: seq<string>)
    ensures CopyWanted(dir, v, cols) == Copy(dir == "export", Trim(Typed(v, "schema")), Trim(Typed(v, "table")), TrimmedEntries(cols), OptionsWanted(v))
  {
    hide Trim, TrimmedEntries, OptionsWanted, Typed;
  }

  lemma ListStops(cols: seq<string>, rest: string)
    requires StopsIdent(rest)
    ensures StopsIdent(ColumnList(cols) + rest)
  {
    hide QuotedColumns, Join;
    if ColumnList(cols) == "" {
      assert ColumnList(cols) + rest == rest;
    } else {
      assert ColumnList(cols)[0] == ' ';
    }
  }

  // ---- Which forms are accepted -----------------------------------------------------------------------

  predicate IsOneChar(s: string) {
    s == "" || s == "tab" || s == "\\t" || (|s| == 1 && s[0] != '\n' && s[0] != '\r')
  }

  predicate IsEncoding(s: string) {
    |s| <= 40 && forall i :: 0 <= i < |s| ==> 'a' <= s[i] <= 'z' || 'A' <= s[i] <= 'Z' || '0' <= s[i] <= '9' || s[i] == '_' || s[i] == '-'
  }

  /** A form is accepted exactly if direction, table, format and encoding are known, and the one-character
  options that the format has use for are blank, a tab or one character that ends no line. */
  lemma CopyFormIsAccepted(dir: string, v: Form, cols: seq<string>)
    ensures CopyScript(dir, v, cols).Ok? <==>
              var format := FormatWanted(v);
              && (dir == "import" || dir == "export")
              && Trim(Typed(v, "schema")) != "" && Trim(Typed(v, "table")) != ""
              && (format == "csv" || format == "text" || format == "binary")
              && (format != "binary" ==> IsOneChar(Typed(v, "delimiter")))
              && (format == "csv" ==> IsOneChar(Typed(v, "quote")) && IsOneChar(Typed(v, "escape")))
              && IsEncoding(Typed(v, "encoding"))
  {
    assert FormatOf(v) == FormatWanted(v);
    assert Field(v, "schema") == Trim(Typed(v, "schema")) && Field(v, "table") == Trim(Typed(v, "table"));
    CharAccepted("DELIMITER", "Delimiter", Value(v, "delimiter"), FormatWanted(v) != "binary");
    CharAccepted("QUOTE", "Quote", Value(v, "quote"), FormatWanted(v) == "csv");
    CharAccepted("ESCAPE", "Escape", Value(v, "escape"), FormatWanted(v) == "csv");
    EncodingAccepted(v);
    hide Trim, CharOption, IsOneChar, IsEncoding, EncodingOption, HeaderOption, NullOption, CopyText, Field, FormatOf, FormatWanted;
  }

  lemma CharAccepted(opt: string, tag: string, value: string, allowed: bool)
    ensures CharOption(opt, tag, value, allowed).Ok? <==> (allowed ==> IsOneChar(value))
  {
  }

  lemma EncodingAccepted(v: Form)
    ensures EncodingOption(v).Ok? <==> IsEncoding(Typed(v, "encoding"))
  {
  }
}
