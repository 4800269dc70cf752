/** ALTER SEQUENCE, internal/web/ddl.go: the options of a sequence in front of its owner,
schema and name. */
module AlterSequence {
  import opened Wrappers
  import opened GoStrings
  import opened SqlQuote
  import opened SqlNames
  import opened ClosedSql
  import opened SplitStatements
  import opened Numbers
  import opened SequenceText
  import opened AlterObject

  // ---- The builder ----------------------------------------------------------------------------

  /** A sequence option field: the option's words in front of what was typed. */
  function OptionPart(v: Form, field: string, words: string): seq<string> {
    if Field(v, field) != "" then [words + " " + Field(v, field)] else []
  }

  function SequenceOptions(v: Form): seq<string> {
    OptionPart(v, "increment", "INCREMENT BY") + OptionPart(v, "minvalue", "MINVALUE") + OptionPart(v, "maxvalue", "MAXVALUE")
    + OptionPart(v, "restart", "RESTART WITH") + OptionPart(v, "cache", "CACHE")
    + match Value(v, "cycle")
      case "on" => ["CYCLE"]
      case "off" => ["NO CYCLE"]
      case _ => []
  }

  function SequencePlan(v: Form): seq<AlterStmt> {
    var o := ObjName(Field(v, "schema"), Field(v, "name"));
    (if SequenceOptions(v) == [] then [] else [AlterStmt(o, Options(Join(SequenceOptions(v), " ")))]) + AlterPlan(o, v, true, true)
  }

  function SequenceScript(v: Form): Result<string> {
    if Field(v, "name") == "" then Err("Sequence name is required.")
    else if SequencePlan(v) == [] then Err("No changes requested.")
    else Ok(JoinStatements(RenderPlan("SEQUENCE", InSchema, SequencePlan(v))))
  }

  /** buildAlterSequence */
  method BuildAlterSequence(v: Form) returns (r: Result<string>)
    ensures r == SequenceScript(v)
  {
    hide Trim, AlterPlan, RenderAlter, SequenceOptions;
    var name := Field(v, "name");
    if name == "" {
      return Err("Sequence name is required.");
    }
    var schema := Field(v, "schema");
    var opts := CollectOptions(v);
    var stmts := [];
    if |opts| > 0 {
      stmts := stmts + [RenderAlter("SEQUENCE", InSchema, AlterStmt(ObjName(schema, name), Options(Join(opts, " "))))];
    }
    var more := AlterOwnerSchemaRename("SEQUENCE", InSchema, schema, name, v, true, true);
    stmts := stmts + more;
    assert stmts == RenderPlan("SEQUENCE", InSchema, SequencePlan(v));
    if |stmts| == 0 {
      return Err("No changes requested.");
    }
    return Ok(JoinStatements(stmts));
  }

  method CollectOptions(v: Form) returns (opts: seq<string>)
    ensures opts == SequenceOptions(v)
  {
    hide OptionPart;
    opts := AddOption([], v, "increment", "INCREMENT BY");
    assert opts == OptionPart(v, "increment", "INCREMENT BY");
    opts := AddOption(opts, v, "minvalue", "MINVALUE");
    opts := AddOption(opts, v, "maxvalue", "MAXVALUE");
    opts := AddOption(opts, v, "restart", "RESTART WITH");
    opts := AddOption(opts, v, "cache", "CACHE");
    match Value(v, "cycle") {
      case "on" => opts := opts + ["CYCLE"];
      case "off" => opts := opts + ["NO CYCLE"];
      case _ => opts := opts + [];
    }
  }

  method AddOption(opts: seq<string>, v: Form, field: string, words: string) returns (r: seq<string>)
    ensures r == opts + OptionPart(v, field, words)
  {
    r := opts;
    var x := Field(v, field);
    if x != "" {
      r := r + [words + " " + x];
    }
  }

  // ---- A sequence's options -----------------------------------------------------------------------

  predicate IsNumberField(v: Form, field: string) {
    IsRequested(v, field) ==> Number(Trim(v[field])).Some?
  }

  /** What is typed into the number fields are numbers. */
  predicate OptionsAreNumbers(v: Form) {
    IsNumberField(v, "increment") && IsNumberField(v, "minvalue") && IsNumberField(v, "maxvalue")
    && IsNumberField(v, "restart") && IsNumberField(v, "cache")
  }

  /** No number field has a blank inside. */
  predicate OptionsAreWords(v: Form) {
    IsOneWord(Field(v, "increment")) && IsOneWord(Field(v, "minvalue")) && IsOneWord(Field(v, "maxvalue"))
    && IsOneWord(Field(v, "restart")) && IsOneWord(Field(v, "cache"))
  }

  function NumberRequested(v: Form, field: string, now: int): int
    requires IsNumberField(v, field)
  {
    if IsRequested(v, field) then Number(Trim(v[field])).value else now
  }

  /** The settings a form asks for. */
  function SettingsWanted(v: Form, s: Settings): Settings
    requires OptionsAreNumbers(v)
  {
    Settings(NumberRequested(v, "increment", s.increment), NumberRequested(v, "minvalue", s.minvalue),
             NumberRequested(v, "maxvalue", s.maxvalue), NumberRequested(v, "restart", s.restart), NumberRequested(v, "cache", s.cache),
             if "cycle" in v && v["cycle"] == "on" then true else if "cycle" in v && v["cycle"] == "off" then false else s.cycle)
  }

  predicate AsksForOptions(v: Form) {
    IsRequested(v, "increment") || IsRequested(v, "minvalue") || IsRequested(v, "maxvalue") || IsRequested(v, "restart") || IsRequested(v, "cache")
    || ("cycle" in v && (v["cycle"] == "on" || v["cycle"] == "off"))
  }

  /** The option a field's text is read as. */
  function Spelled(v: Form, field: string, kind: Kind): seq<Option<Setting>> {
    if Field(v, field) == "" then []
    else [match Number(Field(v, field)) case None => None case Some(n) => Some(Limit(kind, n))]
  }

  function CycleSpelled(v: Form): seq<Option<Setting>> {
    if Value(v, "cycle") == "on" then [Some(Cycle(true))] else if Value(v, "cycle") == "off" then [Some(Cycle(false))] else []
  }

  function CycleOption(v: Form): seq<string> {
    if Value(v, "cycle") == "on" then ["CYCLE"] else if Value(v, "cycle") == "off" then ["NO CYCLE"] else []
  }

  lemma OptionSpells(v: Form, field: string, kind: Kind)
    requires IsOneWord(Field(v, field))
    ensures AllSpell(OptionPart(v, field, WordsOf(kind)), Spelled(v, field, kind))
  {
    hide Field, Number, Spells;
    LimitSpells(kind, Field(v, field));
  }

  lemma OptionsAre(v: Form)
    ensures SequenceOptions(v)
         == OptionPart(v, "increment", WordsOf(Increment)) + OptionPart(v, "minvalue", WordsOf(MinValue)) + OptionPart(v, "maxvalue", WordsOf(MaxValue))
            + OptionPart(v, "restart", WordsOf(Restart)) + OptionPart(v, "cache", WordsOf(Cache)) + CycleOption(v)
  {
    hide OptionPart;
  }

  lemma CycleIsSpelled(v: Form)
    ensures AllSpell(CycleOption(v), CycleSpelled(v))
  {
    CycleSpells();
    NoCycleSpells();
    hide Spells;
  }

  lemma OptionsSpell(v: Form)
    requires OptionsAreWords(v)
    ensures AllSpell(SequenceOptions(v), AllSpelled(v))
  {
    OptionsAre(v);
    CycleIsSpelled(v);
    hide Field, OptionPart, Spelled, AllSpell, CycleOption, CycleSpelled, IsOneWord, WordsOf, SequenceOptions;
    OptionSpells(v, "increment", Increment);
    OptionSpells(v, "minvalue", MinValue);
    OptionSpells(v, "maxvalue", MaxValue);
    OptionSpells(v, "restart", Restart);
    OptionSpells(v, "cache", Cache);
    var a, b, c, d, e := OptionPart(v, "increment", WordsOf(Increment)), OptionPart(v, "minvalue", WordsOf(MinValue)),
                         OptionPart(v, "maxvalue", WordsOf(MaxValue)), OptionPart(v, "restart", WordsOf(Restart)), OptionPart(v, "cache", WordsOf(Cache));
    var x, y, z, w, u := Spelled(v, "increment", Increment), Spelled(v, "minvalue", MinValue), Spelled(v, "maxvalue", MaxValue),
                         Spelled(v, "restart", Restart), Spelled(v, "cache", Cache);
    AllSpellConcat(a, x, b, y);
    AllSpellConcat(a + b, x + y, c, z);
    AllSpellConcat(a + b + c, x + y + z, d, w);
    AllSpellConcat(a + b + c + d, x + y + z + w, e, u);
    AllSpellConcat(a + b + c + d + e, x + y + z + w + u, CycleOption(v), CycleSpelled(v));
  }

  function AllSpelled(v: Form): seq<Option<Setting>> {
    Spelled(v, "increment", Increment) + Spelled(v, "minvalue", MinValue) + Spelled(v, "maxvalue", MaxValue)
    + Spelled(v, "restart", Restart) + Spelled(v, "cache", Cache) + CycleSpelled(v)
  }

  lemma SpelledRuns(v: Form, field: string, kind: Kind, s: Settings)
    ensures SequenceText.Run(s, Spelled(v, field, kind))
         == if !IsNumberField(v, field) then None
            else if IsRequested(v, field) then Some(Set(s, Limit(kind, NumberRequested(v, field, 0)))) else Some(s)
  {
    RequestedIsField(v, field, "");
    assert IsRequested(v, field) ==> Field(v, field) == Trim(v[field]) by { hide Trim; }
    hide Field, Number, Trim, Set, IsRequested;
    if Field(v, field) != "" {
      RunOneOption(s, Spelled(v, field, kind)[0]);
    }
  }

  /** Each field sets the setting of its name. */
  lemma SpelledSets(v: Form, s: Settings)
    ensures SequenceText.Run(s, AllSpelled(v)) == if OptionsAreNumbers(v) then Some(SettingsWanted(v, s)) else None
  {
    var x, y, z, w, u := Spelled(v, "increment", Increment), Spelled(v, "minvalue", MinValue), Spelled(v, "maxvalue", MaxValue),
                         Spelled(v, "restart", Restart), Spelled(v, "cache", Cache);
    var c := CycleSpelled(v);
    hide Number, Spelled, Field, Trim, SequenceText.Run;
    RunConcat(s, x + y + z + w + u, c);
    RunConcat(s, x + y + z + w, u);
    RunConcat(s, x + y + z, w);
    RunConcat(s, x + y, z);
    RunConcat(s, x, y);
    SpelledRuns(v, "increment", Increment, s);
    if IsNumberField(v, "increment") {
      var s1 := s.(increment := NumberRequested(v, "increment", s.increment));
      SpelledRuns(v, "minvalue", MinValue, s1);
      if IsNumberField(v, "minvalue") {
        var s2 := s1.(minvalue := NumberRequested(v, "minvalue", s.minvalue));
        SpelledRuns(v, "maxvalue", MaxValue, s2);
        if IsNumberField(v, "maxvalue") {
          var s3 := s2.(maxvalue := NumberRequested(v, "maxvalue", s.maxvalue));
          SpelledRuns(v, "restart", Restart, s3);
          if IsNumberField(v, "restart") {
            var s4 := s3.(restart := NumberRequested(v, "restart", s.restart));
            SpelledRuns(v, "cache", Cache, s4);
            if IsNumberField(v, "cache") {
              CycleRuns(v, s4.(cache := NumberRequested(v, "cache", s.cache)));
            }
          }
        }
      }
    }
  }

  lemma CycleRuns(v: Form, s: Settings)
    ensures SequenceText.Run(s, CycleSpelled(v))
         == Some(s.(cycle := if "cycle" in v && v["cycle"] == "on" then true else if "cycle" in v && v["cycle"] == "off" then false else s.cycle))
  {
    RunOneOption(s, Some(Cycle(true)));
    RunOneOption(s, Some(Cycle(false)));
  }

  lemma OptionAsked(v: Form, field: string, words: string)
    ensures OptionPart(v, field, words) != [] <==> IsRequested(v, field)
  {
    hide Field, IsRequested;
    RequestedIsField(v, field, "");
  }

  lemma OptionsAsked(v: Form)
    ensures SequenceOptions(v) != [] <==> AsksForOptions(v)
  {
    OptionAsked(v, "increment", "INCREMENT BY");
    OptionAsked(v, "minvalue", "MINVALUE");
    OptionAsked(v, "maxvalue", "MAXVALUE");
    OptionAsked(v, "restart", "RESTART WITH");
    OptionAsked(v, "cache", "CACHE");
    hide OptionPart, IsRequested;
  }

  /** The option text sets what the form asks for and leaves the rest, exactly if what is typed are numbers. */
  lemma OptionTextReachesRequested(v: Form, s: Settings)
    requires OptionsAreWords(v) && AsksForOptions(v)
    ensures ApplyText(s, Join(SequenceOptions(v), " ")) == if OptionsAreNumbers(v) then Some(SettingsWanted(v, s)) else None
  {
    hide *;
    OptionsAsked(v);
    OptionsSpell(v);
    JoinedOptionsApply(s, SequenceOptions(v), AllSpelled(v));
    SpelledSets(v, s);
  }

  lemma NothingAsked(v: Form, s: Settings)
    requires !AsksForOptions(v)
    ensures OptionsAreNumbers(v) && SettingsWanted(v, s) == s
  {
    hide Trim, Number;
  }

  /** Typed text is pasted as it is, so a blank inside lets it say more than its field: this increment
  makes the sequence cycle. */
  lemma BlankInsideSaysMore(s: Settings)
    ensures ApplyText(s, Join(SequenceOptions(map["increment" := "5 CYCLE"]), " ")) == Some(s.(increment := 5, cycle := true))
  {
    BlankInsideText();
    var ps, xs := ["INCREMENT BY 5", "CYCLE"], [Some(Limit(Increment, 5)), Some(Cycle(true))];
    FiveSpells();
    CycleSpells();
    assert AllSpell(ps, xs) by { hide Spells; }
    assert SequenceText.Run(s, xs) == Some(s.(increment := 5, cycle := true)) by {
      assert xs[1..] == [Some(Cycle(true))];
      RunOneOption(Set(s, Limit(Increment, 5)), Some(Cycle(true)));
    }
    hide *;
    JoinedOptionsApply(s, ps, xs);
  }

  lemma BlankInsideText()
    ensures Join(SequenceOptions(map["increment" := "5 CYCLE"]), " ") == Join(["INCREMENT BY 5", "CYCLE"], " ")
  {
    var v: Form := map["increment" := "5 CYCLE"];
    TrimOfTrimmed("5 CYCLE");
    TrimOfTrimmed("");
    hide Trim;
    assert OptionPart(v, "increment", "INCREMENT BY") == ["INCREMENT BY 5 CYCLE"] by { assert "INCREMENT BY" + " " + "5 CYCLE" == "INCREMENT BY 5 CYCLE"; }
    assert SequenceOptions(v) == ["INCREMENT BY 5 CYCLE"];
    TwoJoined("INCREMENT BY 5", "CYCLE", " ");
    assert "INCREMENT BY 5" + " " + "CYCLE" == "INCREMENT BY 5 CYCLE";
  }

  lemma TwoJoined(a: string, b: string, sep: string)
    ensures Join([a, b], sep) == a + sep + b
  {
    assert [a, b][1..] == [b];
  }

  lemma FiveSpells()
    ensures Spells("INCREMENT BY 5", Some(Limit(Increment, 5)))
  {
    assert "5"[..0] == "";
    assert Number("5") == Some(5);
    assert "INCREMENT BY" + " " + "5" == "INCREMENT BY 5";
    LimitSpells(Increment, "5");
  }

  /** The sequence script: the options reach the sequence before it moves, each field its own setting.
  With no blank inside a number field, the script goes through exactly if what is typed there are
  numbers and the names are free. */
  lemma SequencePlanReachesRequested(cat: Catalog, v: Form)
    requires var o := ObjName(Field(v, "schema"), Field(v, "name")); o in cat && cat[o].sequence.Some?
    requires OptionsAreWords(v)
    ensures var o := ObjName(Field(v, "schema"), Field(v, "name"));
            RunPlan(cat, SequencePlan(v))
              == if OptionsAreNumbers(v) && NamesFree(cat, o, v, true)
                 then Some((cat - {o})[FinalName(o, v, true) := SequenceWanted(cat[o], v)]) else None
  {
    var o := ObjName(Field(v, "schema"), Field(v, "name"));
    OptionsAsked(v);
    hide Field, SequenceOptions, AlterPlan, FinalName, RunPlan, FinalSchema, SettingsWanted, NamesFree, OptionsAreNumbers, OptionsAreWords, AsksForOptions, ApplyText, Requested;
    if AsksForOptions(v) {
      var st := AlterStmt(o, Options(Join(SequenceOptions(v), " ")));
      RunOne(cat, st);
      RunPlanConcat(cat, [st], AlterPlan(o, v, true, true));
      OptionTextReachesRequested(v, cat[o].sequence.value);
    } else {
      NothingAsked(v, cat[o].sequence.value);
      assert cat[o := cat[o]] == cat;
      assert [] + AlterPlan(o, v, true, true) == AlterPlan(o, v, true, true);
    }
    if OptionsAreNumbers(v) {
      var cat1 := cat[o := cat[o].(sequence := Some(SettingsWanted(v, cat[o].sequence.value)))];
      SameNamesFree(cat, cat1, o, v);
      PlanReachesRequested(cat1, o, v, true, true);
      assert cat1 - {o} == cat - {o};
    }
  }

  lemma SameNamesFree(cat: Catalog, cat1: Catalog, o: ObjName, v: Form)
    requires cat.Keys == cat1.Keys
    ensures NamesFree(cat, o, v, true) == NamesFree(cat1, o, v, true)
  {
    hide FinalName, Trim;
  }

  /** The sequence as requested. */
  function SequenceWanted(e: Entry, v: Form): Entry
    requires e.sequence.Some? && OptionsAreNumbers(v)
  {
    e.(owner := Requested(v, "owner", e.owner), sequence := Some(SettingsWanted(v, e.sequence.value)))
  }

  // ---- The names in the text --------------------------------------------------------------------

  lemma SequenceScriptNamesCurrentObject(v: Form, k: nat)
    requires k < |SequencePlan(v)|
    ensures var now := NameAfter(ObjName(Field(v, "schema"), Field(v, "name")), SequencePlan(v)[..k]);
            ReadTarget("SEQUENCE", InSchema, RenderPlan("SEQUENCE", InSchema, SequencePlan(v))[k])
              == if IsReadable(InSchema, now) then Some(now) else None
  {
    var o := ObjName(Field(v, "schema"), Field(v, "name"));
    hide IsReadable, AlterPlan, RenderPlan, ReadTarget, NameAfter, NamesCurrent, SequenceOptions, Field, FinalName;
    NothingIsCurrent(o);
    if SequenceOptions(v) != [] {
      NamesCurrentSnoc(o, [], AlterStmt(o, Options(Join(SequenceOptions(v), " "))));
      assert [] + [AlterStmt(o, Options(Join(SequenceOptions(v), " ")))] == [AlterStmt(o, Options(Join(SequenceOptions(v), " ")))];
      AlterPlanNamesCurrent(o, v, true, true, [AlterStmt(o, Options(Join(SequenceOptions(v), " ")))]);
    } else {
      AlterPlanNamesCurrent(o, v, true, true, []);
    }
    RenderedNamesCurrent("SEQUENCE", InSchema, o, SequencePlan(v), k);
  }

  // ---- The sequence script as text ----------------------------------------------------------------

  /** Text without characters that mean anything to the splitter or end a statement. */
  ghost predicate IsOptionList(text: string) {
    Balanced(text) && IsTrimmed(text) && IsOptionText(text)
  }

  ghost predicate AreOptions(ps: seq<string>) {
    forall i | 0 <= i < |ps| :: IsOptionList(ps[i])
  }

  lemma NumberIsBalanced(x: string)
    requires Number(x).Some?
    ensures Balanced(x) && x != "" && !IsSpace(x[|x| - 1])
  {
    hide Balanced, DigitsValue;
    if x[0] == '-' {
      BalancedNegative(x[1..]);
      assert x == "-" + x[1..];
    } else {
      assert IsPlain(x);
      BalancedPlain(x);
    }
  }

  lemma WordsStart(kind: Kind)
    ensures var words := WordsOf(kind) + " "; IsPlain(words) && IsOptionText(words) && !IsSpace(words[0])
  {
    var words := WordsOf(kind) + " ";
    match kind {
      case Increment => assert words == "INCREMENT BY ";
      case MinValue => assert words == "MINVALUE ";
      case MaxValue => assert words == "MAXVALUE ";
      case Restart => assert words == "RESTART WITH ";
      case Cache => assert words == "CACHE ";
    }
  }

  lemma LimitIsOption(kind: Kind, x: string)
    requires Number(x).Some?
    ensures IsOptionList(WordsOf(kind) + " " + x)
  {
    var words := WordsOf(kind) + " ";
    WordsStart(kind);
    hide Balanced, WordsOf, Number;
    NumberIsBalanced(x);
    BalancedPlain(words);
    BalancedConcat(words, x);
    EndsTrimmed(words, x);
    var text := words + x;
    assert text[0] == words[0] && text[2] == words[2];
  }

  lemma CycleIsOption(v: Form)
    ensures AreOptions(CycleOption(v))
  {
    hide Balanced;
    BalancedPlain("CYCLE");
    BalancedPlain("NO CYCLE");
    assert "CYCLE"[0] == 'C' && "NO CYCLE"[0] == 'N';
  }

  lemma PartIsOption(v: Form, field: string, kind: Kind)
    requires IsNumberField(v, field)
    ensures AreOptions(OptionPart(v, field, WordsOf(kind)))
  {
    RequestedIsField(v, field, "");
    assert IsRequested(v, field) ==> Field(v, field) == Trim(v[field]) by { hide Trim; }
    hide Field, Number, WordsOf, IsOptionList, Trim, IsRequested;
    if Field(v, field) != "" {
      LimitIsOption(kind, Field(v, field));
    }
  }

  lemma OptionsAreOptions(v: Form)
    requires OptionsAreNumbers(v)
    ensures AreOptions(SequenceOptions(v))
  {
    OptionsAre(v);
    assert IsNumberField(v, "increment") && IsNumberField(v, "minvalue") && IsNumberField(v, "maxvalue")
        && IsNumberField(v, "restart") && IsNumberField(v, "cache");
    hide *;
    PartIsOption(v, "increment", Increment);
    PartIsOption(v, "minvalue", MinValue);
    PartIsOption(v, "maxvalue", MaxValue);
    PartIsOption(v, "restart", Restart);
    PartIsOption(v, "cache", Cache);
    CycleIsOption(v);
    var a, b, c, d, e := OptionPart(v, "increment", WordsOf(Increment)), OptionPart(v, "minvalue", WordsOf(MinValue)),
                         OptionPart(v, "maxvalue", WordsOf(MaxValue)), OptionPart(v, "restart", WordsOf(Restart)), OptionPart(v, "cache", WordsOf(Cache));
    AreOptionsConcat(a, b);
    AreOptionsConcat(a + b, c);
    AreOptionsConcat(a + b + c, d);
    AreOptionsConcat(a + b + c + d, e);
    AreOptionsConcat(a + b + c + d + e, CycleOption(v));
  }

  lemma AreOptionsConcat(ps: seq<string>, qs: seq<string>)
    requires AreOptions(ps) && AreOptions(qs)
    ensures AreOptions(ps + qs)
  {
    hide IsOptionList;
  }

  lemma {:induction false} JoinedOptionsAreAList(ps: seq<string>)
    requires AreOptions(ps) && |ps| > 0
    ensures IsOptionList(Join(ps, " "))
  {
    assert IsOptionList(ps[0]);
    if |ps| > 1 {
      JoinedOptionsAreAList(ps[1..]);
      var more := Join(ps[1..], " ");
      hide Balanced;
      BalancedPlain(" ");
      BalancedConcat(ps[0], " ");
      BalancedConcat(ps[0] + " ", more);
      EndsTrimmed(ps[0] + " ", more);
      hide IsOptionText, IsTrimmed;
      StillAnOption(ps[0], more);
    }
  }

  lemma StillAnOption(p: string, more: string)
    requires IsOptionText(p)
    ensures IsOptionText(p + " " + more)
  {
    var s := p + " " + more;
    assert s[0] == p[0] && s[2] == p[2];
  }

  lemma RenderedOptions(o: ObjName, text: string)
    ensures RenderAlter("SEQUENCE", InSchema, AlterStmt(o, Options(text))) == "ALTER SEQUENCE " + Target(InSchema, o) + (" " + text)
  {
    hide Target;
    assert "ALTER " + "SEQUENCE" + " " == "ALTER SEQUENCE ";
  }

  lemma RenderOptionsIsClosed(o: ObjName, text: string)
    requires IsOptionList(text)
    ensures Closed(RenderAlter("SEQUENCE", InSchema, AlterStmt(o, Options(text))))
  {
    var head, target, tail := "ALTER SEQUENCE ", Target(InSchema, o), " " + text;
    HeadIsPlain();
    assert Balanced(text) && text != "" && !IsSpace(text[|text| - 1]) by { hide Balanced, IsOptionText; }
    hide *;
    RenderedOptions(o, text);
    TargetIsBalanced(InSchema, o);
    BalancedPlain(head);
    BalancedPlain(" ");
    BalancedConcat(" ", text);
    BalancedConcat(head, target);
    BalancedConcat(head + target, tail);
    EndsTrimmed(head + target, tail);
    BalancedTrimmedIsClosed(head + target + tail);
  }

  lemma HeadIsPlain()
    ensures IsPlain("ALTER SEQUENCE ") && IsPlain(" ") && !IsSpace("ALTER SEQUENCE "[0])
  {
  }

  lemma BalancedTrimmedIsClosed(s: string)
    requires Balanced(s) && IsTrimmed(s)
    ensures Closed(s)
  {
    hide Balanced, IsTrimmed;
  }

  lemma OptionsStatement(v: Form)
    requires OptionsAreNumbers(v) && AsksForOptions(v)
    ensures IsOptionList(Join(SequenceOptions(v), " "))
  {
    hide *;
    OptionsAreOptions(v);
    OptionsAsked(v);
    JoinedOptionsAreAList(SequenceOptions(v));
  }

  lemma SequencePlanIs(v: Form)
    ensures var o := ObjName(Field(v, "schema"), Field(v, "name"));
            SequencePlan(v) == (if AsksForOptions(v) then [AlterStmt(o, Options(Join(SequenceOptions(v), " ")))] else []) + AlterPlan(o, v, true, true)
  {
    OptionsAsked(v);
    hide Field, SequenceOptions, AlterPlan, AsksForOptions;
  }

  /** With numbers for options the script splits back into its statements, exactly when they are ASCII. */
  lemma SequenceScriptSplitsBack(v: Form)
    requires OptionsAreNumbers(v) && SequencePlan(v) != []
    ensures var stmts := RenderPlan("SEQUENCE", InSchema, SequencePlan(v));
            Split(JoinStatements(stmts)) == stmts <==> AllAscii(stmts)
  {
    hide Split, JoinStatements, RenderPlan, RenderAlter, SequencePlan, Closed, OptionsAreNumbers, IsAscii, Field;
    PlanIsClosed(v);
    RenderedAreClosed(SequencePlan(v));
    SplitJoinRoundTrip(RenderPlan("SEQUENCE", InSchema, SequencePlan(v)));
  }

  lemma PlanIsClosed(v: Form)
    requires OptionsAreNumbers(v)
    ensures forall st | st in SequencePlan(v) :: Closed(RenderAlter("SEQUENCE", InSchema, st))
  {
    var o := ObjName(Field(v, "schema"), Field(v, "name"));
    hide *;
    SequencePlanIs(v);
    AlterStatementsAreClosed(o, v);
    if AsksForOptions(v) {
      OptionsStatement(v);
      RenderOptionsIsClosed(o, Join(SequenceOptions(v), " "));
    }
  }

  lemma AlterStatementsAreClosed(o: ObjName, v: Form)
    ensures forall st | st in AlterPlan(o, v, true, true) :: Closed(RenderAlter("SEQUENCE", InSchema, st))
  {
    forall st | st in AlterPlan(o, v, true, true) ensures Closed(RenderAlter("SEQUENCE", InSchema, st)) {
      NoOptionInPlan(o, v, st);
      KindIsPlain();
      hide *;
      RenderAlterIsClosed("SEQUENCE", InSchema, st);
    }
  }

  lemma NoOptionInPlan(o: ObjName, v: Form, st: AlterStmt)
    requires st in AlterPlan(o, v, true, true)
    ensures !st.action.Options?
  {
    hide Field;
  }

  lemma KindIsPlain()
    ensures IsPlain("SEQUENCE")
  {
  }

  lemma RenderedAreClosed(plan: seq<AlterStmt>)
    requires forall st | st in plan :: Closed(RenderAlter("SEQUENCE", InSchema, st))
    ensures |RenderPlan("SEQUENCE", InSchema, plan)| == |plan|
    ensures forall i | 0 <= i < |plan| :: Closed(RenderPlan("SEQUENCE", InSchema, plan)[i])
  {
    hide Closed, RenderAlter;
    forall i | 0 <= i < |plan| ensures Closed(RenderPlan("SEQUENCE", InSchema, plan)[i]) {
      assert plan[i] in plan;
    }
  }

  lemma NamedIsPrinted()
    ensures forall a: Action | IsNamed(a) :: IsPrinted("SEQUENCE", a)
  {
    hide IsNamed;
  }

  lemma SequencePlanIsReadable(v: Form)
    requires Field(v, "name") != "" && OptionsAreNumbers(v)
    ensures var o, plan := ObjName(Field(v, "schema"), Field(v, "name")), SequencePlan(v);
            && (forall st | st in plan :: IsPrinted("SEQUENCE", st.action))
            && (plan != [] ==> ((forall st | st in plan :: IsReadable(InSchema, st.target)) <==> SchemasReadable(InSchema, o, v, true)))
  {
    var o := ObjName(Field(v, "schema"), Field(v, "name"));
    var alter := AlterPlan(o, v, true, true);
    hide *;
    SequencePlanIs(v);
    if AsksForOptions(v) {
      OptionsAreNamed(v);
      PlanWithOptionsIsReadable(o, v, AlterStmt(o, Options(Join(SequenceOptions(v), " "))));
    } else {
      NamedIsPrinted();
      PlanIsReadable(InSchema, o, v, true, true);
      assert [] + alter == alter;
    }
  }

  lemma OptionsAreNamed(v: Form)
    requires OptionsAreNumbers(v) && AsksForOptions(v)
    ensures IsPrinted("SEQUENCE", Options(Join(SequenceOptions(v), " ")))
  {
    OptionsStatement(v);
    hide Balanced, SequenceOptions, OptionsAreNumbers, AsksForOptions;
  }

  lemma PlanWithOptionsIsReadable(o: ObjName, v: Form, st: AlterStmt)
    requires o.name != "" && st.target == o && IsPrinted("SEQUENCE", st.action)
    ensures var plan := [st] + AlterPlan(o, v, true, true);
            && (forall x | x in plan :: IsPrinted("SEQUENCE", x.action))
            && ((forall x | x in plan :: IsReadable(InSchema, x.target)) <==> SchemasReadable(InSchema, o, v, true))
  {
    var alter := AlterPlan(o, v, true, true);
    assert IsReadable(InSchema, o) <==> CanLead(o.schema);
    assert SchemasReadable(InSchema, o, v, true) ==> CanLead(o.schema);
    if alter == [] {
      NothingRequested(o, v);
      assert SchemasReadable(InSchema, o, v, true) <==> CanLead(o.schema) by { hide CanLead, IsRequested, FinalName; }
    }
    hide *;
    NamedIsPrinted();
    PlanIsReadable(InSchema, o, v, true, true);
    var plan := [st] + alter;
    assert plan[0] == st;
    assert forall x :: x in plan <==> x == st || x in alter;
  }

  lemma NothingRequested(o: ObjName, v: Form)
    requires AlterPlan(o, v, true, true) == []
    ensures !IsRequested(v, "newname")
  {
    hide Field, IsRequested;
    RequestedIsField(v, "newname", "");
    assert |AlterPlan(o, v, true, true)| >= |RenamePart(o.(schema := FinalSchema(o.schema, v, true)), v)|;
  }

  /** End to end for a sequence: with numbers for options, the joined script, split by the server's own
  splitter, read back and run, gives the sequence each setting, the owner, schema and name that were
  asked for; it fails exactly if a name is taken or a schema in front of a name is a reserved word. */
  lemma SequenceTextReachesRequested(cat: Catalog, v: Form)
    requires var o := ObjName(Field(v, "schema"), Field(v, "name")); o in cat && o.name != "" && cat[o].sequence.Some?
    requires OptionsAreNumbers(v) && SequencePlan(v) != [] && AllAscii(RenderPlan("SEQUENCE", InSchema, SequencePlan(v)))
    ensures var o := ObjName(Field(v, "schema"), Field(v, "name"));
            RunTexts("SEQUENCE", InSchema, cat, Split(JoinStatements(RenderPlan("SEQUENCE", InSchema, SequencePlan(v)))))
              == if NamesFree(cat, o, v, true) && SchemasReadable(InSchema, o, v, true)
                 then Some((cat - {o})[FinalName(o, v, true) := SequenceWanted(cat[o], v)]) else None
  {
    NumbersAreWords(v);
    hide *;
    SequenceScriptSplitsBack(v);
    SequencePlanIsReadable(v);
    assert InSchema != Bare;
    RunTextsIsRunPlan("SEQUENCE", InSchema, cat, SequencePlan(v));
    SequencePlanReachesRequested(cat, v);
  }

  lemma NumberIsOneWord(x: string)
    requires x == "" || Number(x).Some?
    ensures IsOneWord(x)
  {
    hide DigitsValue;
    if x != "" && (x[0] == '+' || x[0] == '-') {
      assert forall i | 1 <= i < |x| :: x[i] == x[1..][i - 1];
    }
  }

  lemma NumberFieldIsOneWord(v: Form, field: string)
    requires IsNumberField(v, field)
    ensures IsOneWord(Field(v, field))
  {
    RequestedIsField(v, field, "");
    assert IsRequested(v, field) ==> Field(v, field) == Trim(v[field]) by { hide Trim; }
    hide Field, IsOneWord, Number, Trim, IsRequested;
    NumberIsOneWord(Field(v, field));
  }

  lemma NumbersAreWords(v: Form)
    requires OptionsAreNumbers(v)
    ensures OptionsAreWords(v)
  {
    hide Field, IsOneWord, IsNumberField;
    NumberFieldIsOneWord(v, "increment");
    NumberFieldIsOneWord(v, "minvalue");
    NumberFieldIsOneWord(v, "maxvalue");
    NumberFieldIsOneWord(v, "restart");
    NumberFieldIsOneWord(v, "cache");
  }

  /** A form is accepted exactly if it names the sequence and asks for an option, an owner, a schema
  or a name. */
  lemma SequenceFormIsAccepted(v: Form)
    ensures SequenceScript(v).Ok? <==>
              && IsRequested(v, "name")
              && (AsksForOptions(v) || IsRequested(v, "owner") || IsRequested(v, "newschema") || IsRequested(v, "newname"))
    ensures SequenceScript(v).Err? ==>
              SequenceScript(v).message == if IsRequested(v, "name") then "No changes requested." else "Sequence name is required."
  {
    var o := ObjName(Field(v, "schema"), Field(v, "name"));
    SequencePlanIs(v);
    RequestedIsField(v, "name", "");
    RequestedIsField(v, "owner", "");
    RequestedIsField(v, "newschema", "");
    RequestedIsField(v, "newname", "");
    hide Field, IsRequested, AsksForOptions, SequencePlan, RenderPlan, JoinStatements;
    assert |SequencePlan(v)| >= |AlterPlan(o, v, true, true)|;
  }
}
