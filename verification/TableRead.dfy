/** The whole ALTER TABLE script as text: split, read back and run on a catalog of tables. */
module TableRead {
  import opened Wrappers
  import opened GoStrings
  import opened SqlQuote
  import opened SqlNames
  import opened ClosedSql
  import opened SplitStatements
  import opened SplitLaws
  import opened AlterObject
  import opened AlterTable
  import opened AlterTableLaws
  import opened ColumnRead

  // ---- The reader ---------------------------------------------------------------------------

  /** A statement about the table itself, or about one of its columns. */
  datatype TableStmt = Whole(st: AlterStmt) | OfColumn(o: ObjName, column: ColStmt)

  function ReadTable(text: string): Option<TableStmt> {
    match ReadAlter("TABLE", InSchema, text)
    case Some(st) => Some(Whole(st))
    case None => match ReadColumn(text) case None => None case Some((o, st)) => Some(OfColumn(o, st))
  }

  function StepDb(db: Db, st: TableStmt): Option<Db> {
    match st
    case Whole(st) => (match StepOn(db.cat, st) case None => None case Some(cat) => Some(db.(cat := cat)))
    case OfColumn(o, st) => StepTable(db, o, st)
  }

  /** Executes the statements a list of texts is read as; an unreadable one fails. */
  function RunTexts(db: Db, texts: seq<string>): Option<Db>
    decreases |texts|
  {
    if |texts| == 0 then Some(db)
    else
      match ReadTable(texts[0])
      case None => None
      case Some(st) =>
        match StepDb(db, st)
        case None => None
        case Some(next) => RunTexts(next, texts[1..])
  }

  lemma {:induction false} RunTextsConcat(db: Db, a: seq<string>, b: seq<string>)
    ensures RunTexts(db, a + b) == match RunTexts(db, a) case None => None case Some(mid) => RunTexts(mid, b)
    decreases |a|
  {
    hide ReadTable, StepDb;
    if |a| == 0 {
      assert a + b == b;
    } else {
      assert (a + b)[1..] == a[1..] + b;
      if ReadTable(a[0]).Some? && StepDb(db, ReadTable(a[0]).value).Some? {
        RunTextsConcat(StepDb(db, ReadTable(a[0]).value).value, a[1..], b);
      }
    }
  }

  // ---- The statements about the table -------------------------------------------------------------

  /** A printed statement about owner, schema or name is read as itself, or not at all. */
  lemma WholeReadsBack(st: AlterStmt)
    requires IsNamed(st.action)
    ensures ReadTable(RenderAlter("TABLE", InSchema, st)) == if IsReadable(InSchema, st.target) then Some(Whole(st)) else None
  {
    hide ReadHead, ReadAction, ActionText, RenderAlter, IsReadable, ReadColumn;
    ReadRendered("TABLE", InSchema, st);
    ActionReadsBack("TABLE", st.action);
    if !IsReadable(InSchema, st.target) {
      UnreadableIsNoColumn(st);
    }
  }

  lemma UnreadableIsNoColumn(st: AlterStmt)
    requires !IsReadable(InSchema, st.target)
    ensures ReadColumn(RenderAlter("TABLE", InSchema, st)) == None
  {
    hide QualIdent, ReadQual, ActionText, ReadColStmt, StopsIdent, CanLead, After;
    var tail := ActionText(st.action);
    TailStopsIdent(st.action);
    ReadQualIdent(st.target.schema, st.target.name, tail);
    AfterItself("ALTER TABLE ", QualIdent(st.target.schema, st.target.name) + tail);
    assert RenderAlter("TABLE", InSchema, st) == "ALTER TABLE " + (QualIdent(st.target.schema, st.target.name) + tail);
  }

  lemma {:induction false} RunPlanTexts(db: Db, plan: seq<AlterStmt>)
    requires forall st | st in plan :: IsNamed(st.action)
    ensures RunTexts(db, RenderPlan("TABLE", InSchema, plan))
         == if forall st | st in plan :: IsReadable(InSchema, st.target)
            then (match RunPlan(db.cat, plan) case None => None case Some(cat) => Some(db.(cat := cat)))
            else None
    decreases |plan|
  {
    hide ReadTable, RenderAlter, StepOn, IsReadable, IsNamed;
    if |plan| > 0 {
      assert plan[0] in plan && (forall st | st in plan[1..] :: st in plan) && (forall st | st in plan :: st == plan[0] || st in plan[1..]);
      WholeReadsBack(plan[0]);
      assert RenderPlan("TABLE", InSchema, plan)[1..] == RenderPlan("TABLE", InSchema, plan[1..]);
      if StepOn(db.cat, plan[0]).Some? {
        RunPlanTexts(db.(cat := StepOn(db.cat, plan[0]).value), plan[1..]);
      }
    }
  }

  // ---- The statements about its columns -----------------------------------------------------------

  lemma ColumnIsNoAction(st: ColStmt)
    ensures ReadAction("TABLE", ColText(st)) == None
  {
    hide QuoteIdent, ColumnDefText, ReadName;
    var s := ColText(st);
    assert s[1] == 'D' || s[1] == 'A' || (s[1] == 'R' && s[8] == 'C');
  }

  lemma ColumnIsNotWhole(o: ObjName, st: ColStmt)
    ensures ReadAlter("TABLE", InSchema, RenderColumn(o, st)) == None
  {
    hide ReadQual, QualIdent, ColText, ReadAction, StopsIdent, CanLead;
    ColumnIsNoAction(st);
    ColTextStops(st);
    ReadQualIdent(o.schema, o.name, ColText(st));
    AfterHead("ALTER TABLE ", QualIdent(o.schema, o.name), ColText(st));
    assert "ALTER " + "TABLE" + " " == "ALTER TABLE ";
  }

  lemma {:induction false} SingleLineConcat(a: string, b: string)
    ensures SingleLine(a + b) == SingleLine(a) + SingleLine(b)
  {
    if a == "" {
      assert a + b == b && SingleLine("") == "" by { BlankLine(); }
    } else {
      hide SingleLine, OneChar;
      SingleLineConcat(a[1..], b);
      assert (a + b)[0] == a[0] && (a + b)[1..] == a[1..] + b;
      SingleLineCons(a);
      SingleLineCons(a + b);
      var x, y, z := OneChar(a[0]), SingleLine(a[1..]), SingleLine(b);
      ConcatAssoc(x, y, z);
    }
  }

  function OneChar(c: char): string {
    if c == '\r' then "" else if c == '\n' then " " else [c]
  }

  lemma SingleLineCons(s: string)
    requires s != ""
    ensures SingleLine(s) == OneChar(s[0]) + SingleLine(s[1..])
  {
    assert s[..1] == [s[0]];
    var t := ReplaceAll(s, "\r", "");
    var u := ReplaceAll(s[1..], "\r", "");
    if s[0] == '\r' {
      assert t == u;
    } else {
      assert t == [s[0]] + u && t[..1] == [s[0]] && t[1..] == u;
    }
  }

  lemma {:induction false} SingleLineTwice(s: string)
    ensures SingleLine(SingleLine(s)) == SingleLine(s)
  {
    if s != "" {
      var x := OneChar(s[0]);
      SingleLineCons(s);
      SingleLineTwice(s[1..]);
      SingleLineConcat(x, SingleLine(s[1..]));
      OneCharTwice(s[0]);
    }
  }

  lemma OneCharTwice(c: char)
    ensures SingleLine(OneChar(c)) == OneChar(c)
  {
    if OneChar(c) != "" {
      SingleLineCons(OneChar(c));
    }
  }

  /** A text that does not end in a blank still does not on one line. */
  lemma SingleLineEnds(s: string)
    requires s != "" && !IsSpace(s[|s| - 1])
    ensures SingleLine(s) != "" && !IsSpace(SingleLine(s)[|SingleLine(s)| - 1])
  {
    var n := |s| - 1;
    assert s == s[..n] + [s[n]];
    hide SingleLine;
    SingleLineConcat(s[..n], [s[n]]);
    SingleLineCons([s[n]]);
    assert [s[n]][1..] == "" && SingleLine("") == "" by { BlankLine(); }
  }

  /** A new column is added alike whether its texts are on one line already or not. */
  lemma SameAddition(t: Table, st: ColStmt)
    requires IsMade(st)
    ensures StepColumn(t, AsRead(st)) == StepColumn(t, st)
  {
    if st.AddColumn? {
      var c := st.column;
      SingleLineTwice(c.typ);
      SingleLineTwice(c.def);
      SingleLineTwice(c.generated);
      BlankLine();
      hide SingleLine, HasColumn;
    }
  }

  lemma ColumnTextReadsBack(o: ObjName, st: ColStmt)
    requires o.name != "" && IsMade(st) && TypeStands(st)
    ensures ReadTable(RenderColumn(o, st)) == if CanLead(o.schema) then Some(OfColumn(o, AsRead(st))) else None
  {
    hide ReadAlter, ReadColumn, RenderColumn, CanLead, IsMade, TypeStands, AsRead;
    ColumnIsNotWhole(o, st);
    ColumnReadsBack(o, st);
  }

  lemma {:induction false} RunColumnTexts(db: Db, o: ObjName, sts: seq<ColStmt>)
    requires o.name != "" && forall st | st in sts :: IsMade(st) && TypeStands(st)
    ensures RunTexts(db, RenderColumns(o, sts)) == if sts == [] || CanLead(o.schema) then RunTable(db, o, sts) else None
    decreases |sts|
  {
    hide ReadTable, RenderColumn, IsMade, TypeStands, StepColumn, AsRead, CanLead;
    if |sts| > 0 {
      assert sts[0] in sts && (forall st | st in sts[1..] :: st in sts);
      ColumnTextReadsBack(o, sts[0]);
      assert RenderColumns(o, sts)[1..] == RenderColumns(o, sts[1..]);
      if o in db.cat && db.cat[o].oid in db.columns {
        SameAddition(db.columns[db.cat[o].oid], sts[0]);
      }
      if StepTable(db, o, sts[0]).Some? {
        RunColumnTexts(StepTable(db, o, sts[0]).value, o, sts[1..]);
      }
    }
  }

  // ---- The statements of a form ---------------------------------------------------------------------

  /** What was typed into the statement leaves the splitter where it found it, and it has no word
  that ends a type too early. */
  ghost predicate TypedWell(st: ColStmt) {
    match st
    case SetType(_, t) => Balanced(t)
    case SetDefault(_, d) => Balanced(d)
    case AddColumn(c) => Balanced(SingleLine(c.typ)) && Balanced(SingleLine(c.def)) && Balanced(SingleLine(c.generated)) && TypeStands(st)
    case _ => true
  }

  /** The typed text at the end of the statement, if there is any, ends in no blank. */
  predicate EndsWell(st: ColStmt) {
    match st
    case SetType(_, t) => EndsInText(t)
    case SetDefault(_, d) => EndsInText(d)
    case AddColumn(c) => EndsInText(SingleLine(c.typ)) && (c.def != "" ==> EndsInText(SingleLine(c.def)))
    case _ => true
  }

  predicate EndsInText(s: string) {
    s != "" && !IsSpace(s[|s| - 1])
  }

  lemma EntryEnds(list: seq<string>, i: nat)
    ensures At(list, i) != "" ==> EndsInText(At(list, i)) && EndsInText(SingleLine(At(list, i)))
  {
    if i < |list| {
      TrimParts(list[i]);
      if At(list, i) != "" {
        SingleLineEnds(At(list, i));
      }
    }
  }

  lemma RowIsMade(rows: Rows, i: nat)
    ensures forall st | st in RowPlan(rows, i) :: IsMade(st) && EndsWell(st)
  {
    EntryEnds(rows.types, i);
    EntryEnds(rows.defaults, i);
    hide At, SingleLine, EndsInText;
    assert forall st | st in TypePart(rows, i) + NullPart(rows, i) :: At(rows.names, i) != "" ==> IsMade(st) && EndsWell(st);
    assert forall st | st in DefaultPart(rows, i) + RenameColPart(rows, i) :: At(rows.names, i) != "" ==> IsMade(st) && EndsWell(st);
    hide TypePart, NullPart, DefaultPart, RenameColPart;
    if At(rows.drops, i) == "1" {
      hide EndsWell;
    }
  }

  lemma {:induction false} RowsAreMade(rows: Rows, n: nat)
    ensures forall st | st in RowPlans(rows, n) :: IsMade(st) && EndsWell(st)
  {
    hide RowPlan, IsMade, EndsWell;
    if n > 0 {
      RowsAreMade(rows, n - 1);
      RowIsMade(rows, n - 1);
    }
  }

  lemma AdditionIsMade(rows: NewRows, i: nat)
    requires var c := NewColumnAt(rows, i); NewColumnError(c).None? && !IsUntouched(c)
    ensures IsMade(AddColumn(NewColumnAt(rows, i))) && EndsWell(AddColumn(NewColumnAt(rows, i)))
  {
    EntryEnds(rows.types, i);
    EntryEnds(rows.defaults, i);
    hide At, SingleLine;
  }

  lemma {:induction false} AdditionsAreMade(rows: NewRows, n: nat)
    requires AddPlans(rows, n).Ok?
    ensures forall st | st in AddPlans(rows, n).value :: IsMade(st) && EndsWell(st)
  {
    hide NewColumnAt, NewColumnError, IsUntouched, IsMade, EndsWell;
    if n > 0 {
      AdditionsAreMade(rows, n - 1);
      if !IsUntouched(NewColumnAt(rows, n - 1)) {
        AdditionIsMade(rows, n - 1);
      }
    }
  }

  lemma PlanIsMade(rows: Rows, added: NewRows)
    requires ColumnPlan(rows, added).Ok?
    ensures forall st | st in ColumnPlan(rows, added).value :: IsMade(st) && EndsWell(st)
  {
    hide RowPlans, AddPlans, IsMade, EndsWell;
    RowsAreMade(rows, |rows.names|);
    AdditionsAreMade(added, |added.names|);
  }

  // ---- The script splits back -----------------------------------------------------------------------

  lemma BalancedThree(a: string, b: string, c: string)
    requires Balanced(a) && Balanced(b) && Balanced(c)
    ensures Balanced(a + b + c)
  {
    hide Balanced;
    BalancedConcat(a, b);
    BalancedConcat(a + b, c);
  }

  lemma ValueIsBalanced(c: NewColumn)
    requires Balanced(SingleLine(c.def)) && Balanced(SingleLine(c.generated))
    ensures Balanced(BehindType(c))
  {
    hide Balanced, SingleLine;
    BalancedEmpty();
    BalancedPlain(" NOT NULL");
    BalancedPlain(" GENERATED ALWAYS AS (");
    BalancedPlain(") STORED");
    BalancedPlain(" DEFAULT ");
    BalancedThree(" GENERATED ALWAYS AS (", SingleLine(c.generated), ") STORED");
    BalancedConcat(" DEFAULT ", SingleLine(c.def));
    BalancedConcat(if c.nullable == "NO" then " NOT NULL" else "", ValueText(c));
  }

  lemma DefinitionIsBalanced(c: NewColumn)
    requires TypedWell(AddColumn(c))
    ensures Balanced(ColumnDefText(c))
  {
    hide Balanced, SingleLine, QuoteIdent, BehindType, ColumnDefText, IsTypeText;
    DefinitionParts(c);
    BalancedPlain(" ");
    BalancedQuoteIdent(c.name);
    ValueIsBalanced(c);
    BalancedConcat(SingleLine(c.typ), BehindType(c));
    BalancedConcat(" ", SingleLine(c.typ) + BehindType(c));
    BalancedConcat(QuoteIdent(c.name), " " + (SingleLine(c.typ) + BehindType(c)));
  }

  lemma ChangeIsBalanced(st: ColStmt)
    requires IsChange(st) && TypedWell(st)
    ensures Balanced(ChangeText(st))
  {
    hide Balanced;
    BalancedPlain(" TYPE ");
    BalancedPlain(" SET DEFAULT ");
    BalancedPlain(" SET NOT NULL");
    BalancedPlain(" DROP NOT NULL");
    BalancedPlain(" DROP DEFAULT");
    if st.SetType? {
      BalancedConcat(" TYPE ", st.typ);
    }
    if st.SetDefault? {
      BalancedConcat(" SET DEFAULT ", st.def);
    }
  }

  lemma ColTextIsBalanced(st: ColStmt)
    requires TypedWell(st)
    ensures Balanced(ColText(st))
  {
    hide Balanced, QuoteIdent, ColumnDefText, ChangeText, TypedWell;
    BalancedPlain(" DROP COLUMN ");
    BalancedPlain(" ALTER COLUMN ");
    BalancedPlain(" RENAME COLUMN ");
    BalancedPlain(" TO ");
    BalancedPlain(" ADD COLUMN ");
    if st.AddColumn? {
      DefinitionIsBalanced(st.column);
      BalancedConcat(" ADD COLUMN ", ColumnDefText(st.column));
    } else {
      BalancedQuoteIdent(st.name);
    }
    if st.DropColumn? {
      BalancedConcat(" DROP COLUMN ", QuoteIdent(st.name));
    }
    if st.RenameColumn? {
      BalancedQuoteIdent(st.newName);
      BalancedThree(" RENAME COLUMN ", QuoteIdent(st.name), " TO ");
      BalancedConcat(" RENAME COLUMN " + QuoteIdent(st.name) + " TO ", QuoteIdent(st.newName));
    }
    if IsChange(st) {
      ConcatBehind(st, QuoteIdent(st.name));
      ChangeIsBalanced(st);
      BalancedConcat(QuoteIdent(st.name), ChangeText(st));
      BalancedConcat(" ALTER COLUMN ", QuoteIdent(st.name) + ChangeText(st));
    }
  }

  lemma TextBehind(a: string, b: string)
    requires EndsInText(b)
    ensures EndsInText(a + b)
  {
    assert (a + b)[|a + b| - 1] == b[|b| - 1];
  }

  lemma DefinitionEnds(c: NewColumn)
    requires EndsWell(AddColumn(c))
    ensures EndsInText(ColumnDefText(c))
  {
    hide SingleLine, QuoteIdent, EndsInText;
    var q, t := QuoteIdent(c.name), SingleLine(c.typ);
    DefinitionParts(c);
    if BehindType(c) == "" {
      assert t + "" == t;
    } else {
      ValueEnds(c);
      TextBehind(t, BehindType(c));
    }
    hide BehindType;
    TextBehind(" ", t + BehindType(c));
    TextBehind(q, " " + (t + BehindType(c)));
  }

  lemma ValueEnds(c: NewColumn)
    requires EndsWell(AddColumn(c)) && BehindType(c) != ""
    ensures EndsInText(BehindType(c))
  {
    hide SingleLine;
    var s := BehindType(c);
    assert c.generated == "" && c.def != "" ==> s[|s| - 1] == SingleLine(c.def)[|SingleLine(c.def)| - 1];
  }

  lemma ColTextEnds(st: ColStmt)
    requires EndsWell(st)
    ensures EndsInText(ColText(st))
  {
    hide SingleLine, Doubled;
    var q := if st.AddColumn? then "" else QuoteIdent(st.name);
    if st.AddColumn? {
      hide ColumnDefText, EndsInText;
      DefinitionEnds(st.column);
      TextBehind(" ADD COLUMN ", ColumnDefText(st.column));
    } else if st.SetType? {
      TextBehind(" ALTER COLUMN " + q + " TYPE ", st.typ);
    } else if st.SetDefault? {
      TextBehind(" ALTER COLUMN " + q + " SET DEFAULT ", st.def);
    }
  }

  lemma ColumnParts(o: ObjName, st: ColStmt)
    ensures RenderColumn(o, st) == "ALTER TABLE " + QualIdent(o.schema, o.name) + ColText(st) && IsPlain("ALTER TABLE ")
  {
    hide QualIdent, ColText;
  }

  lemma ColumnIsClosed(o: ObjName, st: ColStmt)
    requires TypedWell(st) && EndsWell(st)
    ensures Closed(RenderColumn(o, st))
  {
    hide *;
    var target, text := QualIdent(o.schema, o.name), ColText(st);
    ColumnParts(o, st);
    ColTextIsBalanced(st);
    ColTextEnds(st);
    BalancedPlain("ALTER TABLE ");
    BalancedQualIdent(o.schema, o.name);
    BalancedThree("ALTER TABLE ", target, text);
    StatementIsTrimmed(target, text);
    BalancedIsClosed("ALTER TABLE " + target + text);
  }

  lemma BalancedIsClosed(s: string)
    requires Balanced(s) && IsTrimmed(s)
    ensures Closed(s)
  {
  }

  lemma StatementIsTrimmed(target: string, text: string)
    requires EndsInText(text)
    ensures IsTrimmed("ALTER TABLE " + target + text)
  {
    TextBehind("ALTER TABLE " + target, text);
    assert ("ALTER TABLE " + target + text)[0] == 'A';
  }

  function TableTexts(o: ObjName, plan: seq<AlterStmt>, sts: seq<ColStmt>): seq<string> {
    RenderPlan("TABLE", InSchema, plan) + RenderColumns(o, sts)
  }

  /** The script splits back into its statements exactly if they are ASCII. */
  lemma TableScriptSplitsBack(o: ObjName, plan: seq<AlterStmt>, sts: seq<ColStmt>)
    requires TableTexts(o, plan, sts) != [] && (forall st | st in plan :: IsNamed(st.action))
    requires forall st | st in sts :: TypedWell(st) && EndsWell(st)
    ensures var texts := TableTexts(o, plan, sts);
            Split(JoinStatements(texts)) == texts <==> AllAscii(texts)
  {
    hide RenderAlter, RenderColumn, Closed, Split, JoinStatements, TypedWell, EndsWell;
    var texts := TableTexts(o, plan, sts);
    forall i | 0 <= i < |texts| ensures Closed(texts[i]) {
      if i < |plan| {
        assert plan[i] in plan;
        RenderAlterIsClosed("TABLE", InSchema, plan[i]);
      } else {
        assert sts[i - |plan|] in sts;
        ColumnIsClosed(o, sts[i - |plan|]);
      }
    }
    SplitJoinRoundTrip(texts);
  }

  // ---- End to end -----------------------------------------------------------------------------------

  /** The texts of the whole script do what its statements do, if no schema in front of a name is a
  reserved word. */
  lemma RunTableTexts(db: Db, o: ObjName, plan: seq<AlterStmt>, sts: seq<ColStmt>)
    requires o.name != "" && (forall st | st in plan :: IsNamed(st.action)) && (forall st | st in sts :: IsMade(st) && TypeStands(st))
    ensures RunTexts(db, TableTexts(o, plan, sts))
         == if (forall st | st in plan :: IsReadable(InSchema, st.target)) && (sts == [] || CanLead(o.schema))
            then RunScript(db, o, plan, sts) else None
  {
    hide RunTexts, RunPlan, RunTable, IsReadable, IsNamed, IsMade, TypeStands, CanLead, RenderPlan, RenderColumns;
    RunTextsConcat(db, RenderPlan("TABLE", InSchema, plan), RenderColumns(o, sts));
    RunPlanTexts(db, plan);
    if RunPlan(db.cat, plan).Some? {
      RunColumnTexts(db.(cat := RunPlan(db.cat, plan).value), o, sts);
    }
  }

  /** The table that a form is about. */
  function TableOf(v: Form): ObjName {
    ObjName(Field(v, "schema"), Field(v, "name"))
  }

  lemma ScriptIsJoined(v: Form, rows: Rows, added: NewRows)
    requires TableScript(v, rows, added).Ok?
    ensures var o := TableOf(v);
            && o.name != "" && ColumnPlan(rows, added).Ok?
            && TableTexts(o, AlterPlan(o, v, true, true), ColumnPlan(rows, added).value) != []
            && TableScript(v, rows, added).value == JoinStatements(TableTexts(o, AlterPlan(o, v, true, true), ColumnPlan(rows, added).value))
  {
    hide Field, AlterPlan, ColumnPlan, RenderPlan, RenderColumns, JoinStatements;
  }

  /** The old schema stands in front of every statement but a rename behind a move. */
  lemma SchemasOfScript(v: Form, sts: seq<ColStmt>)
    requires TableOf(v).name != ""
    ensures var o := TableOf(v);
            var plan := AlterPlan(o, v, true, true);
            && (forall st | st in plan :: IsNamed(st.action))
            && (plan != [] || sts != [] ==>
                  ((forall st | st in plan :: IsReadable(InSchema, st.target)) && (sts == [] || CanLead(o.schema))
                   <==> SchemasReadable(InSchema, o, v, true)))
  {
    var o := TableOf(v);
    PlanIsReadable(InSchema, o, v, true, true);
    assert AlterPlan(o, v, true, true) == [] ==> Field(v, "newname") == "" by { hide Field; }
    hide AlterPlan, IsReadable, CanLead, IsNamed, Field;
  }

  /** A script as the form makes it, split and run. */
  lemma SplitScriptRuns(db: Db, o: ObjName, plan: seq<AlterStmt>, sts: seq<ColStmt>)
    requires o.name != "" && TableTexts(o, plan, sts) != [] && (forall st | st in plan :: IsNamed(st.action))
    requires forall st | st in sts :: IsMade(st) && EndsWell(st) && TypedWell(st)
    requires AllAscii(TableTexts(o, plan, sts))
    ensures RunTexts(db, Split(JoinStatements(TableTexts(o, plan, sts))))
         == if (forall st | st in plan :: IsReadable(InSchema, st.target)) && (sts == [] || CanLead(o.schema))
            then RunScript(db, o, plan, sts) else None
  {
    assert forall st | st in sts :: TypeStands(st);
    hide *;
    TableScriptSplitsBack(o, plan, sts);
    RunTableTexts(db, o, plan, sts);
  }

  /** The form was filled from the table of that name. */
  ghost predicate FilledFromDb(db: Db, v: Form, rows: Rows) {
    && TableOf(v) in db.cat && db.cat[TableOf(v)].oid in db.columns
    && FilledFromTable(rows, db.columns[db.cat[TableOf(v)].oid]) && DistinctColumns(db.columns[db.cat[TableOf(v)].oid])
  }

  function FormTexts(v: Form, rows: Rows, added: NewRows): seq<string>
    requires ColumnPlan(rows, added).Ok?
  {
    TableTexts(TableOf(v), AlterPlan(TableOf(v), v, true, true), ColumnPlan(rows, added).value)
  }

  /** End to end: the joined script of an accepted form, split by the server's own splitter, read
  back and run on the catalog the form was filled from, gives the requested table; it fails exactly
  if a name is taken, a generated column is to have a default, the table is both moved and one of its
  columns touched, or a schema in front of a name is a reserved word. */
  lemma TableTextReaches(db: Db, v: Form, rows: Rows, added: NewRows)
    requires TableScript(v, rows, added).Ok? && FilledFromDb(db, v, rows)
    requires forall st | st in ColumnPlan(rows, added).value :: TypedWell(st)
    requires AllAscii(FormTexts(v, rows, added))
    ensures var o := TableOf(v);
            var sts := ColumnPlan(rows, added).value;
            var cols := db.columns[db.cat[o].oid];
            RunTexts(db, Split(TableScript(v, rows, added).value))
              == if NamesFree(db.cat, o, v, true) && ColumnsAllowed(rows, added, cols)
                    && (FinalName(o, v, true) == o || sts == []) && SchemasReadable(InSchema, o, v, true)
                 then Some(AfterScript(db, o, v, WantedTable(rows, added, cols)))
                 else None
  {
    hide Field, AlterPlan, ColumnPlan, TableTexts, TableScript, FilledFromTable, DistinctColumns, TypedWell, IsMade, EndsWell, IsNamed;
    hide IsReadable, CanLead, SchemasReadable, NamesFree, ColumnsAllowed, FinalName, AfterScript, WantedTable, RunTexts, RunScript, Split;
    hide JoinStatements, AllAscii;
    var o := TableOf(v);
    ScriptIsJoined(v, rows, added);
    var plan, sts := AlterPlan(o, v, true, true), ColumnPlan(rows, added).value;
    TextsOfNothing(o, plan, sts);
    PlanIsMade(rows, added);
    SchemasOfScript(v, sts);
    SplitScriptRuns(db, o, plan, sts);
    TableScriptReaches(db, v, rows, added);
  }

  lemma TextsOfNothing(o: ObjName, plan: seq<AlterStmt>, sts: seq<ColStmt>)
    ensures TableTexts(o, plan, sts) != [] <==> plan != [] || sts != []
  {
  }
}
