/** ALTER scripts for owner, schema and name, internal/web/ddl.go, with an interpreter
over a small catalog. */
module AlterObject {
  import opened Wrappers
  import opened GoStrings
  import opened SqlQuote
  import opened SqlNames
  import opened ClosedSql
  import opened SplitStatements
  import opened SequenceText

  /** A posted form: first value per field. */
  type Form = map<string, string>

  function Value(v: Form, field: string): string {
    if field in v then v[field] else ""
  }

  function Field(v: Form, field: string): string {
    Trim(Value(v, field))
  }

  /** Objects named on their own (tablespaces, publications) and in a schema. */
  datatype Naming = Bare | InSchema

  datatype ObjName = ObjName(schema: string, name: string)

  datatype Action = OwnerTo(owner: string) | SetSchema(schema: string) | RenameTo(name: string) | Options(text: string)

  datatype AlterStmt = AlterStmt(target: ObjName, action: Action)

  function Target(naming: Naming, o: ObjName): string {
    if naming.Bare? then QuoteIdent(o.name) else QualIdent(o.schema, o.name)
  }

  function ActionText(a: Action): string {
    match a
    case OwnerTo(owner) => " OWNER TO " + QuoteIdent(owner)
    case SetSchema(schema) => " SET SCHEMA " + QuoteIdent(schema)
    case RenameTo(name) => " RENAME TO " + QuoteIdent(name)
    case Options(text) => " " + text
  }

  function RenderAlter(kind: string, naming: Naming, st: AlterStmt): string {
    "ALTER " + kind + " " + Target(naming, st.target) + ActionText(st.action)
  }

  function RenderPlan(kind: string, naming: Naming, sts: seq<AlterStmt>): seq<string> {
    seq(|sts|, i requires 0 <= i < |sts| => RenderAlter(kind, naming, sts[i]))
  }

  // ---- The builders -------------------------------------------------------------------------

  /** The schema the object is in once the script has run. */
  function FinalSchema(schema: string, v: Form, hasSchema: bool): string {
    if hasSchema && Field(v, "newschema") != "" then Field(v, "newschema") else schema
  }

  function OwnerPart(o: ObjName, v: Form, hasOwner: bool): seq<AlterStmt> {
    if hasOwner && Field(v, "owner") != "" then [AlterStmt(o, OwnerTo(Field(v, "owner")))] else []
  }

  function SchemaPart(o: ObjName, v: Form, hasSchema: bool): seq<AlterStmt> {
    if hasSchema && Field(v, "newschema") != "" then [AlterStmt(o, SetSchema(Field(v, "newschema")))] else []
  }

  function RenamePart(o: ObjName, v: Form): seq<AlterStmt> {
    if Field(v, "newname") != "" then [AlterStmt(o, RenameTo(Field(v, "newname")))] else []
  }

  function AlterPlan(o: ObjName, v: Form, hasOwner: bool, hasSchema: bool): seq<AlterStmt> {
    OwnerPart(o, v, hasOwner) + SchemaPart(o, v, hasSchema) + RenamePart(o.(schema := FinalSchema(o.schema, v, hasSchema)), v)
  }

  /** alterOwnerSchemaRename */
  method AlterOwnerSchemaRename(kind: string, naming: Naming, schema: string, name: string, v: Form, hasOwner: bool, hasSchema: bool)
    returns (stmts: seq<string>)
    ensures stmts == RenderPlan(kind, naming, AlterPlan(ObjName(schema, name), v, hasOwner, hasSchema))
  {
    hide Field, RenderAlter;
    stmts := [];
    var target := ObjName(schema, name);
    if hasOwner {
      var owner := Field(v, "owner");
      if owner != "" {
        stmts := stmts + [RenderAlter(kind, naming, AlterStmt(target, OwnerTo(owner)))];
      }
    }
    var finalSchema := schema;
    if hasSchema {
      var ns := Field(v, "newschema");
      if ns != "" {
        stmts := stmts + [RenderAlter(kind, naming, AlterStmt(target, SetSchema(ns)))];
        finalSchema := ns;
      }
    }
    var nn := Field(v, "newname");
    if nn != "" {
      stmts := stmts + [RenderAlter(kind, naming, AlterStmt(ObjName(finalSchema, name), RenameTo(nn)))];
    }
  }

  // ---- The catalog -----------------------------------------------------------------------------

  /** What the catalog knows of an object: its identity, which no ALTER changes, its owner
  and, of a sequence, its settings. */
  datatype Entry = Entry(oid: nat, owner: string, sequence: Option<Settings>)

  type Catalog = map<ObjName, Entry>

  /** The object's name after one statement about it. */
  function Moved(o: ObjName, a: Action): ObjName {
    match a
    case SetSchema(schema) => o.(schema := schema)
    case RenameTo(name) => o.(name := name)
    case _ => o
  }

  /** The entry with the options of a text applied to it; only a sequence has any. */
  function WithOptions(e: Entry, text: string): Option<Entry> {
    if e.sequence.None? then None
    else
      match ApplyText(e.sequence.value, text)
      case None => None
      case Some(s) => Some(e.(sequence := Some(s)))
  }

  /** Executes a statement.  It fails if the target does not exist, a new name is taken or an option
  cannot be read; setting the schema an object is in already is no change. */
  function StepOn(cat: Catalog, st: AlterStmt): Option<Catalog> {
    if st.target !in cat then None
    else
      var e := cat[st.target];
      var moved := Moved(st.target, st.action);
      match st.action
      case OwnerTo(owner) => Some(cat[st.target := e.(owner := owner)])
      case Options(text) =>
        (match WithOptions(e, text)
         case None => None
         case Some(e) => Some(cat[st.target := e]))
      case SetSchema(_) =>
        if moved == st.target then Some(cat) else if moved in cat then None else Some((cat - {st.target})[moved := e])
      case RenameTo(_) =>
        if moved in cat then None else Some((cat - {st.target})[moved := e])
  }

  function RunPlan(cat: Catalog, sts: seq<AlterStmt>): Option<Catalog>
    decreases |sts|
  {
    if |sts| == 0 then Some(cat)
    else
      match StepOn(cat, sts[0])
      case None => None
      case Some(next) => RunPlan(next, sts[1..])
  }

  lemma {:induction false} RunPlanConcat(cat: Catalog, a: seq<AlterStmt>, b: seq<AlterStmt>)
    ensures RunPlan(cat, a + b) == match RunPlan(cat, a) case None => None case Some(mid) => RunPlan(mid, b)
    decreases |a|
  {
    if |a| == 0 {
      assert a + b == b;
    } else {
      assert (a + b)[1..] == a[1..] + b;
      if StepOn(cat, a[0]).Some? {
        RunPlanConcat(StepOn(cat, a[0]).value, a[1..], b);
      }
    }
  }

  lemma RunOne(cat: Catalog, st: AlterStmt)
    ensures RunPlan(cat, [st]) == StepOn(cat, st) && RunPlan(cat, []) == Some(cat)
  {
    assert [st][1..] == [];
  }

  /** What a field asks for: the trimmed text, or what there is already if it is blank or missing. */
  function Requested(v: Form, field: string, now: string): string {
    if field in v && Trim(v[field]) != "" then Trim(v[field]) else now
  }

  /** The object's name once the script has run. */
  function FinalName(o: ObjName, v: Form, hasSchema: bool): ObjName {
    ObjName(if hasSchema then Requested(v, "newschema", o.schema) else o.schema, Requested(v, "newname", o.name))
  }

  predicate IsRequested(v: Form, field: string) {
    field in v && Trim(v[field]) != ""
  }

  /** Whether the script goes through: neither the move nor the rename meets a taken name. */
  predicate NamesFree(cat: Catalog, o: ObjName, v: Form, hasSchema: bool) {
    var moved := o.(schema := FinalName(o, v, hasSchema).schema);
    && (moved == o || moved !in cat)
    && (IsRequested(v, "newname") ==> Trim(v["newname"]) != o.name && FinalName(o, v, hasSchema) !in cat)
  }

  function FinalEntry(e: Entry, v: Form, hasOwner: bool): Entry {
    if hasOwner then e.(owner := Requested(v, "owner", e.owner)) else e
  }

  lemma RequestedIsField(v: Form, field: string, now: string)
    ensures Requested(v, field, now) == if Field(v, field) != "" then Field(v, field) else now
    ensures IsRequested(v, field) <==> Field(v, field) != ""
  {
    TrimOfTrimmed("");
    hide Trim;
  }

  lemma FinalNameIs(o: ObjName, v: Form, hasSchema: bool)
    ensures FinalName(o, v, hasSchema) == ObjName(FinalSchema(o.schema, v, hasSchema), if Field(v, "newname") != "" then Field(v, "newname") else o.name)
  {
    hide Field, Requested;
    RequestedIsField(v, "newschema", o.schema);
    RequestedIsField(v, "newname", o.name);
  }

  lemma RunOwnerPart(cat: Catalog, o: ObjName, v: Form, hasOwner: bool)
    requires o in cat
    ensures RunPlan(cat, OwnerPart(o, v, hasOwner)) == Some(cat[o := FinalEntry(cat[o], v, hasOwner)])
  {
    hide Field, Requested;
    RequestedIsField(v, "owner", cat[o].owner);
    RunOne(cat, AlterStmt(o, OwnerTo(Field(v, "owner"))));
    assert cat[o := cat[o]] == cat;
  }

  lemma RunSchemaPart(cat: Catalog, o: ObjName, v: Form, hasSchema: bool)
    requires o in cat
    ensures var moved := o.(schema := FinalSchema(o.schema, v, hasSchema));
            RunPlan(cat, SchemaPart(o, v, hasSchema)) == if moved == o || moved !in cat then Some((cat - {o})[moved := cat[o]]) else None
  {
    hide Field;
    RunOne(cat, AlterStmt(o, SetSchema(Field(v, "newschema"))));
    assert (cat - {o})[o := cat[o]] == cat;
  }

  lemma RunRenamePart(cat: Catalog, o: ObjName, v: Form)
    requires o in cat
    ensures var nn := Field(v, "newname");
            RunPlan(cat, RenamePart(o, v)) == if nn == "" then Some(cat)
                                              else if o.(name := nn) in cat then None
                                              else Some((cat - {o})[o.(name := nn) := cat[o]])
  {
    hide Field;
    RunOne(cat, AlterStmt(o, RenameTo(Field(v, "newname"))));
  }

  /** Running the script on any catalog that has the object: it goes through exactly when
  the names it takes are free, and then the object has the requested schema, name and
  owner, keeps the rest, and every other object is as before. */
  lemma PlanReachesRequested(cat: Catalog, o: ObjName, v: Form, hasOwner: bool, hasSchema: bool)
    requires o in cat
    ensures RunPlan(cat, AlterPlan(o, v, hasOwner, hasSchema))
         == if NamesFree(cat, o, v, hasSchema) then Some((cat - {o})[FinalName(o, v, hasSchema) := FinalEntry(cat[o], v, hasOwner)]) else None
  {
    var moved := o.(schema := FinalSchema(o.schema, v, hasSchema));
    var e := FinalEntry(cat[o], v, hasOwner);
    var cat1 := cat[o := e];
    var nn := Field(v, "newname");
    FinalNameIs(o, v, hasSchema);
    RequestedIsField(v, "newname", o.name);
    assert Field(v, "newname") != "" ==> Field(v, "newname") == Trim(v["newname"]) by { hide Trim; RequestedIsField(v, "newname", o.name); }
    hide RunPlan, OwnerPart, SchemaPart, RenamePart, FinalSchema, FinalEntry, Field, FinalName, IsRequested, Requested, Trim;
    RunOwnerPart(cat, o, v, hasOwner);
    RunSchemaPart(cat1, o, v, hasSchema);
    RunPlanConcat(cat, OwnerPart(o, v, hasOwner) + SchemaPart(o, v, hasSchema), RenamePart(moved, v));
    RunPlanConcat(cat, OwnerPart(o, v, hasOwner), SchemaPart(o, v, hasSchema));
    assert cat1 - {o} == cat - {o};
    if moved == o || moved !in cat {
      var cat2 := (cat - {o})[moved := e];
      RunRenamePart(cat2, moved, v);
      assert cat2 - {moved} == cat - {o};
      MovedName(moved, o, nn);
    }
  }

  lemma MovedName(moved: ObjName, o: ObjName, nn: string)
    requires moved.name == o.name
    ensures moved.(name := nn) == moved <==> nn == o.name
    ensures nn != o.name ==> moved.(name := nn) != o
  {
  }

  // ---- The names in the text --------------------------------------------------------------------

  function NameAfter(o: ObjName, sts: seq<AlterStmt>): ObjName {
    if |sts| == 0 then o else Moved(NameAfter(o, sts[..|sts| - 1]), sts[|sts| - 1].action)
  }

  /** Every statement is about the object under the name it has by then. */
  ghost predicate NamesCurrent(o: ObjName, sts: seq<AlterStmt>) {
    forall k :: 0 <= k < |sts| ==> sts[k].target == NameAfter(o, sts[..k])
  }

  lemma NamesCurrentSnoc(o: ObjName, sts: seq<AlterStmt>, st: AlterStmt)
    requires NamesCurrent(o, sts) && st.target == NameAfter(o, sts)
    ensures NamesCurrent(o, sts + [st]) && NameAfter(o, sts + [st]) == Moved(st.target, st.action)
  {
    hide NameAfter;
    assert (sts + [st])[..|sts|] == sts;
    forall k | 0 <= k < |sts| ensures (sts + [st])[..k] == sts[..k] {
    }
    assert NameAfter(o, sts + [st]) == Moved(NameAfter(o, sts), st.action) by { NameAfterSnoc(o, sts, st); }
  }

  lemma NameAfterSnoc(o: ObjName, sts: seq<AlterStmt>, st: AlterStmt)
    ensures NameAfter(o, sts + [st]) == Moved(NameAfter(o, sts), st.action)
  {
    assert (sts + [st])[..|sts|] == sts;
  }

  lemma NothingIsCurrent(o: ObjName)
    ensures NamesCurrent(o, []) && NameAfter(o, []) == o
  {
  }

  lemma AlterPlanNamesCurrent(o: ObjName, v: Form, hasOwner: bool, hasSchema: bool, before: seq<AlterStmt>)
    requires NamesCurrent(o, before) && NameAfter(o, before) == o
    ensures NamesCurrent(o, before + AlterPlan(o, v, hasOwner, hasSchema))
    ensures NameAfter(o, before + AlterPlan(o, v, hasOwner, hasSchema)) == FinalName(o, v, hasSchema)
  {
    FinalNameIs(o, v, hasSchema);
    hide Field, NamesCurrent, NameAfter, FinalName;
    var a, b := OwnerPart(o, v, hasOwner), SchemaPart(o, v, hasSchema);
    var moved := o.(schema := FinalSchema(o.schema, v, hasSchema));
    if a != [] {
      NamesCurrentSnoc(o, before, a[0]);
    }
    assert before + [] == before && before + a + [] == before + a && before + a + b + [] == before + a + b;
    if b != [] {
      NamesCurrentSnoc(o, before + a, b[0]);
    }
    if RenamePart(moved, v) != [] {
      NamesCurrentSnoc(o, before + a + b, RenamePart(moved, v)[0]);
    }
    assert before + AlterPlan(o, v, hasOwner, hasSchema) == before + a + b + RenamePart(moved, v);
  }

  /** The object named in the text of an ALTER statement, and the text behind it. */
  function ReadHead(kind: string, naming: Naming, text: string): Option<(ObjName, string)> {
    var head := "ALTER " + kind + " ";
    if !(head <= text) then None
    else if naming.Bare? then
      match ReadIdent(text[|head|..])
      case None => None
      case Some((name, rest)) => Some((ObjName("", name), rest))
    else
      match ReadQual(text[|head|..])
      case None => None
      case Some(((schema, name), rest)) => Some((ObjName(schema, name), rest))
  }

  function ReadTarget(kind: string, naming: Naming, text: string): Option<ObjName> {
    match ReadHead(kind, naming, text)
    case None => None
    case Some((o, _)) => Some(o)
  }

  lemma AfterHead(head: string, target: string, tail: string)
    ensures head <= head + target + tail && (head + target + tail)[|head|..] == target + tail
  {
    assert head + target + tail == head + (target + tail);
  }

  lemma TailStopsIdent(a: Action)
    ensures StopsIdent(ActionText(a))
  {
    hide QuoteIdent, Join;
  }

  /** A name that reads back as printed: in front of everything a schema must be no reserved word. */
  predicate IsReadable(naming: Naming, o: ObjName) {
    o.name != "" && if naming.Bare? then o.schema == "" else CanLead(o.schema)
  }

  lemma ReadRendered(kind: string, naming: Naming, st: AlterStmt)
    requires naming.Bare? ==> st.target.schema == ""
    ensures ReadHead(kind, naming, RenderAlter(kind, naming, st))
         == if IsReadable(naming, st.target) then Some((st.target, ActionText(st.action))) else None
    ensures ReadTarget(kind, naming, RenderAlter(kind, naming, st)) == if IsReadable(naming, st.target) then Some(st.target) else None
  {
    hide ReadIdent, ReadQual, QuoteIdent, QualIdent, ActionText, StopsIdent, CanLead;
    var tail := ActionText(st.action);
    TailStopsIdent(st.action);
    ReadQuoteIdent(st.target.name, tail);
    ReadQualIdent(st.target.schema, st.target.name, tail);
    AfterHead("ALTER " + kind + " ", Target(naming, st.target), tail);
  }

  lemma RenderedNamesCurrent(kind: string, naming: Naming, o: ObjName, plan: seq<AlterStmt>, k: nat)
    requires NamesCurrent(o, plan) && k < |plan|
    requires naming.Bare? ==> plan[k].target.schema == ""
    ensures var now := NameAfter(o, plan[..k]);
            ReadTarget(kind, naming, RenderPlan(kind, naming, plan)[k]) == if IsReadable(naming, now) then Some(now) else None
  {
    hide RenderAlter, ReadTarget, NameAfter, IsReadable;
    ReadRendered(kind, naming, plan[k]);
  }

  lemma BarePlan(o: ObjName, v: Form, hasOwner: bool)
    requires o.schema == ""
    ensures forall st | st in AlterPlan(o, v, hasOwner, false) :: st.target.schema == ""
  {
    hide Field;
  }

  /** In the text itself: each statement names the object by the schema and name it has at
  that point of the script, whatever characters those names are made of, unless its schema is a
  reserved word: then the text is no statement. */
  lemma ScriptNamesCurrentObject(kind: string, naming: Naming, o: ObjName, v: Form, hasOwner: bool, hasSchema: bool, k: nat)
    requires naming.Bare? ==> o.schema == "" && !hasSchema
    requires k < |AlterPlan(o, v, hasOwner, hasSchema)|
    ensures var plan := AlterPlan(o, v, hasOwner, hasSchema);
            var now := NameAfter(o, plan[..k]);
            ReadTarget(kind, naming, RenderPlan(kind, naming, plan)[k]) == if IsReadable(naming, now) then Some(now) else None
  {
    hide IsReadable, AlterPlan, RenderPlan, ReadTarget, NameAfter, NamesCurrent, FinalName;
    var plan := AlterPlan(o, v, hasOwner, hasSchema);
    if naming.Bare? {
      BarePlan(o, v, hasOwner);
      assert plan[k] in plan;
    }
    NothingIsCurrent(o);
    AlterPlanNamesCurrent(o, v, hasOwner, hasSchema, []);
    assert [] + plan == plan;
    RenderedNamesCurrent(kind, naming, o, plan, k);
  }

  // ---- The script as text --------------------------------------------------------------------------

  lemma TargetIsBalanced(naming: Naming, o: ObjName)
    ensures Balanced(Target(naming, o))
  {
    hide Balanced;
    BalancedQuoteIdent(o.name);
    BalancedQualIdent(o.schema, o.name);
  }

  lemma ActionIsBalanced(a: Action)
    requires !a.Options?
    ensures Balanced(ActionText(a)) && !IsSpace(ActionText(a)[|ActionText(a)| - 1])
  {
    var x := match a case OwnerTo(x) => x case SetSchema(x) => x case RenameTo(x) => x;
    var words := match a case OwnerTo(_) => " OWNER TO " case SetSchema(_) => " SET SCHEMA " case RenameTo(_) => " RENAME TO ";
    hide Balanced;
    BalancedPlain(words);
    BalancedQuoteIdent(x);
    BalancedConcat(words, QuoteIdent(x));
  }

  lemma EndsTrimmed(a: string, b: string)
    requires a != "" && !IsSpace(a[0]) && b != "" && !IsSpace(b[|b| - 1])
    ensures IsTrimmed(a + b)
  {
    assert (a + b)[|a + b| - 1] == b[|b| - 1];
  }

  /** A statement about owner, schema or name is closed, for any names. */
  lemma RenderAlterIsClosed(kind: string, naming: Naming, st: AlterStmt)
    requires IsPlain(kind) && !st.action.Options?
    ensures Closed(RenderAlter(kind, naming, st))
  {
    var head, target, text := "ALTER " + kind + " ", Target(naming, st.target), ActionText(st.action);
    assert IsPlain(head) && head[0] == 'A';
    TargetIsBalanced(naming, st.target);
    ActionIsBalanced(st.action);
    hide Balanced, Target, ActionText, IsPlain;
    BalancedPlain(head);
    BalancedConcat(head, target);
    BalancedConcat(head + target, text);
    EndsTrimmed(head + target, text);
  }

  /** The script for owner, schema and name splits back into its statements, exactly when
  they are ASCII. */
  lemma AlterScriptSplitsBack(kind: string, naming: Naming, o: ObjName, v: Form, hasOwner: bool, hasSchema: bool)
    requires IsPlain(kind) && AlterPlan(o, v, hasOwner, hasSchema) != []
    ensures var stmts := RenderPlan(kind, naming, AlterPlan(o, v, hasOwner, hasSchema));
            Split(JoinStatements(stmts)) == stmts <==> AllAscii(stmts)
  {
    var plan := AlterPlan(o, v, hasOwner, hasSchema);
    assert forall i | 0 <= i < |plan| :: !plan[i].action.Options? by { hide Field; }
    hide AlterPlan, RenderAlter, Closed, JoinStatements, Split;
    forall i | 0 <= i < |plan| ensures Closed(RenderAlter(kind, naming, plan[i])) {
      RenderAlterIsClosed(kind, naming, plan[i]);
    }
    SplitJoinRoundTrip(RenderPlan(kind, naming, plan));
  }

  // ---- The script, read back and run ------------------------------------------------------------------

  /** What the text behind the name asks for; options are those of a sequence. */
  function ReadAction(kind: string, s: string): Option<Action> {
    if " OWNER TO " <= s then
      match ReadName(s[|" OWNER TO "|..]) case None => None case Some(x) => Some(OwnerTo(x))
    else if " SET SCHEMA " <= s then
      match ReadName(s[|" SET SCHEMA "|..]) case None => None case Some(x) => Some(SetSchema(x))
    else if " RENAME TO " <= s then
      match ReadName(s[|" RENAME TO "|..]) case None => None case Some(x) => Some(RenameTo(x))
    else if kind == "SEQUENCE" && " " <= s then Some(Options(s[1..]))
    else None
  }

  /** The statement that a text is. */
  function ReadAlter(kind: string, naming: Naming, text: string): Option<AlterStmt> {
    match ReadHead(kind, naming, text)
    case None => None
    case Some((o, rest)) =>
      match ReadAction(kind, rest)
      case None => None
      case Some(a) => Some(AlterStmt(o, a))
  }

  lemma ReadWhole(words: string, x: string)
    ensures words <= words + QuoteIdent(x) && ReadName((words + QuoteIdent(x))[|words|..]) == if x == "" then None else Some(x)
  {
    hide ReadIdent, QuoteIdent;
    ReadQuoteIdent(x, "");
    assert QuoteIdent(x) + "" == QuoteIdent(x);
    assert (words + QuoteIdent(x))[|words|..] == QuoteIdent(x);
  }

  /** The new owner, schema or name is not empty. */
  predicate IsNamed(a: Action) {
    match a
    case OwnerTo(x) => x != ""
    case SetSchema(x) => x != ""
    case RenameTo(x) => x != ""
    case Options(_) => false
  }

  predicate IsOptionText(text: string) {
    |text| >= 3 && text[0] != 'O' && text[0] != 'S' && (text[0] == 'R' ==> text[2] == 'S')
  }

  predicate IsPrinted(kind: string, a: Action) {
    IsNamed(a) || (kind == "SEQUENCE" && a.Options? && IsOptionText(a.text))
  }

  lemma ActionReadsBack(kind: string, a: Action)
    requires IsPrinted(kind, a)
    ensures ReadAction(kind, ActionText(a)) == Some(a)
  {
    hide ReadName, QuoteIdent;
    match a {
      case OwnerTo(x) => ReadWhole(" OWNER TO ", x);
      case SetSchema(x) =>
        ReadWhole(" SET SCHEMA ", x);
        assert ActionText(a)[1] == 'S';
      case RenameTo(x) =>
        ReadWhole(" RENAME TO ", x);
        assert ActionText(a)[1] == 'R';
      case Options(text) => assert ActionText(a)[1] == text[0] && ActionText(a)[3] == text[2] && ActionText(a)[1..] == text;
    }
  }

  /** Executes the statements a list of texts is read as; an unreadable one fails. */
  function RunTexts(kind: string, naming: Naming, cat: Catalog, texts: seq<string>): Option<Catalog>
    decreases |texts|
  {
    if |texts| == 0 then Some(cat)
    else
      match ReadAlter(kind, naming, texts[0])
      case None => None
      case Some(st) =>
        match StepOn(cat, st)
        case None => None
        case Some(next) => RunTexts(kind, naming, next, texts[1..])
  }

  /** The texts of a plan do what the plan does, if every name in front of them can be read. */
  lemma {:induction false} RunTextsIsRunPlan(kind: string, naming: Naming, cat: Catalog, plan: seq<AlterStmt>)
    requires forall st | st in plan :: IsPrinted(kind, st.action) && (naming.Bare? ==> st.target.schema == "")
    ensures RunTexts(kind, naming, cat, RenderPlan(kind, naming, plan))
         == if forall st | st in plan :: IsReadable(naming, st.target) then RunPlan(cat, plan) else None
    decreases |plan|
  {
    hide ReadHead, ReadAction, ActionText, RenderAlter, StepOn, IsReadable, IsPrinted;
    if |plan| > 0 {
      assert plan[0] in plan && (forall st | st in plan[1..] :: st in plan) && (forall st | st in plan :: st == plan[0] || st in plan[1..]);
      ReadRendered(kind, naming, plan[0]);
      ActionReadsBack(kind, plan[0].action);
      assert RenderPlan(kind, naming, plan)[1..] == RenderPlan(kind, naming, plan[1..]);
      if StepOn(cat, plan[0]).Some? {
        RunTextsIsRunPlan(kind, naming, StepOn(cat, plan[0]).value, plan[1..]);
      }
    }
  }

  /** No statement of the script names the object by a schema that is a reserved word: the old
  one is in all statements up to the move, the new one in a rename. */
  predicate SchemasReadable(naming: Naming, o: ObjName, v: Form, hasSchema: bool) {
    naming.Bare? || (CanLead(o.schema) && (IsRequested(v, "newname") ==> CanLead(FinalName(o, v, hasSchema).schema)))
  }

  lemma PlanIsReadable(naming: Naming, o: ObjName, v: Form, hasOwner: bool, hasSchema: bool)
    requires o.name != "" && (naming.Bare? ==> o.schema == "" && !hasSchema)
    ensures var plan := AlterPlan(o, v, hasOwner, hasSchema);
            && (forall st | st in plan :: IsNamed(st.action) && (naming.Bare? ==> st.target.schema == ""))
            && (plan != [] ==> ((forall st | st in plan :: IsReadable(naming, st.target)) <==> SchemasReadable(naming, o, v, hasSchema)))
  {
    FinalNameIs(o, v, hasSchema);
    RequestedIsField(v, "newname", o.name);
    hide Field, CanLead, FinalName, IsRequested;
    var plan := AlterPlan(o, v, hasOwner, hasSchema);
    var a, b, c := OwnerPart(o, v, hasOwner), SchemaPart(o, v, hasSchema), RenamePart(o.(schema := FinalSchema(o.schema, v, hasSchema)), v);
    assert plan == a + b + c;
    assert forall st :: st in plan <==> st in a || st in b || st in c;
    if c != [] {
      assert c[0] in plan;
    }
    if a != [] {
      assert a[0] in plan;
    }
    if b != [] {
      assert b[0] in plan;
    }
  }

  /** End to end: the joined script, split by the server's own splitter, read back and run,
  does what was requested, whatever characters the names are made of; it fails exactly if a
  name is taken or a schema in front of a name is a reserved word. */
  lemma ScriptTextReachesRequested(kind: string, naming: Naming, cat: Catalog, o: ObjName, v: Form, hasOwner: bool, hasSchema: bool)
    requires IsPlain(kind) && o in cat && o.name != "" && (naming.Bare? ==> o.schema == "" && !hasSchema)
    requires AlterPlan(o, v, hasOwner, hasSchema) != []
    requires AllAscii(RenderPlan(kind, naming, AlterPlan(o, v, hasOwner, hasSchema)))
    ensures RunTexts(kind, naming, cat, Split(JoinStatements(RenderPlan(kind, naming, AlterPlan(o, v, hasOwner, hasSchema)))))
         == if NamesFree(cat, o, v, hasSchema) && SchemasReadable(naming, o, v, hasSchema)
            then Some((cat - {o})[FinalName(o, v, hasSchema) := FinalEntry(cat[o], v, hasOwner)]) else None
  {
    var plan := AlterPlan(o, v, hasOwner, hasSchema);
    assert forall st | st in plan && IsNamed(st.action) :: IsPrinted(kind, st.action) by { hide IsNamed; }
    hide *;
    PlanIsReadable(naming, o, v, hasOwner, hasSchema);
    AlterScriptSplitsBack(kind, naming, o, v, hasOwner, hasSchema);
    RunTextsIsRunPlan(kind, naming, cat, plan);
    PlanReachesRequested(cat, o, v, hasOwner, hasSchema);
  }

  // ---- A schema named like a reserved word --------------------------------------------------------

  const USER_FORM: Form := map["owner" := "o"]

  lemma UserFormPlan()
    ensures AlterPlan(ObjName("user", "t"), USER_FORM, true, true) == [AlterStmt(ObjName("user", "t"), OwnerTo("o"))]
  {
    TrimOfTrimmed("o");
    TrimOfTrimmed("");
    assert Field(USER_FORM, "owner") == "o" && Field(USER_FORM, "newschema") == "" && Field(USER_FORM, "newname") == "";
  }

  /** A view in such a schema cannot be given another owner: quoteIfNeeded leaves the schema
  unquoted, and the statement is none, though nothing it takes is taken. */
  lemma ReservedSchemaFails(cat: Catalog)
    requires ObjName("user", "t") in cat
    ensures var o := ObjName("user", "t");
            var plan := AlterPlan(o, USER_FORM, true, true);
            NamesFree(cat, o, USER_FORM, true) && RunPlan(cat, plan).Some? && RunTexts("VIEW", InSchema, cat, RenderPlan("VIEW", InSchema, plan)) == None
  {
    var o := ObjName("user", "t");
    var st := AlterStmt(o, OwnerTo("o"));
    UserFormPlan();
    ReservedWordCannotLead();
    TrimOfTrimmed("");
    assert NamesFree(cat, o, USER_FORM, true) by { assert Field(USER_FORM, "newschema") == "" && Field(USER_FORM, "newname") == ""; }
    assert st in [st] && !IsReadable(InSchema, st.target) && IsPrinted("VIEW", st.action);
    hide *;
    PlanReachesRequested(cat, o, USER_FORM, true, true);
    PlanIsReadable(InSchema, o, USER_FORM, true, true);
    RunTextsIsRunPlan("VIEW", InSchema, cat, [st]);
  }
}
