/** What can be granted on what, and which privilege forms make a script. */
module PrivilegeKinds {
  import opened Wrappers
  import opened GoStrings
  import opened SqlQuote
  import opened Numbers
  import opened Privileges
  import opened PrivilegeLaws
  import opened PrivilegeForms

  // ---- The object types of GRANT ------------------------------------------------------------

  /** The object types of GRANT that the editor knows. */
  datatype ObjectType = Database | Tablespace | Schema | Table | Sequence | Function | Procedure

  /** The type that the words behind ON name. */
  function TypeNamed(words: string): Option<ObjectType> {
    match words
    case "DATABASE" => Some(Database)
    case "TABLESPACE" => Some(Tablespace)
    case "SCHEMA" => Some(Schema)
    case "TABLE" => Some(Table)
    case "SEQUENCE" => Some(Sequence)
    case "FUNCTION" => Some(Function)
    case "PROCEDURE" => Some(Procedure)
    case _ => None
  }

  /** The privileges that GRANT allows on a type, as the PostgreSQL documentation of GRANT lists them
  (MAINTAIN, which came with version 17, the editor does not offer). */
  function Grantable(t: ObjectType): set<string> {
    match t
    case Database => {"CREATE", "CONNECT", "TEMPORARY"}
    case Tablespace => {"CREATE"}
    case Schema => {"CREATE", "USAGE"}
    case Table => {"SELECT", "INSERT", "UPDATE", "DELETE", "TRUNCATE", "REFERENCES", "TRIGGER"}
    case Sequence => {"USAGE", "SELECT", "UPDATE"}
    case Function => {"EXECUTE"}
    case Procedure => {"EXECUTE"}
  }

  predicate IsRoutine(t: ObjectType) {
    t == Function || t == Procedure
  }

  predicate IsInSchema(t: ObjectType) {
    t == Table || t == Sequence || IsRoutine(t)
  }

  predicate IsClusterWide(t: ObjectType) {
    t == Database || t == Tablespace
  }

  /** The type of what the editor's tree calls by this kind: GRANT knows all relations but sequences as tables. */
  function TypeOfKind(kind: string): Option<ObjectType> {
    if kind == "database" then Some(Database)
    else if kind == "tablespace" then Some(Tablespace)
    else if kind == "schema" then Some(Schema)
    else if kind in {"table", "view", "matview"} then Some(Table)
    else if kind == "sequence" then Some(Sequence)
    else if kind == "function" then Some(Function)
    else if kind == "procedure" then Some(Procedure)
    else None
  }

  /** The order in which the grid shows privileges, over all kinds. */
  function Place(p: string): nat {
    match p
    case "USAGE" => 1
    case "CONNECT" => 2
    case "CREATE" => 3
    case "TEMPORARY" => 4
    case "SELECT" => 5
    case "INSERT" => 6
    case "UPDATE" => 7
    case "DELETE" => 8
    case "TRUNCATE" => 9
    case "REFERENCES" => 10
    case "TRIGGER" => 11
    case _ => 12
  }

  predicate InOrder(privs: seq<string>) {
    forall i, j | 0 <= i < j < |privs| :: Place(privs[i]) < Place(privs[j])
  }

  /** Each kind is one of these types, under the words of its type, and offers each privilege that can
  be granted on the type, once and in order, and no other. */
  lemma KindIsGrantable(kind: string)
    ensures KindOf(kind).Some? <==> TypeOfKind(kind).Some?
    ensures KindOf(kind).Some? ==>
              var pk, t := KindOf(kind).value, TypeOfKind(kind).value;
              && TypeNamed(pk.keyword) == Some(t) && pk.server == IsClusterWide(t)
              && (forall p :: p in pk.privs <==> p in Grantable(t)) && InOrder(pk.privs)
  {
    KindHasType(kind);
    if KindOf(kind).Some? {
      KindHasPrivileges(kind);
      KindHasOrder(kind);
    }
    hide KindOf, TypeOfKind, Grantable, InOrder;
  }

  lemma KindHasType(kind: string)
    ensures KindOf(kind).Some? <==> TypeOfKind(kind).Some?
    ensures KindOf(kind).Some? ==>
              TypeNamed(KindOf(kind).value.keyword) == TypeOfKind(kind) && KindOf(kind).value.server == IsClusterWide(TypeOfKind(kind).value)
  {
  }

  lemma KindHasPrivileges(kind: string)
    requires KindOf(kind).Some? && TypeOfKind(kind).Some?
    ensures forall p :: p in KindOf(kind).value.privs <==> p in Grantable(TypeOfKind(kind).value)
  {
  }

  lemma KindHasOrder(kind: string)
    requires KindOf(kind).Some?
    ensures InOrder(KindOf(kind).value.privs)
  {
    TablePrivsInOrder();
  }

  lemma TablePrivsInOrder()
    ensures InOrder(TABLE_PRIVS)
  {
  }

  // ---- The name of the object ------------------------------------------------------------------

  predicate IsArgument(c: char) {
    'A' <= c <= 'Z' || 'a' <= c <= 'z' || '0' <= c <= '9' || c == '_' || c == ' ' || c == ',' || c == '.' || c == '"' || c == '[' || c == ']'
  }

  /** A name and an argument list without parentheses inside, with an even number of quotes in all. */
  ghost predicate IsSignature(name: string) {
    && multiset(name)['"'] % 2 == 0
    && exists n, args :: IsCall(name, n, args)
  }

  ghost predicate IsCall(name: string, n: string, args: string) {
    name == n + ("(" + args + ")") && '(' !in n && forall c | c in args :: IsArgument(c)
  }

  ghost predicate IsObjectName(t: ObjectType, schema: string, name: string) {
    name != "" && (IsRoutine(t) ==> IsSignature(name)) && (IsInSchema(t) ==> schema != "")
  }

  lemma {:induction false} QuotesAreCounted(s: string)
    ensures QuoteCount(s) == multiset(s)['"']
    decreases |s|
  {
    if s != "" {
      QuotesAreCounted(s[1..]);
      assert s == [s[0]] + s[1..];
    }
  }

  lemma SignatureParts(name: string, n: string, args: string)
    requires name == n + ("(" + args + ")") && '(' !in n
    ensures IndexOf(name, '(') == |n| && name[|n|..] == "(" + args + ")"
  {
    assert name[|n|] == '(';
    assert forall i | 0 <= i < |n| :: n[i] in n && name[i] == n[i];
  }

  lemma ArgumentsAlike(args: string)
    ensures IsRoutineArgs("(" + args + ")") <==> forall c | c in args :: IsArgument(c)
  {
    var s := "(" + args + ")";
    assert s[0] == '(' && s[|s| - 1] == ')';
    assert forall i | 0 <= i < |args| :: s[i + 1] == args[i] && args[i] in args && (IsRoutineArgChar(args[i]) <==> IsArgument(args[i]));
    if forall c | c in args :: IsArgument(c) {
      assert forall i | 1 <= i < |s| - 1 :: s[i] == args[i - 1] && args[i - 1] in args;
    }
  }

  /** The check in front of the builder accepts exactly these. */
  lemma SignatureIsChecked(name: string)
    ensures IsSignature(name) <==>
              IndexOf(name, '(') < |name| && IsRoutineArgs(name[IndexOf(name, '(')..]) && QuoteCount(name) % 2 == 0
  {
    QuotesAreCounted(name);
    hide QuoteCount, IndexOf, IsArgument, IsRoutineArgs, IsCall;
    if IsSignature(name) {
      var n, args :| IsCall(name, n, args);
      CallIsChecked(name, n, args);
    }
    if IndexOf(name, '(') < |name| && IsRoutineArgs(name[IndexOf(name, '(')..]) {
      var i := IndexOf(name, '(');
      CheckedParts(name, i);
      var n, args := name[..i], name[i..][1..|name| - i - 1];
      assert IsCall(name, n, args);
    }
  }

  lemma CallIsChecked(name: string, n: string, args: string)
    requires IsCall(name, n, args)
    ensures IndexOf(name, '(') < |name| && IsRoutineArgs(name[IndexOf(name, '(')..])
  {
    hide IsRoutineArgs, IsArgument, IndexOf;
    SignatureParts(name, n, args);
    ArgumentsAlike(args);
  }

  lemma CheckedParts(name: string, i: nat)
    requires i < |name| && i == IndexOf(name, '(') && IsRoutineArgs(name[i..])
    ensures |name| >= i + 2 && IsCall(name, name[..i], name[i..][1..|name| - i - 1])
  {
    var n, tail := name[..i], name[i..];
    assert '(' !in n;
    hide IsArgument, IndexOf, IsRoutineArgs, IsCall;
    assert name == n + tail;
    CallOf(n, tail);
  }

  lemma CallOf(n: string, tail: string)
    requires '(' !in n && IsRoutineArgs(tail)
    ensures IsCall(n + tail, n, tail[1..|tail| - 1])
  {
    Parenthesized(tail);
    hide IsArgument, IsRoutineArgs;
    ArgumentsAlike(tail[1..|tail| - 1]);
  }

  lemma Parenthesized(s: string)
    requires IsRoutineArgs(s)
    ensures s == "(" + s[1..|s| - 1] + ")"
  {
  }

  lemma TargetIsAccepted(pk: PrivKind, t: ObjectType, schema: string, name: string)
    requires TypeNamed(pk.keyword) == Some(t) && pk.server == IsClusterWide(t)
    ensures PrivTarget(pk, schema, name).Ok? <==> IsObjectName(t, schema, name)
  {
    SignatureIsChecked(name);
    hide IsSignature, IndexOf, IsRoutineArgs, QuoteCount, QuoteIdent, QualIdent, QualifiedRoutine;
  }

  // ---- Which forms are accepted ----------------------------------------------------------------

  /** A named row asks for something else than it was loaded with. */
  ghost predicate IsChanged(t: ObjectType, row: FormRow, orig: string) {
    row.grantee != "" && exists p :: p in Grantable(t) && StateOf(ParsePrivState(orig), p) != if p in row.privs then Some(p in row.opts) else None
  }

  lemma ChangedRow(pk: PrivKind, t: ObjectType, row: FormRow)
    requires forall p :: p in pk.privs <==> p in Grantable(t)
    ensures RowAgrees(pk, row) <==> !IsChanged(t, row, row.orig)
  {
    hide Grantable, ParsePrivState;
  }

  /** How many rows the form says it has; text that is no number says none. */
  function RowCount(form: PrivForm): int {
    if Number(form.count).Some? then Number(form.count).value else 0
  }

  /** A form is accepted exactly if its kind and the name of the object are as they must be, it says that
  it has at most 500 rows, and one of those, or the row of a new grantee, asks for a change. */
  lemma PrivilegeFormIsAccepted(form: PrivForm)
    ensures Script(form).Ok? <==>
              && TypeOfKind(form.kind).Some? && IsObjectName(TypeOfKind(form.kind).value, form.schema, form.name)
              && 0 <= RowCount(form) <= 500
              && var t := TypeOfKind(form.kind).value;
                 (exists i :: 0 <= i < |form.rows| && i < RowCount(form) && IsChanged(t, form.rows[i], form.rows[i].orig)) || IsChanged(t, form.added, "")
  {
    KindIsGrantable(form.kind);
    if KindOf(form.kind).Some? {
      var pk, t := KindOf(form.kind).value, TypeOfKind(form.kind).value;
      CountIs(form);
      hide KindOf, TypeOfKind, Grantable, Number, AtoiOrNearest, IsChanged, PrivTarget, IsObjectName;
      TargetIsAccepted(pk, t, form.schema, form.name);
      if PrivTarget(pk, form.schema, form.name).Ok? && 0 <= RowCount(form) <= 500 {
        NoChangesIffAgree(form);
        SomeRowChanged(form, pk, t);
        hide AllAgree, RowsToSql, RowCount, AllRows;
        OnlyNoChangesIsLeft(form);
      } else {
        hide AllAgree, RowsToSql, AllRows;
      }
    }
  }

  lemma CountIs(form: PrivForm)
    ensures CountAccepted(form) <==> 0 <= RowCount(form) <= 500
    ensures CountAccepted(form) ==> AtoiOrNearest(form.count) == RowCount(form)
  {
    hide Number;
  }

  lemma OnlyNoChangesIsLeft(form: PrivForm)
    requires KindOf(form.kind).Some? && PrivTarget(KindOf(form.kind).value, form.schema, form.name).Ok? && CountAccepted(form)
    ensures Script(form).Ok? <==> Script(form) != Err("No changes requested.")
  {
    hide KindOf, PrivTarget, RowsToSql, AllRows, CountAccepted;
  }

  lemma SomeRowChanged(form: PrivForm, pk: PrivKind, t: ObjectType)
    requires (forall p :: p in pk.privs <==> p in Grantable(t)) && 0 <= RowCount(form) == AtoiOrNearest(form.count)
    ensures AllAgree(pk, AllRows(form)) <==>
              !((exists i :: 0 <= i < |form.rows| && i < RowCount(form) && IsChanged(t, form.rows[i], form.rows[i].orig)) || IsChanged(t, form.added, ""))
  {
    hide Grantable, IsChanged, RowAgrees, RowCount, AtoiOrNearest, ParsePrivState;
    var all, n := AllRows(form), RowCount(form);
    AllRowsAt(form);
    hide AllRows;
    forall i | 0 <= i < |all| ensures RowAgrees(pk, all[i]) <==> !IsChanged(t, all[i], all[i].orig) {
      ChangedRow(pk, t, all[i]);
    }
    NamelessIsUnchanged(t);
    assert IsChanged(t, all[n], "") == IsChanged(t, form.added, "") by { NewRowAlike(t, form.added); }
    forall i | 0 <= i < n ensures i < |form.rows| ==> all[i] == form.rows[i]
                          ensures i >= |form.rows| ==> !IsChanged(t, all[i], all[i].orig) {
    }
  }

  lemma NamelessIsUnchanged(t: ObjectType)
    ensures !IsChanged(t, FormRow("", "", [], []), "")
  {
  }

  lemma NewRowAlike(t: ObjectType, row: FormRow)
    ensures IsChanged(t, row.(orig := ""), "") == IsChanged(t, row, "")
  {
    hide Grantable, ParsePrivState;
  }
}
