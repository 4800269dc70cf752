/** The privilege script as text: closed statements that split back as they were built. */
module PrivilegeText {
  import opened Wrappers
  import opened GoStrings
  import opened SqlQuote
  import opened SqlNames
  import opened ClosedSql
  import opened SplitStatements
  import opened SplitLaws
  import opened Privileges
  import opened PrivilegeLaws
  import opened PrivilegeForms

  lemma PrivListIsBalanced(privs: seq<string>)
    requires forall p | p in privs :: IsWord(p)
    ensures Balanced(Join(privs, ", "))
  {
    hide Balanced;
    BalancedPlain(", ");
    forall i | 0 <= i < |privs| ensures Balanced(privs[i]) {
      assert privs[i] in privs;
      BalancedPlain(privs[i]);
    }
    BalancedJoin(privs, ", ");
  }

  lemma GranteeIsClosed(g: string)
    ensures Closed(GranteeSql(g))
  {
    if g == "PUBLIC" {
      BalancedPlain(g);
    } else {
      BalancedQuoteIdent(g);
    }
  }

  /** Grantees are told apart by their text. */
  lemma GranteeSqlIsInjective(a: string, b: string)
    ensures GranteeSql(a) == GranteeSql(b) ==> a == b
  {
    assert QuoteIdent(a)[0] == '"' && QuoteIdent(b)[0] == '"';
    ReadQuotedOf(a, '"', "");
    ReadQuotedOf(b, '"', "");
    assert QuoteIdent(a)[1..] == Doubled(a, '"') + ['"'] + "" && QuoteIdent(b)[1..] == Doubled(b, '"') + ['"'] + "";
  }

  function Head(v: Verb): string {
    match v
    case Revoke => "REVOKE "
    case RevokeOption => "REVOKE GRANT OPTION FOR "
    case Grant => "GRANT "
    case GrantWithOption => "GRANT "
  }

  function Preposition(v: Verb): string {
    if v.Revoke? || v.RevokeOption? then " FROM " else " TO "
  }

  function Tail(v: Verb): string {
    if v.GrantWithOption? then " WITH GRANT OPTION" else ""
  }

  lemma RenderedParts(c: Change, target: string, grantee: string)
    ensures RenderChange(c, target, grantee)
         == Head(c.verb) + Join(c.privs, ", ") + " ON " + target + Preposition(c.verb) + grantee + Tail(c.verb)
  {
  }

  lemma RenderIsClosed(c: Change, target: string, grantee: string)
    requires forall p | p in c.privs :: IsWord(p)
    requires Balanced(target) && Closed(grantee)
    ensures Closed(RenderChange(c, target, grantee))
  {
    hide Balanced, Join, RenderChange, IsTrimmed;
    RenderedParts(c, target, grantee);
    PrivListIsBalanced(c.privs);
    RenderIsTrimmed(c, target, grantee);
    BalancedPlain(Head(c.verb));
    BalancedPlain(" ON ");
    BalancedPlain(Preposition(c.verb));
    BalancedPlain(Tail(c.verb));
    BalancedSeven(Head(c.verb), Join(c.privs, ", "), " ON ", target, Preposition(c.verb), grantee, Tail(c.verb));
  }

  lemma RenderIsTrimmed(c: Change, target: string, grantee: string)
    requires IsTrimmed(grantee)
    ensures IsTrimmed(RenderChange(c, target, grantee))
  {
    var r := RenderChange(c, target, grantee);
    hide Join;
    assert r[0] == Head(c.verb)[0];
    assert r[|r| - 1] == if c.verb.GrantWithOption? then 'N' else grantee[|grantee| - 1];
  }

  lemma TargetIsBalanced(kind: string, schema: string, name: string)
    requires KindOf(kind).Some? && !IsRoutineKind(KindOf(kind).value)
    ensures PrivTarget(KindOf(kind).value, schema, name).Ok? ==> Balanced(PrivTarget(KindOf(kind).value, schema, name).value)
  {
    var pk := KindOf(kind).value;
    assert IsPlain(pk.keyword + " ");
    hide Balanced, QuoteIdent, QualIdent, KindOf;
    BalancedPlain(pk.keyword + " ");
    BalancedQuoteIdent(name);
    BalancedQualIdent(schema, name);
    BalancedConcat(pk.keyword + " ", QuoteIdent(name));
    BalancedConcat(pk.keyword + " ", QualIdent(schema, name));
  }

  /** Every statement of the script stands for itself, whatever the names in it. */
  lemma {:induction false} RowsAreClosed(pk: PrivKind, target: string, rows: seq<FormRow>)
    requires HasPrivNames(pk) && Balanced(target)
    ensures forall s | s in RowsToSql(pk, target, rows) :: Closed(s)
  {
    hide Closed, Balanced;
    if |rows| > 0 {
      var row := rows[|rows| - 1];
      RowsAreClosed(pk, target, rows[..|rows| - 1]);
      RowIsClosed(pk, target, row);
      hide RenderChanges, RowChanges, GranteeSql;
    }
  }

  lemma RowIsClosed(pk: PrivKind, target: string, row: FormRow)
    requires HasPrivNames(pk) && Balanced(target)
    ensures forall s | s in RenderChanges(RowChanges(pk, row), target, GranteeSql(row.grantee)) :: Closed(s)
  {
    hide Closed, Balanced, RenderChange, Diff, ParsePrivState, Ticked, IsWord, GranteeSql;
    GranteeIsClosed(row.grantee);
    DiffShape(pk.privs, ParsePrivState(row.orig), Ticked(pk, row));
    var cs := RowChanges(pk, row);
    forall i | 0 <= i < |cs| ensures Closed(RenderChange(cs[i], target, GranteeSql(row.grantee))) {
      RenderIsClosed(cs[i], target, GranteeSql(row.grantee));
    }
  }

  /** The object named by the form. */
  function FormTarget(form: PrivForm): Result<string>
    requires KindOf(form.kind).Some?
  {
    PrivTarget(KindOf(form.kind).value, form.schema, form.name)
  }

  function FormSql(form: PrivForm): seq<string>
    requires KindOf(form.kind).Some? && FormTarget(form).Ok?
  {
    RowsToSql(KindOf(form.kind).value, FormTarget(form).value, AllRows(form))
  }

  /** A script about an object with a balanced name splits into the very statements it
  was joined from, exactly when they are ASCII. */
  lemma BalancedScriptSplitsBack(form: PrivForm)
    requires Script(form).Ok? && Balanced(FormTarget(form).value)
    ensures Split(Script(form).value) == FormSql(form) <==> forall i | 0 <= i < |FormSql(form)| :: IsAscii(FormSql(form)[i])
  {
    KindsHavePrivNames(form.kind);
    hide KindOf, PrivTarget, RowsToSql, Closed, Split, Balanced, HasPrivNames, JoinStatements;
    var pk := KindOf(form.kind).value;
    var target := FormTarget(form).value;
    RowsAreClosed(pk, target, AllRows(form));
    SplitJoinRoundTrip(RowsToSql(pk, target, AllRows(form)));
  }

  /** So it is for every kind but the routines. */
  lemma ScriptSplitsBack(form: PrivForm)
    requires Script(form).Ok? && !IsRoutineKind(KindOf(form.kind).value)
    ensures Split(Script(form).value) == FormSql(form) <==> forall i | 0 <= i < |FormSql(form)| :: IsAscii(FormSql(form)[i])
  {
    TargetIsBalanced(form.kind, form.schema, form.name);
    hide KindOf, PrivTarget, RowsToSql, Split, Balanced, JoinStatements;
    BalancedScriptSplitsBack(form);
  }
}
