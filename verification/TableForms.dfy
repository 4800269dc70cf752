/** Which ALTER TABLE forms make a script, and what is taken from their fields. */
module TableForms {
  import opened Wrappers
  import opened GoStrings
  import opened ClosedSql
  import opened AlterObject
  import opened AlterTable
  import opened AlterTableLaws

  // ---- What is taken from the fields ---------------------------------------------------------------

  /** Line ends taken out: carriage returns are dropped, newlines become blanks. */
  function OneLine(s: string): string {
    if s == "" then ""
    else (if s[0] == '\r' then "" else if s[0] == '\n' then " " else [s[0]]) + OneLine(s[1..])
  }

  function WithoutReturns(s: string): string {
    if s == "" then "" else (if s[0] == '\r' then "" else [s[0]]) + WithoutReturns(s[1..])
  }

  lemma {:induction false} ReturnsAreDropped(s: string)
    ensures ReplaceAll(s, "\r", "") == WithoutReturns(s)
  {
    if s != "" {
      ReturnsAreDropped(s[1..]);
      assert s[..1] == "\r" <==> s[0] == '\r';
    }
  }

  lemma {:induction false} NewlinesAreBlanks(s: string)
    ensures ReplaceAll(WithoutReturns(s), "\n", " ") == OneLine(s)
  {
    if s != "" {
      NewlinesAreBlanks(s[1..]);
      var t := WithoutReturns(s);
      if s[0] == '\r' {
        assert "" + OneLine(s[1..]) == OneLine(s[1..]) && "" + WithoutReturns(s[1..]) == WithoutReturns(s[1..]);
      } else {
        assert t[1..] == WithoutReturns(s[1..]) && t[0] == s[0];
        assert t[..1] == "\n" <==> s[0] == '\n';
      }
    }
  }

  /** An expression is put on one line by this and nothing else. */
  lemma SingleLineIsOneLine(s: string)
    ensures SingleLine(s) == OneLine(s)
  {
    ReturnsAreDropped(s);
    NewlinesAreBlanks(s);
  }

  /** An entry of a list is what was typed without the blanks around it; where a list is too short,
  it is empty. */
  lemma EntryIsTyped(list: seq<string>, i: nat)
    ensures i >= |list| ==> At(list, i) == ""
    ensures i < |list| ==> (exists front, back :: AllSpace(front) && AllSpace(back) && list[i] == front + At(list, i) + back)
    ensures At(list, i) == "" || IsTrimmed(At(list, i))
  {
    if i < |list| {
      TrimParts(list[i]);
      hide Trim, Leading, Trailing, TrimLeft;
    }
  }

  // ---- Which forms are accepted --------------------------------------------------------------------

  /** Why a row for a new column is refused: it has no name though something is typed, it has no type, or
  both a default and an expression it is generated from. */
  function Refusal(rows: NewRows, i: nat): Option<string> {
    if At(rows.names, i) == "" then
      if At(rows.types, i) != "" || At(rows.defaults, i) != "" || At(rows.generated, i) != ""
      then Some("Every new column needs a name.") else None
    else if At(rows.types, i) == "" then Some("Type is required for new column " + At(rows.names, i) + ".")
    else if At(rows.defaults, i) != "" && At(rows.generated, i) != ""
    then Some("Column " + At(rows.names, i) + ": a generated column cannot also have a default.")
    else None
  }

  lemma ErrorIsRefusal(rows: NewRows, i: nat)
    ensures NewColumnError(NewColumnAt(rows, i)) == Refusal(rows, i)
  {
    hide At;
  }

  /** The rows for new columns are accepted exactly if none of them is refused; otherwise the message is
  that of the first that is. */
  lemma {:induction false} NewRowsAreAccepted(rows: NewRows, n: nat)
    ensures AddPlans(rows, n).Ok? <==> forall i | 0 <= i < n :: Refusal(rows, i).None?
    ensures AddPlans(rows, n).Err? ==>
              exists i :: 0 <= i < n && Refusal(rows, i) == Some(AddPlans(rows, n).message) && forall j | 0 <= j < i :: Refusal(rows, j).None?
    ensures AddPlans(rows, n).Ok? ==> (AddPlans(rows, n).value == [] <==> forall i | 0 <= i < n :: IsBlankRow(rows, i))
  {
    hide Refusal, NewColumnError, NewColumnAt, IsUntouched, IsBlankRow;
    if n > 0 {
      NewRowsAreAccepted(rows, n - 1);
      ErrorIsRefusal(rows, n - 1);
      BlankIsUntouched(rows, n - 1);
    }
  }

  /** The row of an existing column asks for a change. */
  predicate IsEditedRow(rows: Rows, i: nat) {
    && At(rows.names, i) != ""
    && (|| At(rows.drops, i) == "1"
        || (At(rows.types, i) != "" && At(rows.types, i) != At(rows.typesOrig, i))
        || (At(rows.nulls, i) != "" && At(rows.nulls, i) != At(rows.nullsOrig, i))
        || At(rows.defaults, i) != At(rows.defaultsOrig, i)
        || (At(rows.renames, i) != "" && At(rows.renames, i) != At(rows.names, i)))
  }

  lemma EditedRowHasAPlan(rows: Rows, i: nat)
    ensures RowPlan(rows, i) != [] <==> IsEditedRow(rows, i)
  {
    hide At, SingleLine;
  }

  lemma {:induction false} EditedRowsHaveAPlan(rows: Rows, n: nat)
    ensures RowPlans(rows, n) != [] <==> exists i :: 0 <= i < n && IsEditedRow(rows, i)
  {
    hide IsEditedRow, RowPlan;
    if n > 0 {
      EditedRowsHaveAPlan(rows, n - 1);
      EditedRowHasAPlan(rows, n - 1);
    }
  }

  lemma WholeTableAsked(o: ObjName, v: Form)
    ensures AlterPlan(o, v, true, true) != [] <==> IsRequested(v, "owner") || IsRequested(v, "newschema") || IsRequested(v, "newname")
  {
    RequestedIsField(v, "owner", "");
    RequestedIsField(v, "newschema", "");
    RequestedIsField(v, "newname", "");
    hide Field, IsRequested;
  }

  /** A form is accepted exactly if it names the table, no row for a new column is refused, and it asks
  for an owner, a schema, a name, a change of a column or a new column. */
  lemma TableFormIsAccepted(v: Form, rows: Rows, added: NewRows)
    ensures TableScript(v, rows, added).Ok? <==>
              && IsRequested(v, "name") && (forall i | 0 <= i < |added.names| :: Refusal(added, i).None?)
              && (|| IsRequested(v, "owner") || IsRequested(v, "newschema") || IsRequested(v, "newname")
                  || (exists i :: 0 <= i < |rows.names| && IsEditedRow(rows, i))
                  || (exists i :: 0 <= i < |added.names| && !IsBlankRow(added, i)))
  {
    var o := ObjName(Field(v, "schema"), Field(v, "name"));
    RequestedIsField(v, "name", "");
    WholeTableAsked(o, v);
    NewRowsAreAccepted(added, |added.names|);
    EditedRowsHaveAPlan(rows, |rows.names|);
    hide Field, IsRequested, AlterPlan, RowPlans, AddPlans, Refusal, IsEditedRow, IsBlankRow, JoinStatements, RenderAlter, RenderColumn;
  }
}
