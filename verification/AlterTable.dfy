/** The column part of the ALTER TABLE builder of internal/web/ddl.go. */
module AlterTable {
  import opened Wrappers
  import opened GoStrings
  import opened SqlQuote
  import opened ClosedSql
  import opened AlterObject

  /** One typed expression on one line. */
  function SingleLine(s: string): string {
    ReplaceAll(ReplaceAll(s, "\r", ""), "\n", " ")
  }

  /** An entry of a posted list; lists may be shorter than the list of rows. */
  function At(list: seq<string>, i: nat): string {
    if i < |list| then Trim(list[i]) else ""
  }

  // ---- Statements ---------------------------------------------------------------------------

  /** A row for a new column, as typed. */
  datatype NewColumn = NewColumn(name: string, typ: string, nullable: string, def: string, generated: string)

  datatype ColStmt =
    | DropColumn(name: string)
    | SetType(name: string, typ: string)
    | SetNotNull(name: string)
    | DropNotNull(name: string)
    | DropDefault(name: string)
    | SetDefault(name: string, def: string)
    | RenameColumn(name: string, newName: string)
    | AddColumn(column: NewColumn)

  function ColumnDefText(c: NewColumn): string {
    QuoteIdent(c.name) + " " + SingleLine(c.typ)
    + (if c.nullable == "NO" then " NOT NULL" else "")
    + if c.generated != "" then " GENERATED ALWAYS AS (" + SingleLine(c.generated) + ") STORED"
      else if c.def != "" then " DEFAULT " + SingleLine(c.def)
      else ""
  }

  /** buildColumnDef: a generated column has no default. */
  method BuildColumnDef(c: NewColumn) returns (r: Result<string>)
    ensures r == if c.generated != "" && c.def != "" then Err("Column " + c.name + ": a generated column cannot also have a default.")
                 else Ok(ColumnDefText(c))
  {
    hide SingleLine, QuoteIdent;
    var line := QuoteIdent(c.name) + " " + SingleLine(c.typ);
    line := line + if c.nullable == "NO" then " NOT NULL" else "";
    if c.generated != "" {
      if c.def != "" {
        return Err("Column " + c.name + ": a generated column cannot also have a default.");
      }
      line := line + (" GENERATED ALWAYS AS (" + SingleLine(c.generated) + ") STORED");
    } else if c.def != "" {
      line := line + (" DEFAULT " + SingleLine(c.def));
    } else {
      line := line + "";
    }
    return Ok(line);
  }

  function ColText(st: ColStmt): string {
    match st
    case DropColumn(n) => " DROP COLUMN " + QuoteIdent(n)
    case SetType(n, t) => " ALTER COLUMN " + QuoteIdent(n) + " TYPE " + t
    case SetNotNull(n) => " ALTER COLUMN " + QuoteIdent(n) + " SET NOT NULL"
    case DropNotNull(n) => " ALTER COLUMN " + QuoteIdent(n) + " DROP NOT NULL"
    case DropDefault(n) => " ALTER COLUMN " + QuoteIdent(n) + " DROP DEFAULT"
    case SetDefault(n, d) => " ALTER COLUMN " + QuoteIdent(n) + " SET DEFAULT " + d
    case RenameColumn(n, m) => " RENAME COLUMN " + QuoteIdent(n) + " TO " + QuoteIdent(m)
    case AddColumn(c) => " ADD COLUMN " + ColumnDefText(c)
  }

  function RenderColumn(o: ObjName, st: ColStmt): string {
    "ALTER TABLE " + QualIdent(o.schema, o.name) + ColText(st)
  }

  function RenderColumns(o: ObjName, sts: seq<ColStmt>): seq<string> {
    seq(|sts|, i requires 0 <= i < |sts| => RenderColumn(o, sts[i]))
  }

  // ---- The builder ------------------------------------------------------------------------------

  /** The parallel lists of the rows for existing columns: each attribute and what it was
  when the form was filled. */
  datatype Rows = Rows(
    names: seq<string>, renames: seq<string>,
    types: seq<string>, typesOrig: seq<string>,
    nulls: seq<string>, nullsOrig: seq<string>,
    defaults: seq<string>, defaultsOrig: seq<string>,
    drops: seq<string>)

  /** The parallel lists of the rows for new columns. */
  datatype NewRows = NewRows(names: seq<string>, types: seq<string>, nulls: seq<string>, defaults: seq<string>, generated: seq<string>)

  function TypePart(rows: Rows, i: nat): seq<ColStmt> {
    var t := At(rows.types, i);
    if t != "" && t != At(rows.typesOrig, i) then [SetType(At(rows.names, i), SingleLine(t))] else []
  }

  function NullPart(rows: Rows, i: nat): seq<ColStmt> {
    var n := At(rows.nulls, i);
    if n != "" && n != At(rows.nullsOrig, i) then [if n == "NO" then SetNotNull(At(rows.names, i)) else DropNotNull(At(rows.names, i))]
    else []
  }

  function DefaultPart(rows: Rows, i: nat): seq<ColStmt> {
    var d := At(rows.defaults, i);
    if d == At(rows.defaultsOrig, i) then []
    else if d == "" then [DropDefault(At(rows.names, i))]
    else [SetDefault(At(rows.names, i), SingleLine(d))]
  }

  function RenameColPart(rows: Rows, i: nat): seq<ColStmt> {
    var rn := At(rows.renames, i);
    if rn != "" && rn != At(rows.names, i) then [RenameColumn(At(rows.names, i), rn)] else []
  }

  function RowPlan(rows: Rows, i: nat): seq<ColStmt> {
    if At(rows.names, i) == "" then []
    else if At(rows.drops, i) == "1" then [DropColumn(At(rows.names, i))]
    else TypePart(rows, i) + NullPart(rows, i) + DefaultPart(rows, i) + RenameColPart(rows, i)
  }

  function RowPlans(rows: Rows, n: nat): seq<ColStmt> {
    if n == 0 then [] else RowPlans(rows, n - 1) + RowPlan(rows, n - 1)
  }

  function NewColumnAt(rows: NewRows, i: nat): NewColumn {
    NewColumn(At(rows.names, i), At(rows.types, i), At(rows.nulls, i), At(rows.defaults, i), At(rows.generated, i))
  }

  predicate IsUntouched(c: NewColumn) {
    c.name == "" && c.typ == "" && c.def == "" && c.generated == ""
  }

  function NewColumnError(c: NewColumn): Option<string> {
    if IsUntouched(c) then None
    else if c.name == "" then Some("Every new column needs a name.")
    else if c.typ == "" then Some("Type is required for new column " + c.name + ".")
    else if c.generated != "" && c.def != "" then Some("Column " + c.name + ": a generated column cannot also have a default.")
    else None
  }

  /** The additions of the first n rows, or the error of the first row that has one. */
  function AddPlans(rows: NewRows, n: nat): Result<seq<ColStmt>> {
    if n == 0 then Ok([])
    else
      match AddPlans(rows, n - 1)
      case Err(m) => Err(m)
      case Ok(sts) =>
        var c := NewColumnAt(rows, n - 1);
        match NewColumnError(c)
        case Some(m) => Err(m)
        case None => Ok(if IsUntouched(c) then sts else sts + [AddColumn(c)])
  }

  /** The column statements of the form. */
  function ColumnPlan(rows: Rows, added: NewRows): Result<seq<ColStmt>> {
    match AddPlans(added, |added.names|)
    case Err(m) => Err(m)
    case Ok(sts) => Ok(RowPlans(rows, |rows.names|) + sts)
  }

  function TableScript(v: Form, rows: Rows, added: NewRows): Result<string> {
    var o := ObjName(Field(v, "schema"), Field(v, "name"));
    if o.name == "" then Err("Table name is required.")
    else
      match ColumnPlan(rows, added)
      case Err(m) => Err(m)
      case Ok(sts) =>
        var stmts := RenderPlan("TABLE", InSchema, AlterPlan(o, v, true, true)) + RenderColumns(o, sts);
        if stmts == [] then Err("No changes requested.") else Ok(JoinStatements(stmts))
  }

  /** buildAlterTableForm, for forms whose constraint and partition blocks are blank. */
  method BuildAlterTable(v: Form, rows: Rows, added: NewRows) returns (r: Result<string>)
    ensures r == TableScript(v, rows, added)
  {
    hide AlterPlan, RenderAlter, RenderColumn, Field, RowPlan, NewColumnAt, NewColumnError;
    var name := Field(v, "name");
    if name == "" {
      return Err("Table name is required.");
    }
    var schema := Field(v, "schema");
    var o := ObjName(schema, name);
    var stmts := AlterOwnerSchemaRename("TABLE", InSchema, schema, name, v, true, true);
    ghost var altered := stmts;
    var columns := EmitRows(o, rows);
    var additions := EmitAdditions(o, added);
    if additions.Err? {
      return Err(additions.message);
    }
    RenderColumnsConcat(o, RowPlans(rows, |rows.names|), AddPlans(added, |added.names|).value);
    stmts := stmts + (columns + additions.value);
    if |stmts| == 0 {
      return Err("No changes requested.");
    }
    return Ok(JoinStatements(stmts));
  }

  lemma RenderColumnsConcat(o: ObjName, a: seq<ColStmt>, b: seq<ColStmt>)
    ensures RenderColumns(o, a + b) == RenderColumns(o, a) + RenderColumns(o, b)
  {
    hide RenderColumn;
  }

  method EmitRows(o: ObjName, rows: Rows) returns (stmts: seq<string>)
    ensures stmts == RenderColumns(o, RowPlans(rows, |rows.names|))
  {
    hide RenderColumn, RowPlan;
    stmts := [];
    for i := 0 to |rows.names|
      invariant stmts == RenderColumns(o, RowPlans(rows, i))
    {
      var more := EmitRow(o, rows, i);
      RenderColumnsConcat(o, RowPlans(rows, i), RowPlan(rows, i));
      stmts := stmts + more;
    }
  }

  method EmitRow(o: ObjName, rows: Rows, i: nat) returns (stmts: seq<string>)
    ensures stmts == RenderColumns(o, RowPlan(rows, i))
  {
    hide RenderColumn, At, SingleLine, QuoteIdent, QualIdent;
    stmts := [];
    var orig := At(rows.names, i);
    if orig == "" {
      return;
    }
    if At(rows.drops, i) == "1" {
      stmts := stmts + [RenderColumn(o, DropColumn(orig))];
      return;
    }
    var t := At(rows.types, i);
    if t != "" && t != At(rows.typesOrig, i) {
      stmts := stmts + [RenderColumn(o, SetType(orig, SingleLine(t)))];
    }
    var n := At(rows.nulls, i);
    if n != "" && n != At(rows.nullsOrig, i) {
      if n == "NO" {
        stmts := stmts + [RenderColumn(o, SetNotNull(orig))];
      } else {
        stmts := stmts + [RenderColumn(o, DropNotNull(orig))];
      }
    }
    assert stmts == RenderColumns(o, TypePart(rows, i) + NullPart(rows, i));
    var d := At(rows.defaults, i);
    if d != At(rows.defaultsOrig, i) {
      if d == "" {
        stmts := stmts + [RenderColumn(o, DropDefault(orig))];
      } else {
        stmts := stmts + [RenderColumn(o, SetDefault(orig, SingleLine(d)))];
      }
    }
    assert stmts == RenderColumns(o, TypePart(rows, i) + NullPart(rows, i) + DefaultPart(rows, i));
    hide TypePart, NullPart, DefaultPart;
    var rn := At(rows.renames, i);
    if rn != "" && rn != orig {
      stmts := stmts + [RenderColumn(o, RenameColumn(orig, rn))];
    }
  }

  method EmitAdditions(o: ObjName, rows: NewRows) returns (r: Result<seq<string>>)
    ensures r == match AddPlans(rows, |rows.names|) case Err(m) => Err(m) case Ok(sts) => Ok(RenderColumns(o, sts))
  {
    hide At, ColumnDefText, QualIdent;
    var stmts := [];
    for i := 0 to |rows.names|
      invariant AddPlans(rows, i).Ok? && stmts == RenderColumns(o, AddPlans(rows, i).value)
    {
      var c := NewColumnAt(rows, i);
      if c.name == "" {
        if !(c.typ == "" && c.def == "" && c.generated == "") {
          StopsAt(rows, i);
          return Err("Every new column needs a name.");
        }
      } else {
        if c.typ == "" {
          StopsAt(rows, i);
          return Err("Type is required for new column " + c.name + ".");
        }
        var colDef := BuildColumnDef(c);
        if colDef.Err? {
          StopsAt(rows, i);
          return Err(colDef.message);
        }
        stmts := stmts + ["ALTER TABLE " + QualIdent(o.schema, o.name) + (" ADD COLUMN " + colDef.value)];
      }
    }
    return Ok(stmts);
  }

  /** The first error is the form's error. */
  lemma StopsAt(rows: NewRows, i: nat)
    requires i < |rows.names| && AddPlans(rows, i + 1).Err?
    ensures AddPlans(rows, |rows.names|) == AddPlans(rows, i + 1)
  {
    StopsAtUpTo(rows, i + 1, |rows.names|);
  }

  lemma {:induction false} StopsAtUpTo(rows: NewRows, i: nat, n: nat)
    requires i <= n && AddPlans(rows, i).Err?
    ensures AddPlans(rows, n) == AddPlans(rows, i)
  {
    if i < n {
      StopsAtUpTo(rows, i, n - 1);
    }
  }
}
