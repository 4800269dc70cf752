/** What the column statements do to a table, and which tables they find. */
module AlterTableLaws {
  import opened Wrappers
  import opened GoStrings
  import opened AlterObject
  import opened AlterTable

  datatype Column = Column(name: string, typ: string, notNull: bool, def: string, generated: string)

  type Table = seq<Column>

  predicate HasColumn(t: Table, n: string) {
    exists i :: 0 <= i < |t| && t[i].name == n
  }

  /** The place of the first column of that name. */
  function Find(t: Table, n: string): (i: nat)
    ensures i <= |t| && (i < |t| ==> t[i].name == n)
    ensures forall j :: 0 <= j < i ==> t[j].name != n
  {
    if |t| == 0 || t[0].name == n then 0 else 1 + Find(t[1..], n)
  }

  /** Executes one statement; it fails on a missing column, on a name in use, and on the
  default of a generated column. */
  function StepColumn(t: Table, st: ColStmt): Option<Table> {
    if st.AddColumn? then
      var c := st.column;
      if HasColumn(t, c.name) then None
      else Some(t + [Column(c.name, SingleLine(c.typ), c.nullable == "NO",
                            if c.generated != "" then "" else SingleLine(c.def),
                            SingleLine(c.generated))])
    else
      var i := Find(t, st.name);
      if i == |t| then None
      else
        match st
        case DropColumn(_) => Some(t[..i] + t[i + 1..])
        case SetType(_, typ) => Some(t[i := t[i].(typ := typ)])
        case SetNotNull(_) => Some(t[i := t[i].(notNull := true)])
        case DropNotNull(_) => Some(t[i := t[i].(notNull := false)])
        case DropDefault(_) => if t[i].generated != "" then None else Some(t[i := t[i].(def := "")])
        case SetDefault(_, d) => if t[i].generated != "" then None else Some(t[i := t[i].(def := d)])
        case RenameColumn(_, m) => if HasColumn(t, m) then None else Some(t[i := t[i].(name := m)])
  }

  function RunColumns(t: Table, sts: seq<ColStmt>): Option<Table>
    decreases |sts|
  {
    if |sts| == 0 then Some(t)
    else
      match StepColumn(t, sts[0])
      case None => None
      case Some(next) => RunColumns(next, sts[1..])
  }

  lemma {:induction false} RunColumnsConcat(t: Table, a: seq<ColStmt>, b: seq<ColStmt>)
    ensures RunColumns(t, a + b) == match RunColumns(t, a) case None => None case Some(mid) => RunColumns(mid, b)
    decreases |a|
  {
    hide StepColumn;
    if |a| == 0 {
      assert a + b == b;
    } else {
      assert (a + b)[1..] == a[1..] + b;
      if StepColumn(t, a[0]).Some? {
        RunColumnsConcat(StepColumn(t, a[0]).value, a[1..], b);
      }
    }
  }

  lemma RunOneColumn(t: Table, st: ColStmt)
    ensures RunColumns(t, [st]) == StepColumn(t, st) && RunColumns(t, []) == Some(t)
  {
    assert [st][1..] == [];
  }

  // ---- One row ----------------------------------------------------------------------------------

  /** The column name a kept row asks for. */
  function WantedName(rows: Rows, i: nat): string {
    if At(rows.renames, i) == "" then At(rows.names, i) else At(rows.renames, i)
  }

  predicate IsDropped(rows: Rows, i: nat) {
    At(rows.drops, i) == "1"
  }

  /** The column as submitted: a blank type or nullability means unchanged, an unchanged
  text stays as it is, a changed one is put on one line. */
  function WantedColumn(rows: Rows, i: nat, c: Column): Column {
    var t, n, d := At(rows.types, i), At(rows.nulls, i), At(rows.defaults, i);
    Column(WantedName(rows, i),
           if t == "" || t == c.typ then c.typ else SingleLine(t),
           if n == "" then c.notNull else n == "NO",
           if d == c.def then c.def else SingleLine(d),
           c.generated)
  }

  function WantedRow(rows: Rows, i: nat, c: Column): Table {
    if IsDropped(rows, i) then [] else [WantedColumn(rows, i, c)]
  }

  /** The row was filled from this column. */
  predicate FilledFrom(rows: Rows, i: nat, c: Column) {
    && c.name != "" && At(rows.names, i) == c.name
    && At(rows.typesOrig, i) == c.typ
    && At(rows.nullsOrig, i) == (if c.notNull then "NO" else "YES")
    && At(rows.defaultsOrig, i) == c.def
  }

  /** Where the statements of a row find their column. */
  lemma FindAmong(before: Table, c: Column, behind: Table)
    requires !HasColumn(before, c.name)
    ensures Find(before + [c] + behind, c.name) == |before|
    ensures forall d: Column :: (before + [c] + behind)[|before| := d] == before + [d] + behind
    ensures (before + [c] + behind)[..|before|] == before && (before + [c] + behind)[|before| + 1..] == behind
  {
    var t := before + [c] + behind;
    assert t[|before|] == c;
    assert forall j | 0 <= j < |before| :: t[j] == before[j];
  }

  lemma DropReaches(before: Table, c: Column, behind: Table)
    requires !HasColumn(before, c.name)
    ensures RunColumns(before + [c] + behind, [DropColumn(c.name)]) == Some(before + [] + behind)
  {
    hide Find;
    FindAmong(before, c, behind);
    RunOneColumn(before + [c] + behind, DropColumn(c.name));
    assert before + [] == before;
  }

  lemma TypeReaches(before: Table, c: Column, behind: Table, rows: Rows, i: nat)
    requires !HasColumn(before, c.name) && FilledFrom(rows, i, c)
    ensures RunColumns(before + [c] + behind, TypePart(rows, i))
         == Some(before + [c.(typ := WantedColumn(rows, i, c).typ)] + behind)
  {
    hide Find, At, SingleLine, HasColumn, RunColumns;
    FindAmong(before, c, behind);
    RunOneColumn(before + [c] + behind, SetType(c.name, SingleLine(At(rows.types, i))));
  }

  lemma NullReaches(before: Table, c: Column, behind: Table, rows: Rows, i: nat)
    requires !HasColumn(before, c.name) && At(rows.names, i) == c.name
    requires At(rows.nullsOrig, i) == (if c.notNull then "NO" else "YES")
    ensures RunColumns(before + [c] + behind, NullPart(rows, i))
         == Some(before + [c.(notNull := if At(rows.nulls, i) == "" then c.notNull else At(rows.nulls, i) == "NO")] + behind)
  {
    hide Find, At, HasColumn, RunColumns;
    FindAmong(before, c, behind);
    RunOneColumn(before + [c] + behind, SetNotNull(c.name));
    RunOneColumn(before + [c] + behind, DropNotNull(c.name));
  }

  lemma DefaultReaches(before: Table, c: Column, behind: Table, rows: Rows, i: nat)
    requires !HasColumn(before, c.name) && At(rows.names, i) == c.name && At(rows.defaultsOrig, i) == c.def
    ensures RunColumns(before + [c] + behind, DefaultPart(rows, i))
         == if c.generated != "" && At(rows.defaults, i) != c.def then None
            else Some(before + [c.(def := if At(rows.defaults, i) == c.def then c.def else SingleLine(At(rows.defaults, i)))] + behind)
  {
    hide Find, At, HasColumn, RunColumns, SingleLine;
    FindAmong(before, c, behind);
    RunOneColumn(before + [c] + behind, DropDefault(c.name));
    RunOneColumn(before + [c] + behind, SetDefault(c.name, SingleLine(At(rows.defaults, i))));
    assert SingleLine("") == "" by { BlankLine(); }
  }

  lemma BlankLine()
    ensures SingleLine("") == ""
  {
  }

  lemma RenameReaches(before: Table, c: Column, behind: Table, rows: Rows, i: nat)
    requires !HasColumn(before, c.name) && At(rows.names, i) == c.name
    ensures RunColumns(before + [c] + behind, RenameColPart(rows, i))
         == if WantedName(rows, i) != c.name && HasColumn(before + [c] + behind, WantedName(rows, i)) then None
            else Some(before + [c.(name := WantedName(rows, i))] + behind)
  {
    hide Find, At, HasColumn, RunColumns;
    FindAmong(before, c, behind);
    RunOneColumn(before + [c] + behind, RenameColumn(c.name, At(rows.renames, i)));
  }

  lemma SameNames(before: Table, c: Column, d: Column, behind: Table, n: string)
    requires c.name == d.name
    ensures HasColumn(before + [c] + behind, n) <==> HasColumn(before + [d] + behind, n)
  {
    var t, u := before + [c] + behind, before + [d] + behind;
    assert forall i | 0 <= i < |t| :: t[i].name == u[i].name;
  }

  predicate IsRenamed(rows: Rows, i: nat) {
    !IsDropped(rows, i) && WantedName(rows, i) != At(rows.names, i)
  }

  /** The row asks for another default of a generated column, which has none. */
  predicate DefaultsGenerated(rows: Rows, i: nat, c: Column) {
    !IsDropped(rows, i) && c.generated != "" && At(rows.defaults, i) != c.def
  }

  /** The statements of one row turn its column into the submitted one, in place, and leave
  the columns around it alone; they fail exactly if the new name is in use or the default of a
  generated column is to change. */
  lemma RowReaches(before: Table, c: Column, behind: Table, rows: Rows, i: nat)
    requires !HasColumn(before, c.name) && FilledFrom(rows, i, c)
    ensures RunColumns(before + [c] + behind, RowPlan(rows, i))
         == if DefaultsGenerated(rows, i, c) || (IsRenamed(rows, i) && HasColumn(before + [c] + behind, WantedName(rows, i))) then None
            else Some(before + WantedRow(rows, i, c) + behind)
  {
    hide Find, At, HasColumn, RunColumns, SingleLine, TypePart, NullPart, DefaultPart, RenameColPart, WantedName;
    if IsDropped(rows, i) {
      DropReaches(before, c, behind);
    } else {
      var w := WantedColumn(rows, i, c);
      var c1 := c.(typ := w.typ);
      var c2 := c1.(notNull := w.notNull);
      var c3 := c2.(def := w.def);
      var t := before + [c] + behind;
      RunColumnsConcat(t, TypePart(rows, i) + NullPart(rows, i) + DefaultPart(rows, i), RenameColPart(rows, i));
      RunColumnsConcat(t, TypePart(rows, i) + NullPart(rows, i), DefaultPart(rows, i));
      RunColumnsConcat(t, TypePart(rows, i), NullPart(rows, i));
      TypeReaches(before, c, behind, rows, i);
      NullReaches(before, c1, behind, rows, i);
      DefaultReaches(before, c2, behind, rows, i);
      SameNames(before, c, c3, behind, WantedName(rows, i));
      RenameReaches(before, c3, behind, rows, i);
      assert c3.(name := w.name) == w;
    }
  }

  // ---- All rows ------------------------------------------------------------------------------------

  /** The form was filled from this table: one row a column, in order. */
  ghost predicate FilledFromTable(rows: Rows, cols: Table) {
    && |rows.names| == |cols|
    && forall i | 0 <= i < |cols| :: FilledFrom(rows, i, cols[i])
  }

  ghost predicate DistinctColumns(cols: Table) {
    forall i, j | 0 <= i < j < |cols| :: cols[i].name != cols[j].name
  }

  /** The first n columns as submitted. */
  function Wanted(rows: Rows, cols: Table, n: nat): Table
    requires n <= |cols|
  {
    if n == 0 then [] else Wanted(rows, cols, n - 1) + WantedRow(rows, n - 1, cols[n - 1])
  }

  /** No row asks for the default of a generated column. */
  predicate DefaultsAllowed(rows: Rows, cols: Table, n: nat)
    requires n <= |cols|
  {
    n == 0 || (DefaultsAllowed(rows, cols, n - 1) && !DefaultsGenerated(rows, n - 1, cols[n - 1]))
  }

  /** No row renames its column to a name that is in use when its turn comes: by an edited
  column before it or a column still to be edited. */
  predicate RenamesFree(rows: Rows, cols: Table, n: nat)
    requires n <= |cols|
  {
    n == 0 || (RenamesFree(rows, cols, n - 1)
               && (IsRenamed(rows, n - 1) ==> !HasColumn(Wanted(rows, cols, n - 1) + cols[n - 1..], WantedName(rows, n - 1))))
  }

  lemma HasColumnConcat(a: Table, b: Table, n: string)
    ensures HasColumn(a + b, n) <==> HasColumn(a, n) || HasColumn(b, n)
  {
    if HasColumn(a, n) {
      var i :| 0 <= i < |a| && a[i].name == n;
      assert (a + b)[i] == a[i];
    }
    if HasColumn(b, n) {
      var i :| 0 <= i < |b| && b[i].name == n;
      assert (a + b)[|a| + i] == b[i];
    }
  }

  lemma NoColumns(x: string)
    ensures !HasColumn([], x)
  {
  }

  lemma OneColumn(c: Column, x: string)
    ensures HasColumn([c], x) <==> c.name == x
  {
    assert [c][0] == c;
  }

  lemma HasItsColumns(t: Table, j: nat)
    requires j < |t|
    ensures HasColumn(t, t[j].name)
  {
  }

  /** A column still to be edited is not among the edited ones. */
  lemma {:induction false} WantedMissesRest(rows: Rows, cols: Table, n: nat, j: nat)
    requires FilledFromTable(rows, cols) && DistinctColumns(cols) && n <= j < |cols| && RenamesFree(rows, cols, n)
    ensures !HasColumn(Wanted(rows, cols, n), cols[j].name)
  {
    hide HasColumn, At, WantedName;
    var x := cols[j].name;
    NoColumns(x);
    if n > 0 {
      var k := n - 1;
      WantedMissesRest(rows, cols, k, j);
      HasColumnConcat(Wanted(rows, cols, k), WantedRow(rows, k, cols[k]), x);
      OneColumn(WantedColumn(rows, k, cols[k]), x);
      HasItsColumns(cols[k..], j - k);
      HasColumnConcat(Wanted(rows, cols, k), cols[k..], x);
      assert FilledFrom(rows, k, cols[k]) && cols[k].name != x;
    }
  }

  /** The statements of the first n rows: they go through exactly if the renames are free and no
  default of a generated column is asked for. */
  lemma {:induction false} RowsReach(rows: Rows, cols: Table, n: nat)
    requires FilledFromTable(rows, cols) && DistinctColumns(cols) && n <= |cols|
    ensures RunColumns(cols, RowPlans(rows, n))
         == if RenamesFree(rows, cols, n) && DefaultsAllowed(rows, cols, n) then Some(Wanted(rows, cols, n) + cols[n..]) else None
  {
    hide RunColumns, RowPlan, WantedRow, DistinctColumns, FilledFrom, WantedName, HasColumn, At;
    if n == 0 {
      RunOneColumn(cols, DropColumn(""));
      assert [] + cols[0..] == cols;
    } else {
      var k := n - 1;
      RowsReach(rows, cols, k);
      RunColumnsConcat(cols, RowPlans(rows, k), RowPlan(rows, k));
      assert cols[k..] == [cols[k]] + cols[n..];
      assert Wanted(rows, cols, k) + cols[k..] == Wanted(rows, cols, k) + [cols[k]] + cols[n..];
      if RenamesFree(rows, cols, k) {
        WantedMissesRest(rows, cols, k, k);
        assert FilledFrom(rows, k, cols[k]);
        RowReaches(Wanted(rows, cols, k), cols[k], cols[n..], rows, k);
      }
    }
  }

  // ---- New columns ------------------------------------------------------------------------------------

  /** The column that a row for a new one asks for. */
  function AddedColumn(rows: NewRows, i: nat): Column {
    Column(At(rows.names, i), SingleLine(At(rows.types, i)), At(rows.nulls, i) == "NO",
           SingleLine(At(rows.defaults, i)), SingleLine(At(rows.generated, i)))
  }

  /** Nothing is typed into the row; what it says of nulls does not matter. */
  predicate IsBlankRow(rows: NewRows, i: nat) {
    At(rows.names, i) == "" && At(rows.types, i) == "" && At(rows.defaults, i) == "" && At(rows.generated, i) == ""
  }

  /** The columns of the first n rows for new columns, untouched rows apart. */
  function Added(rows: NewRows, n: nat): Table {
    if n == 0 then []
    else
      Added(rows, n - 1) + if IsBlankRow(rows, n - 1) then [] else [AddedColumn(rows, n - 1)]
  }

  /** Each new name is new to the table and to the rows before it. */
  predicate AdditionsFree(t: Table, rows: NewRows, n: nat) {
    n == 0 || (AdditionsFree(t, rows, n - 1)
               && (IsBlankRow(rows, n - 1) || !HasColumn(t + Added(rows, n - 1), At(rows.names, n - 1))))
  }

  lemma AddReaches(t: Table, rows: NewRows, i: nat)
    requires var c := NewColumnAt(rows, i); NewColumnError(c).None? && !IsUntouched(c)
    ensures RunColumns(t, [AddColumn(NewColumnAt(rows, i))])
         == if HasColumn(t, At(rows.names, i)) then None else Some(t + [AddedColumn(rows, i)])
  {
    hide SingleLine, HasColumn, RunColumns, At;
    RunOneColumn(t, AddColumn(NewColumnAt(rows, i)));
    assert SingleLine("") == "" by { BlankLine(); }
  }

  lemma BlankIsUntouched(rows: NewRows, i: nat)
    ensures IsUntouched(NewColumnAt(rows, i)) <==> IsBlankRow(rows, i)
  {
    hide At;
  }

  lemma {:induction false} AdditionsReach(t: Table, rows: NewRows, n: nat)
    requires AddPlans(rows, n).Ok?
    ensures RunColumns(t, AddPlans(rows, n).value) == if AdditionsFree(t, rows, n) then Some(t + Added(rows, n)) else None
  {
    hide RunColumns, HasColumn, At, AddedColumn, IsUntouched, IsBlankRow, NewColumnError, NewColumnAt;
    if n == 0 {
      RunOneColumn(t, DropColumn(""));
      assert t + [] == t;
    } else {
      AdditionsReach(t, rows, n - 1);
      var c := NewColumnAt(rows, n - 1);
      var mid := t + Added(rows, n - 1);
      BlankIsUntouched(rows, n - 1);
      if IsUntouched(c) {
        assert t + (Added(rows, n - 1) + []) == mid;
      } else {
        RunColumnsConcat(t, AddPlans(rows, n - 1).value, [AddColumn(c)]);
        AddReaches(mid, rows, n - 1);
        assert t + (Added(rows, n - 1) + [AddedColumn(rows, n - 1)]) == mid + [AddedColumn(rows, n - 1)];
      }
    }
  }

  /** The table as submitted: the kept columns in their places, then the new ones. */
  function WantedTable(rows: Rows, added: NewRows, cols: Table): Table {
    Wanted(rows, cols, |cols|) + Added(added, |added.names|)
  }

  predicate NewNamesFree(rows: Rows, added: NewRows, cols: Table) {
    RenamesFree(rows, cols, |cols|) && AdditionsFree(Wanted(rows, cols, |cols|), added, |added.names|)
  }

  /** What PostgreSQL asks of the column statements. */
  predicate ColumnsAllowed(rows: Rows, added: NewRows, cols: Table) {
    NewNamesFree(rows, added, cols) && DefaultsAllowed(rows, cols, |cols|)
  }

  /** Running the column statements on the table the form was filled from: they go through
  exactly if no name is given that is in use by then and no generated column is to have a
  default, and give the submitted columns. */
  lemma ColumnsReachSubmitted(rows: Rows, added: NewRows, cols: Table)
    requires FilledFromTable(rows, cols) && DistinctColumns(cols) && ColumnPlan(rows, added).Ok?
    ensures RunColumns(cols, ColumnPlan(rows, added).value)
         == if ColumnsAllowed(rows, added, cols) then Some(WantedTable(rows, added, cols)) else None
  {
    hide RunColumns, RowPlans, AddPlans, RenamesFree, DefaultsAllowed, AdditionsFree, Wanted, Added;
    RowsReach(rows, cols, |cols|);
    assert Wanted(rows, cols, |cols|) + cols[|cols|..] == Wanted(rows, cols, |cols|);
    RunColumnsConcat(cols, RowPlans(rows, |cols|), AddPlans(added, |added.names|).value);
    AdditionsReach(Wanted(rows, cols, |cols|), added, |added.names|);
  }

  // ---- The whole script --------------------------------------------------------------------------

  /** The tables by name, and the columns of each by its identity. */
  datatype Db = Db(cat: Catalog, columns: map<nat, Table>)

  /** One column statement of the script: PostgreSQL looks the table up by name. */
  function StepTable(db: Db, o: ObjName, st: ColStmt): Option<Db> {
    if o !in db.cat || db.cat[o].oid !in db.columns then None
    else
      match StepColumn(db.columns[db.cat[o].oid], st)
      case None => None
      case Some(t) => Some(db.(columns := db.columns[db.cat[o].oid := t]))
  }

  function RunTable(db: Db, o: ObjName, sts: seq<ColStmt>): Option<Db>
    decreases |sts|
  {
    if |sts| == 0 then Some(db)
    else
      match StepTable(db, o, sts[0])
      case None => None
      case Some(next) => RunTable(next, o, sts[1..])
  }

  /** The script in the order it is written: owner, schema and name first, then the
  columns, all of them on the table's name as posted. */
  function RunScript(db: Db, o: ObjName, plan: seq<AlterStmt>, sts: seq<ColStmt>): Option<Db> {
    match RunPlan(db.cat, plan)
    case None => None
    case Some(cat) => RunTable(db.(cat := cat), o, sts)
  }

  lemma {:induction false} RunTableOnColumns(db: Db, o: ObjName, sts: seq<ColStmt>)
    requires o in db.cat && db.cat[o].oid in db.columns
    ensures var id := db.cat[o].oid;
            RunTable(db, o, sts) == match RunColumns(db.columns[id], sts)
              case None => None
              case Some(t) => Some(db.(columns := db.columns[id := t]))
    decreases |sts|
  {
    hide StepColumn;
    var id := db.cat[o].oid;
    if |sts| == 0 {
      assert db.columns[id := db.columns[id]] == db.columns;
    } else if StepColumn(db.columns[id], sts[0]).Some? {
      var t := StepColumn(db.columns[id], sts[0]).value;
      RunTableOnColumns(db.(columns := db.columns[id := t]), o, sts[1..]);
      if RunColumns(t, sts[1..]).Some? {
        var last := RunColumns(t, sts[1..]).value;
        assert db.columns[id := t][id := last] == db.columns[id := last];
      }
    }
  }

  /** What became of the table and its entry. */
  function AfterScript(db: Db, o: ObjName, v: Form, t: Table): Db
    requires o in db.cat
  {
    Db((db.cat - {o})[FinalName(o, v, true) := FinalEntry(db.cat[o], v, true)], db.columns[db.cat[o].oid := t])
  }

  /** The whole ALTER TABLE script on the catalog the form was filled from.  The column
  statements keep the posted name, but run after the table has moved: the script gives
  the requested table exactly if the names are free, no generated column is to have a default,
  and it does not both move or rename the table and touch a column.  In every other case it fails. */
  lemma TableScriptReaches(db: Db, v: Form, rows: Rows, added: NewRows)
    requires ColumnPlan(rows, added).Ok?
    requires var o := ObjName(Field(v, "schema"), Field(v, "name"));
             o in db.cat && db.cat[o].oid in db.columns
             && FilledFromTable(rows, db.columns[db.cat[o].oid]) && DistinctColumns(db.columns[db.cat[o].oid])
    ensures var o := ObjName(Field(v, "schema"), Field(v, "name"));
            var sts := ColumnPlan(rows, added).value;
            var cols := db.columns[db.cat[o].oid];
            RunScript(db, o, AlterPlan(o, v, true, true), sts)
              == if NamesFree(db.cat, o, v, true) && ColumnsAllowed(rows, added, cols) && (FinalName(o, v, true) == o || sts == [])
                 then Some(AfterScript(db, o, v, WantedTable(rows, added, cols)))
                 else None
  {
    var o := ObjName(Field(v, "schema"), Field(v, "name"));
    var sts := ColumnPlan(rows, added).value;
    var id := db.cat[o].oid;
    var cols := db.columns[id];
    hide Field, AlterPlan, ColumnPlan, FilledFromTable, DistinctColumns, ColumnsAllowed, WantedTable, FinalName;
    hide NamesFree, RunColumns, RunPlan;
    PlanReachesRequested(db.cat, o, v, true, true);
    ColumnsReachSubmitted(rows, added, cols);
    if NamesFree(db.cat, o, v, true) {
      var cat := (db.cat - {o})[FinalName(o, v, true) := FinalEntry(db.cat[o], v, true)];
      var moved := db.(cat := cat);
      if FinalName(o, v, true) == o {
        RunTableOnColumns(moved, o, sts);
      } else if sts == [] {
        RunOneColumn(cols, DropColumn(""));
        assert db.columns[id := cols] == db.columns;
      } else {
        assert o !in moved.cat;
      }
    }
  }

  /** The order that joinStatements asks of its callers: the rename behind everything else. */
  function RunRenameLast(db: Db, o: ObjName, plan: seq<AlterStmt>, sts: seq<ColStmt>): Option<Db> {
    match RunTable(db, o, sts)
    case None => None
    case Some(next) =>
      match RunPlan(next.cat, plan)
      case None => None
      case Some(cat) => Some(next.(cat := cat))
  }

  /** In that order the script would go through whenever the names are free and the columns allow it. */
  lemma RenameLastReaches(db: Db, v: Form, rows: Rows, added: NewRows)
    requires ColumnPlan(rows, added).Ok?
    requires var o := ObjName(Field(v, "schema"), Field(v, "name"));
             o in db.cat && db.cat[o].oid in db.columns
             && FilledFromTable(rows, db.columns[db.cat[o].oid]) && DistinctColumns(db.columns[db.cat[o].oid])
    ensures var o := ObjName(Field(v, "schema"), Field(v, "name"));
            var cols := db.columns[db.cat[o].oid];
            RunRenameLast(db, o, AlterPlan(o, v, true, true), ColumnPlan(rows, added).value)
              == if NamesFree(db.cat, o, v, true) && ColumnsAllowed(rows, added, cols)
                 then Some(AfterScript(db, o, v, WantedTable(rows, added, cols)))
                 else None
  {
    var o := ObjName(Field(v, "schema"), Field(v, "name"));
    var sts := ColumnPlan(rows, added).value;
    hide Field, AlterPlan, ColumnPlan, FilledFromTable, DistinctColumns, ColumnsAllowed, WantedTable, FinalName;
    hide NamesFree, RunColumns, RunPlan;
    PlanReachesRequested(db.cat, o, v, true, true);
    ColumnsReachSubmitted(rows, added, db.columns[db.cat[o].oid]);
    RunTableOnColumns(db, o, sts);
  }

  // ---- A form on which the order matters -----------------------------------------------------------

  const RENAMED_FORM: Form := map["schema" := "s", "name" := "a", "newname" := "b"]
  const RETYPED_ROWS := Rows(["c"], [], ["text"], ["int"], ["NO"], ["NO"], [], [], [])
  const NO_NEW_ROWS := NewRows([], [], [], [], [])
  const ONE_COLUMN: Table := [Column("c", "int", true, "", "")]
  const OLD_NAME := ObjName("s", "a")
  const ONE_TABLE := Db(map[OLD_NAME := Entry(1, "o", None)], map[1 := ONE_COLUMN])

  lemma FormValues()
    ensures Field(RENAMED_FORM, "schema") == "s" && Field(RENAMED_FORM, "name") == "a" && Field(RENAMED_FORM, "newname") == "b"
    ensures Field(RENAMED_FORM, "newschema") == "" && Field(RENAMED_FORM, "owner") == ""
  {
    TrimOfTrimmed("s");
    TrimOfTrimmed("a");
    TrimOfTrimmed("b");
    TrimOfTrimmed("");
  }

  lemma RowValues()
    ensures At(["c"], 0) == "c" && At(["text"], 0) == "text" && At(["int"], 0) == "int" && At(["NO"], 0) == "NO"
  {
    TrimOfTrimmed("c");
    TrimOfTrimmed("text");
    TrimOfTrimmed("int");
    TrimOfTrimmed("NO");
  }

  lemma RetypedRow()
    ensures FilledFromTable(RETYPED_ROWS, ONE_COLUMN) && DistinctColumns(ONE_COLUMN)
    ensures ColumnPlan(RETYPED_ROWS, NO_NEW_ROWS).Ok? && ColumnPlan(RETYPED_ROWS, NO_NEW_ROWS).value != []
    ensures ColumnsAllowed(RETYPED_ROWS, NO_NEW_ROWS, ONE_COLUMN)
  {
    RowValues();
    hide SingleLine;
    assert RowPlan(RETYPED_ROWS, 0) != [];
    assert RowPlans(RETYPED_ROWS, 1) == RowPlans(RETYPED_ROWS, 0) + RowPlan(RETYPED_ROWS, 0);
    assert !IsRenamed(RETYPED_ROWS, 0);
  }

  /** A table renamed and one of its columns retyped in one form: every name is free, and with
  the rename last the script would go through, but in the order it is written it fails. */
  lemma RenameFirstFails()
    ensures var plan, sts := AlterPlan(OLD_NAME, RENAMED_FORM, true, true), ColumnPlan(RETYPED_ROWS, NO_NEW_ROWS);
            && sts.Ok?
            && NamesFree(ONE_TABLE.cat, OLD_NAME, RENAMED_FORM, true) && ColumnsAllowed(RETYPED_ROWS, NO_NEW_ROWS, ONE_COLUMN)
            && RunScript(ONE_TABLE, OLD_NAME, plan, sts.value) == None
            && RunRenameLast(ONE_TABLE, OLD_NAME, plan, sts.value).Some?
  {
    FormValues();
    RetypedRow();
    assert NamesFree(ONE_TABLE.cat, OLD_NAME, RENAMED_FORM, true) && FinalName(OLD_NAME, RENAMED_FORM, true) != OLD_NAME;
    hide Field, AlterPlan, ColumnPlan, FilledFromTable, DistinctColumns, ColumnsAllowed, RunScript, RunRenameLast, NamesFree, FinalName, AfterScript;
    TableScriptReaches(ONE_TABLE, RENAMED_FORM, RETYPED_ROWS, NO_NEW_ROWS);
    RenameLastReaches(ONE_TABLE, RENAMED_FORM, RETYPED_ROWS, NO_NEW_ROWS);
  }

  /** A form that gives no name twice, and none that a column of the table has, is free. */
  ghost predicate FreshNames(rows: Rows, added: NewRows, cols: Table) {
    && (forall i | 0 <= i < |cols| && IsRenamed(rows, i) :: !HasColumn(cols, WantedName(rows, i)))
    && (forall i, j | 0 <= i < j < |cols| && IsRenamed(rows, i) && IsRenamed(rows, j) :: WantedName(rows, i) != WantedName(rows, j))
    && (forall k | 0 <= k < |added.names| && !IsBlankRow(added, k) ::
          && !HasColumn(cols, At(added.names, k))
          && (forall i | 0 <= i < |cols| && IsRenamed(rows, i) :: WantedName(rows, i) != At(added.names, k))
          && (forall j | 0 <= j < k && !IsBlankRow(added, j) :: At(added.names, j) != At(added.names, k)))
  }

  /** A submitted column has its old name or one that a row brought in. */
  lemma {:induction false} WantedComesFromARow(rows: Rows, cols: Table, n: nat, x: string)
    requires FilledFromTable(rows, cols) && n <= |cols| && HasColumn(Wanted(rows, cols, n), x)
    ensures HasColumn(cols, x) || exists i :: 0 <= i < n && IsRenamed(rows, i) && WantedName(rows, i) == x
  {
    hide HasColumn, WantedName, At, IsDropped;
    NoColumns(x);
    if n > 0 {
      var k := n - 1;
      HasColumnConcat(Wanted(rows, cols, k), WantedRow(rows, k, cols[k]), x);
      OneColumn(WantedColumn(rows, k, cols[k]), x);
      if HasColumn(Wanted(rows, cols, k), x) {
        WantedComesFromARow(rows, cols, k, x);
      } else {
        assert FilledFrom(rows, k, cols[k]);
        HasItsColumns(cols, k);
      }
    }
  }

  lemma {:induction false} AddedComesFromARow(added: NewRows, n: nat, x: string)
    requires HasColumn(Added(added, n), x)
    ensures exists j :: 0 <= j < n && !IsBlankRow(added, j) && At(added.names, j) == x
  {
    hide HasColumn, At, IsBlankRow;
    NoColumns(x);
    if n > 0 {
      HasColumnConcat(Added(added, n - 1), if IsBlankRow(added, n - 1) then [] else [AddedColumn(added, n - 1)], x);
      OneColumn(AddedColumn(added, n - 1), x);
      if HasColumn(Added(added, n - 1), x) {
        AddedComesFromARow(added, n - 1, x);
      }
    }
  }

  lemma {:induction false} FreshRenamesAreFree(rows: Rows, added: NewRows, cols: Table, n: nat)
    requires FilledFromTable(rows, cols) && FreshNames(rows, added, cols) && n <= |cols|
    ensures RenamesFree(rows, cols, n)
  {
    hide HasColumn, WantedName, IsRenamed, FilledFromTable, IsBlankRow;
    if n > 0 {
      var k := n - 1;
      FreshRenamesAreFree(rows, added, cols, k);
      if IsRenamed(rows, k) {
        var w := WantedName(rows, k);
        HasColumnConcat(Wanted(rows, cols, k), cols[k..], w);
        HasColumnConcat(cols[..k], cols[k..], w);
        assert cols[..k] + cols[k..] == cols;
        if HasColumn(Wanted(rows, cols, k), w) {
          WantedComesFromARow(rows, cols, k, w);
          assert false;
        }
      }
    }
  }

  lemma {:induction false} FreshAdditionsAreFree(rows: Rows, added: NewRows, cols: Table, n: nat)
    requires FilledFromTable(rows, cols) && FreshNames(rows, added, cols) && n <= |added.names|
    ensures AdditionsFree(Wanted(rows, cols, |cols|), added, n)
  {
    hide HasColumn, WantedName, IsRenamed, FilledFromTable, At, IsBlankRow;
    if n > 0 {
      var k := n - 1;
      FreshAdditionsAreFree(rows, added, cols, k);
      if !IsBlankRow(added, k) {
        var x := At(added.names, k);
        HasColumnConcat(Wanted(rows, cols, |cols|), Added(added, k), x);
        if HasColumn(Wanted(rows, cols, |cols|), x) {
          WantedComesFromARow(rows, cols, |cols|, x);
          assert false;
        }
        if HasColumn(Added(added, k), x) {
          AddedComesFromARow(added, k, x);
          assert false;
        }
      }
    }
  }

  lemma FreshNamesAreFree(rows: Rows, added: NewRows, cols: Table)
    requires FilledFromTable(rows, cols) && FreshNames(rows, added, cols)
    ensures NewNamesFree(rows, added, cols)
  {
    hide FilledFromTable, FreshNames;
    FreshRenamesAreFree(rows, added, cols, |cols|);
    FreshAdditionsAreFree(rows, added, cols, |added.names|);
  }
}
