/** The privilege form from the loaded grid to the text of the script. */
module PrivilegeForms {
  import opened Wrappers
  import opened GoStrings
  import opened SqlNames
  import opened SplitStatements
  import opened SplitLaws
  import opened Lists
  import opened Numbers
  import opened Privileges
  import opened PrivilegeLaws

  // ---- The names of the privileges --------------------------------------------------------

  predicate HasPrivNames(pk: PrivKind) {
    forall p | p in pk.privs :: IsWord(p)
  }

  lemma KindsHavePrivNames(kind: string)
    ensures KindOf(kind).Some? ==> HasPrivNames(KindOf(kind).value)
  {
    hide IsWord;
    NamesAreNames();
  }

  lemma NamesAreNames()
    ensures forall p | p in TABLE_PRIVS + ["CONNECT", "CREATE", "TEMPORARY", "USAGE", "EXECUTE"] :: IsWord(p)
  {
    assert IsWord("SELECT") && IsWord("INSERT") && IsWord("UPDATE") && IsWord("DELETE");
    assert IsWord("TRUNCATE") && IsWord("REFERENCES") && IsWord("TRIGGER");
    assert IsWord("CONNECT") && IsWord("CREATE") && IsWord("TEMPORARY");
    assert IsWord("USAGE") && IsWord("EXECUTE");
    hide IsWord;
  }

  // ---- The state that travels with the form ------------------------------------------------

  lemma CutEncoded(c: Cell)
    requires IsWord(c.priv)
    ensures CutStar(Encode(c)) == (c.priv, c.opt) && IsEntry(Encode(c))
  {
    if c.opt {
      assert Encode(c)[..|c.priv|] == c.priv;
    }
  }

  lemma {:induction false} ParseEntriesConcat(a: seq<string>, b: seq<string>)
    ensures ParseEntries(a + b) == ParseEntries(a) + ParseEntries(b)
  {
    if |b| == 0 {
      assert a + b == a;
    } else {
      var m := |b| - 1;
      assert (a + b)[..|a + b| - 1] == a + b[..m];
      ParseEntriesConcat(a, b[..m]);
    }
  }

  function StateOfCell(c: Option<Cell>, p: string): Grants {
    match c
    case None => map[]
    case Some(c) => map[p := c.opt]
  }

  lemma EncodingDecodes(before: seq<string>, c: Cell)
    requires IsWord(c.priv)
    ensures ParseEntries(before + [Encode(c)]) == ParseEntries(before)[c.priv := c.opt] && IsEntry(Encode(c))
  {
    CutEncoded(c);
    hide IsWord, IsEntry, Encode, CutStar;
    assert (before + [Encode(c)])[..|before|] == before;
  }

  /** The encodings of one privilege's cells decode to the last of them. */
  lemma {:induction false} ParseEncodings(granted: seq<Cell>, p: string)
    requires IsWord(p)
    ensures ParseEntries(EncodingsOf(granted, p)) == StateOfCell(LastFor(granted, p), p)
  {
    if |granted| > 0 {
      var n := |granted| - 1;
      var c := granted[n];
      ParseEncodings(granted[..n], p);
      if c.priv == p {
        EncodingDecodes(EncodingsOf(granted[..n], p), c);
      } else {
        assert EncodingsOf(granted[..n], p) + [] == EncodingsOf(granted[..n], p);
      }
      hide IsWord, IsEntry, Encode, CutStar, ParseEntries;
    }
  }

  lemma {:induction false} EncodingsAreEntries(granted: seq<Cell>, p: string)
    requires IsWord(p)
    ensures forall e | e in EncodingsOf(granted, p) :: IsEntry(e)
  {
    if |granted| > 0 {
      var c := granted[|granted| - 1];
      EncodingsAreEntries(granted[..|granted| - 1], p);
      if c.priv == p {
        CutEncoded(c);
      }
      hide IsEntry, Encode;
    }
  }

  /** The grants that a list of granted cells amounts to, over the kind's privileges. */
  function GridState(privs: seq<string>, granted: seq<Cell>): (r: Grants)
    ensures forall p :: StateOf(r, p) == if p in privs && LastFor(granted, p).Some? then Some(LastFor(granted, p).value.opt) else None
  {
    map p | p in privs && LastFor(granted, p).Some? :: LastFor(granted, p).value.opt
  }

  lemma {:induction false} ParseAllEncodings(privs: seq<string>, granted: seq<Cell>)
    requires forall p | p in privs :: IsWord(p)
    ensures ParseEntries(AllEncodings(privs, granted)) == GridState(privs, granted)
    ensures forall e | e in AllEncodings(privs, granted) :: IsEntry(e)
  {
    hide EncodingsOf, LastFor, IsEntry, IsWord, GridState, ParseEntries, StateOfCell;
    if |privs| > 0 {
      var n := |privs| - 1;
      assert privs[n] in privs;
      ParseAllEncodings(privs[..n], granted);
      ParseEncodings(granted, privs[n]);
      EncodingsAreEntries(granted, privs[n]);
      ParseEntriesConcat(AllEncodings(privs[..n], granted), EncodingsOf(granted, privs[n]));
      GridStateStep(privs, granted);
    } else {
      NothingEncoded(privs, granted);
    }
  }

  lemma GridStateStep(privs: seq<string>, granted: seq<Cell>)
    requires |privs| > 0
    ensures var n := |privs| - 1;
            GridState(privs[..n], granted) + StateOfCell(LastFor(granted, privs[n]), privs[n]) == GridState(privs, granted)
  {
    hide LastFor;
    assert privs == privs[..|privs| - 1] + [privs[|privs| - 1]];
  }

  lemma NothingEncoded(privs: seq<string>, granted: seq<Cell>)
    requires privs == []
    ensures ParseEntries(AllEncodings(privs, granted)) == GridState(privs, granted) && AllEncodings(privs, granted) == []
  {
  }

  /** Decoding what completeCells encoded gives the grants that were there, duplicates
  included: the last cell for a privilege counts. */
  lemma DecodeOfEncode(pk: PrivKind, granted: seq<Cell>)
    requires HasPrivNames(pk)
    ensures ParsePrivState(Join(AllEncodings(pk.privs, granted), ",")) == GridState(pk.privs, granted)
  {
    hide AllEncodings, ParseEntries, SplitList, GridState, IsEntry;
    ParseAllEncodings(pk.privs, granted);
    SplitListOfJoin(AllEncodings(pk.privs, granted));
  }

  /** The displayed cells say the same as the encoded state: for each privilege, in
  display order, whether it is held and whether with the grant option. */
  lemma DisplayMatchesState(pk: PrivKind, granted: seq<Cell>)
    requires HasPrivNames(pk)
    requires forall c | c in granted :: c.has
    ensures var cells, state := CellsFor(pk.privs, granted), ParsePrivState(Join(AllEncodings(pk.privs, granted), ","));
            && |cells| == |pk.privs|
            && (forall i | 0 <= i < |cells| :: cells[i].priv == pk.privs[i]
                 && StateOf(state, pk.privs[i]) == if cells[i].has then Some(cells[i].opt) else None)
            && (forall p | p in state :: p in pk.privs)
  {
    DecodeOfEncode(pk, granted);
    var state := GridState(pk.privs, granted);
    assert forall p | p in state :: StateOf(state, p).Some?;
    hide ParsePrivState, AllEncodings, GridState, HasPrivNames;
    forall i | 0 <= i < |pk.privs|
      ensures CellFor(granted, pk.privs[i]).priv == pk.privs[i]
      ensures StateOf(state, pk.privs[i])
           == if CellFor(granted, pk.privs[i]).has then Some(CellFor(granted, pk.privs[i]).opt) else None
    {
      LastForIsGranted(granted, pk.privs[i]);
    }
  }

  lemma {:induction false} LastForIsGranted(granted: seq<Cell>, p: string)
    ensures LastFor(granted, p).Some? ==> LastFor(granted, p).value in granted && LastFor(granted, p).value.priv == p
  {
    if |granted| > 0 && granted[|granted| - 1].priv != p {
      LastForIsGranted(granted[..|granted| - 1], p);
    }
  }

  /** A name in the travelling state is held, with a star behind it with the grant option. */
  lemma StarIsTheOption(p: string)
    requires IsWord(p)
    ensures ParsePrivState(p) == map[p := false] && ParsePrivState(p + "*") == map[p := true]
  {
    CutEncoded(Cell(p, false, false));
    CutEncoded(Cell(p, false, true));
    hide IsEntry, IsWord, ParsePrivState, CutStar;
    OneEntry(p, p, false);
    OneEntry(p + "*", p, true);
  }

  lemma OneEntry(e: string, p: string, opt: bool)
    requires IsEntry(e) && CutStar(e) == (p, opt)
    ensures ParsePrivState(e) == map[p := opt]
  {
    hide IsEntry, SplitList, CutStar;
    SplitListOfJoin([e]);
    assert [e][..0] == [];
    assert ParseEntries([e]) == ParseEntries([])[p := opt];
  }

  // ---- A freshly loaded grid ----------------------------------------------------------------

  /** The privileges whose box is ticked when the cells are shown. */
  function TickedBoxes(cells: seq<Cell>): (r: seq<string>)
    ensures forall p :: p in r <==> exists i :: 0 <= i < |cells| && cells[i].has && cells[i].priv == p
  {
    if |cells| == 0 then []
    else
      var last := cells[|cells| - 1];
      var before := TickedBoxes(cells[..|cells| - 1]);
      if last.has then before + [last.priv] else before
  }

  function OptionBoxes(cells: seq<Cell>): (r: seq<string>)
    ensures forall p :: p in r <==> exists i :: 0 <= i < |cells| && cells[i].opt && cells[i].priv == p
  {
    if |cells| == 0 then []
    else
      var last := cells[|cells| - 1];
      var before := OptionBoxes(cells[..|cells| - 1]);
      if last.opt then before + [last.priv] else before
  }

  /** A row posted as it was loaded. */
  function Posted(row: LoadedRow): FormRow {
    FormRow(row.grantee, row.orig, TickedBoxes(row.cells), OptionBoxes(row.cells))
  }

  lemma {:induction false} GrantedCellsAreHeld(acl: seq<AclLine>, g: string)
    ensures forall c | c in GrantedTo(acl, g) :: c.has
  {
    if |acl| > 0 {
      GrantedCellsAreHeld(acl[..|acl| - 1], g);
    }
  }

  /** The boxes of shown cells, posted as they are. */
  lemma TickedAsShown(pk: PrivKind, cells: seq<Cell>, row: FormRow, i: nat)
    requires |cells| == |pk.privs| && i < |cells| && cells[i].priv == pk.privs[i]
    requires forall j | 0 <= j < |cells| && cells[j].priv == cells[i].priv :: cells[j] == cells[i]
    requires row.privs == TickedBoxes(cells) && row.opts == OptionBoxes(cells)
    ensures StateOf(Ticked(pk, row), pk.privs[i]) == if cells[i].has then Some(cells[i].opt) else None
  {
    hide TickedBoxes, OptionBoxes;
    var p := pk.privs[i];
    assert p in pk.privs;
    assert p in row.privs <==> cells[i].has;
    assert p in row.opts <==> cells[i].opt;
  }

  /** What the boxes of a freshly shown row say is what the encoded state says. */
  lemma PostedRowAgrees(pk: PrivKind, acl: seq<AclLine>, g: string)
    requires HasPrivNames(pk)
    ensures var row := Posted(LoadedFor(pk, acl, g));
            AgreeOn(pk.privs, ParsePrivState(row.orig), Ticked(pk, row))
  {
    var granted := GrantedTo(acl, g);
    var row := Posted(LoadedFor(pk, acl, g));
    var cells := CellsFor(pk.privs, granted);
    hide ParsePrivState, AllEncodings, CellsFor, TickedBoxes, OptionBoxes, HasPrivNames, CellFor, StateOf, Ticked;
    GrantedCellsAreHeld(acl, g);
    DisplayMatchesState(pk, granted);
    SameCells(pk.privs, granted);
    forall i | 0 <= i < |pk.privs|
      ensures StateOf(ParsePrivState(row.orig), pk.privs[i]) == StateOf(Ticked(pk, row), pk.privs[i])
    {
      TickedAsShown(pk, cells, row, i);
    }
  }

  /** A privilege listed twice is shown twice the same. */
  lemma SameCells(privs: seq<string>, granted: seq<Cell>)
    ensures var cells := CellsFor(privs, granted);
            forall i, j | 0 <= i < |cells| && 0 <= j < |cells| && cells[i].priv == cells[j].priv :: cells[i] == cells[j]
  {
    forall i | 0 <= i < |privs| ensures CellFor(granted, privs[i]).priv == privs[i] {
      LastForIsGranted(granted, privs[i]);
    }
    hide CellFor, CellsFor;
  }

  // ---- When nothing is requested --------------------------------------------------------------

  /** The row's boxes say what its loaded state says. */
  ghost predicate RowAgrees(pk: PrivKind, row: FormRow) {
    row.grantee != "" ==> AgreeOn(pk.privs, ParsePrivState(row.orig), Ticked(pk, row))
  }

  ghost predicate AllAgree(pk: PrivKind, rows: seq<FormRow>) {
    forall i | 0 <= i < |rows| :: RowAgrees(pk, rows[i])
  }

  lemma AllAgreeStep(pk: PrivKind, rows: seq<FormRow>)
    requires |rows| > 0
    ensures AllAgree(pk, rows) <==> AllAgree(pk, rows[..|rows| - 1]) && RowAgrees(pk, rows[|rows| - 1])
  {
    hide RowAgrees;
    assert forall i | 0 <= i < |rows| - 1 :: rows[..|rows| - 1][i] == rows[i];
  }

  lemma RowsToSqlStep(pk: PrivKind, target: string, rows: seq<FormRow>)
    requires |rows| > 0
    ensures var n := |rows| - 1;
            RowsToSql(pk, target, rows) == [] <==> RowsToSql(pk, target, rows[..n]) == [] && RowChanges(pk, rows[n]) == []
  {
    hide RowChanges, RenderChanges, GranteeSql;
  }

  lemma {:induction false} NoSqlIffRowsAgree(pk: PrivKind, target: string, rows: seq<FormRow>)
    ensures RowsToSql(pk, target, rows) == [] <==> AllAgree(pk, rows)
  {
    if |rows| > 0 {
      hide RowAgrees, RowChanges, RowsToSql, AllAgree;
      NoSqlIffRowsAgree(pk, target, rows[..|rows| - 1]);
      RowsToSqlStep(pk, target, rows);
      AllAgreeStep(pk, rows);
      NoChangeIffRowAgrees(pk, rows[|rows| - 1]);
    }
  }

  lemma NoChangeIffRowAgrees(pk: PrivKind, row: FormRow)
    ensures RowChanges(pk, row) == [] <==> RowAgrees(pk, row)
  {
    hide Diff, AgreeOn, ParsePrivState, Ticked;
    DiffIsEmptyIffAgree(pk.privs, ParsePrivState(row.orig), Ticked(pk, row));
  }

  /** The form is refused for lack of changes exactly when every row agrees with what
  it was loaded with and the new grantee, if any, is given nothing. */
  lemma NoChangesIffAgree(form: PrivForm)
    requires KindOf(form.kind).Some? && PrivTarget(KindOf(form.kind).value, form.schema, form.name).Ok?
    ensures Script(form) == Err("No changes requested.")
       <==> CountAccepted(form) && AllAgree(KindOf(form.kind).value, AllRows(form))
  {
    hide KindOf, PrivTarget, RowsToSql, RowAgrees;
    NoSqlIffRowsAgree(KindOf(form.kind).value, PrivTarget(KindOf(form.kind).value, form.schema, form.name).value, AllRows(form));
    assert "No changes requested."[0] != "Too many grantees."[0];
  }

  function PostedAll(rows: seq<LoadedRow>): (r: seq<FormRow>)
    ensures |r| == |rows| && forall i :: 0 <= i < |r| ==> r[i] == Posted(rows[i])
  {
    if |rows| == 0 then [] else [Posted(rows[0])] + PostedAll(rows[1..])
  }

  /** One row of the grid as it is posted back. */
  lemma FreshRowAgrees(pk: PrivKind, acl: seq<AclLine>, i: nat)
    requires HasPrivNames(pk)
    ensures RowAgrees(pk, RowAt(PostedAll(LoadedRows(pk, acl, GranteesOf(acl))), i))
  {
    hide *;
    var rows := LoadedRows(pk, acl, GranteesOf(acl));
    if i < |rows| {
      PostedRow(pk, acl, i);
      PostedRowAgrees(pk, acl, GranteesOf(acl)[i]);
      AgreeingRow(pk, Posted(LoadedFor(pk, acl, GranteesOf(acl)[i])));
    } else {
      MissingRowAgrees(pk, PostedAll(rows), i);
    }
  }

  lemma AgreeingRow(pk: PrivKind, row: FormRow)
    requires AgreeOn(pk.privs, ParsePrivState(row.orig), Ticked(pk, row))
    ensures RowAgrees(pk, row)
  {
  }

  lemma PostedRow(pk: PrivKind, acl: seq<AclLine>, i: nat)
    requires i < |LoadedRows(pk, acl, GranteesOf(acl))|
    ensures i < |GranteesOf(acl)|
    ensures RowAt(PostedAll(LoadedRows(pk, acl, GranteesOf(acl))), i) == Posted(LoadedFor(pk, acl, GranteesOf(acl)[i]))
  {
    hide GranteesOf, PostedAll, Posted, LoadedFor;
  }

  lemma MissingRowAgrees(pk: PrivKind, rows: seq<FormRow>, i: nat)
    requires i >= |rows|
    ensures RowAgrees(pk, RowAt(rows, i))
  {
  }

  /** The grid of a table as it was loaded, with its number of rows as the page prints it. */
  function FreshForm(kind: string, schema: string, name: string, acl: seq<AclLine>): PrivForm
    requires KindOf(kind).Some?
  {
    var rows := LoadedRows(KindOf(kind).value, acl, GranteesOf(acl));
    PrivForm(kind, schema, name, Itoa(|rows|), PostedAll(rows), FormRow("", "", [], []))
  }

  lemma FreshRowsAgree(kind: string, schema: string, name: string, acl: seq<AclLine>)
    requires KindOf(kind).Some?
    ensures AllAgree(KindOf(kind).value, AllRows(FreshForm(kind, schema, name, acl)))
  {
    var pk := KindOf(kind).value;
    var all := AllRows(FreshForm(kind, schema, name, acl));
    KindsHavePrivNames(kind);
    MissingRowAgrees(pk, [], 0);
    hide KindOf, RowAgrees, LoadedRows, PostedAll, GranteesOf, AtoiOrNearest, Itoa, HasPrivNames;
    forall i | 0 <= i < |all| ensures RowAgrees(pk, all[i]) {
      if i < |all| - 1 {
        FreshRowAgrees(pk, acl, i);
      }
    }
  }

  /** Loading the grid and posting it back unchanged is refused for lack of changes,
  for every ACL of at most MAX_PRIV_ROWS grantees and for no larger one. */
  lemma FreshGridRequestsNothing(kind: string, schema: string, name: string, acl: seq<AclLine>)
    requires KindOf(kind).Some? && PrivTarget(KindOf(kind).value, schema, name).Ok?
    ensures Script(FreshForm(kind, schema, name, acl)) == Err("No changes requested.") <==> |GranteesOf(acl)| <= MAX_PRIV_ROWS
  {
    hide KindOf, PrivTarget, Script, GranteesOf, PostedAll, LoadedFor, AtoiOrNearest, Itoa, AllAgree, AllRows;
    CountReadsBack(|GranteesOf(acl)|);
    FreshRowsAgree(kind, schema, name, acl);
    NoChangesIffAgree(FreshForm(kind, schema, name, acl));
  }

  // ---- Editing the grid ----------------------------------------------------------------------

  /** What the lines say about a grantee and a privilege: the last of several counts. */
  function LineFor(lines: seq<AclLine>, g: string, p: string): Option<bool> {
    if |lines| == 0 then None
    else
      var last := lines[|lines| - 1];
      if last.grantee == g && last.priv == p then Some(last.grantable) else LineFor(lines[..|lines| - 1], g, p)
  }

  /** The ACL that the server reports as these lines. */
  ghost predicate Reported(pk: PrivKind, lines: seq<AclLine>, acl: Acl) {
    forall g, p | p in pk.privs :: StateOf(Held(acl, g), p) == LineFor(lines, g, p)
  }

  lemma {:induction false} LastCellIsLine(lines: seq<AclLine>, g: string, p: string)
    ensures LastFor(GrantedTo(lines, g), p) == match LineFor(lines, g, p) case None => None case Some(opt) => Some(Cell(p, true, opt))
  {
    if |lines| > 0 {
      LastCellIsLine(lines[..|lines| - 1], g, p);
      var before, last := GrantedTo(lines[..|lines| - 1], g), lines[|lines| - 1];
      if last.grantee == g {
        assert (before + [Cell(last.priv, true, last.grantable)])[..|before|] == before;
      } else {
        assert before + [] == before;
      }
    }
  }

  /** A row of the loaded grid shows, in display order, for each privilege what the lines say of it. */
  lemma GridShowsTheLines(pk: PrivKind, lines: seq<AclLine>, i: nat, j: nat)
    requires i < |GranteesOf(lines)| && j < |pk.privs|
    ensures var rows, said := LoadedRows(pk, lines, GranteesOf(lines)), LineFor(lines, GranteesOf(lines)[i], pk.privs[j]);
            && |rows| == |GranteesOf(lines)| && rows[i].grantee == GranteesOf(lines)[i] && |rows[i].cells| == |pk.privs|
            && rows[i].cells[j] == Cell(pk.privs[j], said.Some?, said == Some(true))
  {
    hide GranteesOf, GrantedTo, LastFor, LineFor;
    LastCellIsLine(lines, GranteesOf(lines)[i], pk.privs[j]);
  }

  /** The first line about a grantee, or the number of lines. */
  function FirstLine(lines: seq<AclLine>, g: string): nat
    decreases |lines|
  {
    if |lines| == 0 || lines[0].grantee == g then 0 else 1 + FirstLine(lines[1..], g)
  }

  lemma {:induction false} FirstLineStays(lines: seq<AclLine>, l: AclLine, g: string)
    ensures (exists i :: 0 <= i < |lines| && lines[i].grantee == g) ==> FirstLine(lines + [l], g) == FirstLine(lines, g) < |lines|
    ensures (forall i | 0 <= i < |lines| :: lines[i].grantee != g) ==> FirstLine(lines, g) == |lines| <= FirstLine(lines + [l], g)
    decreases |lines|
  {
    if |lines| > 0 {
      assert (lines + [l])[1..] == lines[1..] + [l];
      FirstLineStays(lines[1..], l, g);
      assert forall i | 1 <= i < |lines| :: lines[1..][i - 1] == lines[i];
    }
  }

  /** The rows of the loaded grid: each grantee of a line once, in the order of their first lines. */
  lemma {:induction false} GranteesInOrder(lines: seq<AclLine>)
    ensures var r := GranteesOf(lines);
            && (forall g :: g in r <==> exists i :: 0 <= i < |lines| && lines[i].grantee == g)
            && InOrder(lines, r)
  {
    if |lines| > 0 {
      var before, l := lines[..|lines| - 1], lines[|lines| - 1];
      var r := GranteesOf(before);
      GranteesInOrder(before);
      assert lines == before + [l];
      hide FirstLine;
      OrderStays(before, l, r);
    }
  }

  ghost predicate InOrder(lines: seq<AclLine>, r: seq<string>) {
    forall i, j | 0 <= i < j < |r| :: FirstLine(lines, r[i]) < FirstLine(lines, r[j])
  }

  lemma OrderStays(before: seq<AclLine>, l: AclLine, r: seq<string>)
    requires InOrder(before, r) && forall g :: g in r <==> exists i :: 0 <= i < |before| && before[i].grantee == g
    ensures InOrder(before + [l], if l.grantee in r then r else r + [l.grantee])
  {
    hide FirstLine;
    forall i | 0 <= i < |r| ensures FirstLine(before + [l], r[i]) == FirstLine(before, r[i]) < |before| {
      assert r[i] in r;
      FirstLineStays(before, l, r[i]);
    }
    if l.grantee !in r {
      FirstLineStays(before, l, l.grantee);
    }
  }

  /** Rows as loaded, with any boxes ticked since. */
  predicate EditedFrom(rows: seq<LoadedRow>, posted: seq<FormRow>) {
    && |posted| == |rows|
    && forall i | 0 <= i < |rows| :: posted[i].grantee == rows[i].grantee && posted[i].orig == rows[i].orig
  }

  lemma LoadedIsReported(pk: PrivKind, lines: seq<AclLine>, acl: Acl, g: string)
    requires Reported(pk, lines, acl)
    ensures AgreeOn(pk.privs, Held(acl, g), GridState(pk.privs, GrantedTo(lines, g)))
  {
    hide Held, GrantedTo, LastFor, LineFor;
    forall p | p in pk.privs ensures StateOf(Held(acl, g), p) == StateOf(GridState(pk.privs, GrantedTo(lines, g)), p) {
      LastCellIsLine(lines, g, p);
    }
  }

  /** From the ACL to the grid, any edit, and the script run on the same ACL: the
  grantees of the grid hold exactly what was ticked, nobody else is touched. */
  lemma EditedGridIsReached(pk: PrivKind, lines: seq<AclLine>, acl: Acl, posted: seq<FormRow>)
    requires HasPrivNames(pk) && Reported(pk, lines, acl)
    requires EditedFrom(LoadedRows(pk, lines, GranteesOf(lines)), posted)
    ensures AsSubmitted(pk, posted, acl, Exec(acl, FormStatements(pk, posted)))
  {
    hide AsSubmitted, Exec, FormStatements, GranteesOf, LoadedRows, AgreeOn, ParsePrivState, HasPrivNames, GridState, AllEncodings;
    hide CellsFor, Held;
    forall i | 0 <= i < |posted| ensures AgreeOn(pk.privs, Held(acl, posted[i].grantee), ParsePrivState(posted[i].orig)) {
      var g := GranteesOf(lines)[i];
      DecodeOfEncode(pk, GrantedTo(lines, g));
      LoadedIsReported(pk, lines, acl, g);
    }
    RowsReachSubmitted(pk, posted, acl);
  }

  /** A privilege ticked for a grantee who already holds something. */
  function Merged(held: Option<bool>, ticked: Option<bool>): Option<bool> {
    match ticked
    case None => held
    case Some(true) => Some(true)
    case Some(false) => if held.Some? then held else Some(false)
  }

  lemma NothingEncodedIsNothing()
    ensures ParsePrivState("") == map[]
  {
    assert Trim("") == "";
    assert SplitList("") == [];
  }

  /** The row for a new grantee only adds: whoever it names, even someone the grid
  already has a row for, keeps what the grid gave and gets the ticked boxes on top. */
  lemma AddedRowMerges(pk: PrivKind, form: PrivForm, acl: Acl)
    ensures var mid, after := Exec(acl, FormStatements(pk, Grid(form))), Exec(acl, FormStatements(pk, AllRows(form)));
            forall h, p :: StateOf(Held(after, h), p) ==
              if h == form.added.grantee && h != "" && p in pk.privs then Merged(StateOf(Held(mid, h), p), StateOf(Ticked(pk, form.added), p))
              else StateOf(Held(mid, h), p)
  {
    var added := form.added.(orig := "");
    var rows := AllRows(form);
    assert rows[..|rows| - 1] == Grid(form);
    ghost var mid := Exec(acl, FormStatements(pk, Grid(form)));
    ExecConcat(acl, FormStatements(pk, Grid(form)), For(added.grantee, RowChanges(pk, added)));
    ExecFor(mid, added.grantee, RowChanges(pk, added));
    hide Exec, FormStatements, Held;
    forall p ensures StateOf(RunOn(Held(mid, added.grantee), RowChanges(pk, added)), p)
                  == (if added.grantee != "" && p in pk.privs
                      then Merged(StateOf(Held(mid, added.grantee), p), StateOf(Ticked(pk, form.added), p))
                      else StateOf(Held(mid, added.grantee), p))
    {
      AddedRowOn(pk, added, Held(mid, added.grantee), p);
      assert Ticked(pk, form.added) == Ticked(pk, added);
    }
  }

  lemma AddedRowOn(pk: PrivKind, row: FormRow, held: Grants, p: string)
    requires row.orig == ""
    ensures StateOf(RunOn(held, RowChanges(pk, row)), p)
         == if row.grantee != "" && p in pk.privs then Merged(StateOf(held, p), StateOf(Ticked(pk, row), p)) else StateOf(held, p)
  {
    NothingEncodedIsNothing();
    hide RunOn, Diff, ParsePrivState;
    if row.grantee == "" {
      LastRowUnnamed(pk, row, held);
    } else {
      RunOnDiff(pk.privs, map[], Ticked(pk, row), held, p);
    }
  }
}
