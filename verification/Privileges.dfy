/** The privilege grid of internal/web/privileges.go: loading, encoding, diffing. */
module Privileges {
  import opened Wrappers
  import opened GoStrings
  import opened SqlQuote
  import opened ClosedSql
  import opened Lists
  import opened Numbers

  datatype PrivKind = PrivKind(keyword: string, privs: seq<string>, server: bool)

  const TABLE_PRIVS := ["SELECT", "INSERT", "UPDATE", "DELETE", "TRUNCATE", "REFERENCES", "TRIGGER"]

  function KindOf(kind: string): Option<PrivKind> {
    match kind
    case "database" => Some(PrivKind("DATABASE", ["CONNECT", "CREATE", "TEMPORARY"], true))
    case "tablespace" => Some(PrivKind("TABLESPACE", ["CREATE"], true))
    case "schema" => Some(PrivKind("SCHEMA", ["USAGE", "CREATE"], false))
    case "table" => Some(PrivKind("TABLE", TABLE_PRIVS, false))
    case "view" => Some(PrivKind("TABLE", TABLE_PRIVS, false))
    case "matview" => Some(PrivKind("TABLE", TABLE_PRIVS, false))
    case "sequence" => Some(PrivKind("SEQUENCE", ["USAGE", "SELECT", "UPDATE"], false))
    case "function" => Some(PrivKind("FUNCTION", ["EXECUTE"], false))
    case "procedure" => Some(PrivKind("PROCEDURE", ["EXECUTE"], false))
    case _ => None
  }

  predicate IsRoutineKind(pk: PrivKind) {
    pk.keyword == "FUNCTION" || pk.keyword == "PROCEDURE"
  }

  /** Privileges held, and whether each carries the grant option. */
  type Grants = map<string, bool>

  // ---- Statements ------------------------------------------------------------------------

  datatype Verb = Revoke | RevokeOption | Grant | GrantWithOption

  /** One GRANT or REVOKE statement about one grantee. */
  datatype Change = Change(verb: Verb, privs: seq<string>)

  /** What has to happen to privilege p. */
  function VerbFor(orig: Grants, cur: Grants, p: string): Option<Verb> {
    if p in orig && p !in cur then Some(Revoke)
    else if p in cur && p !in orig then Some(if cur[p] then GrantWithOption else Grant)
    else if p in cur && cur[p] && !orig[p] then Some(GrantWithOption)
    else if p in cur && !cur[p] && orig[p] then Some(RevokeOption)
    else None
  }

  /** The privileges that need `verb`, in display order. */
  function PrivsFor(privs: seq<string>, orig: Grants, cur: Grants, verb: Verb): (r: seq<string>)
    ensures forall p :: p in r <==> p in privs && VerbFor(orig, cur, p) == Some(verb)
  {
    if |privs| == 0 then []
    else
      var last := privs[|privs| - 1];
      PrivsFor(privs[..|privs| - 1], orig, cur, verb) + if VerbFor(orig, cur, last) == Some(verb) then [last] else []
  }

  /** One statement for the privileges of a list, none for an empty list. */
  function Group(verb: Verb, privs: seq<string>): seq<Change> {
    if privs == [] then [] else [Change(verb, privs)]
  }

  function ChangeFor(privs: seq<string>, orig: Grants, cur: Grants, verb: Verb): seq<Change> {
    Group(verb, PrivsFor(privs, orig, cur, verb))
  }

  /** The statements of privDiff: revokes first, privileges with the same fate together. */
  function Diff(privs: seq<string>, orig: Grants, cur: Grants): seq<Change> {
    ChangeFor(privs, orig, cur, Revoke) + ChangeFor(privs, orig, cur, RevokeOption)
    + ChangeFor(privs, orig, cur, Grant) + ChangeFor(privs, orig, cur, GrantWithOption)
  }

  function RenderChange(c: Change, target: string, grantee: string): string {
    match c.verb
    case Revoke => "REVOKE " + Join(c.privs, ", ") + " ON " + target + " FROM " + grantee + ""
    case RevokeOption => "REVOKE GRANT OPTION FOR " + Join(c.privs, ", ") + " ON " + target + " FROM " + grantee + ""
    case Grant => "GRANT " + Join(c.privs, ", ") + " ON " + target + " TO " + grantee + ""
    case GrantWithOption => "GRANT " + Join(c.privs, ", ") + " ON " + target + " TO " + grantee + " WITH GRANT OPTION"
  }

  function RenderChanges(cs: seq<Change>, target: string, grantee: string): (r: seq<string>)
    ensures |r| == |cs| && forall i :: 0 <= i < |r| ==> r[i] == RenderChange(cs[i], target, grantee)
  {
    if |cs| == 0 then [] else [RenderChange(cs[0], target, grantee)] + RenderChanges(cs[1..], target, grantee)
  }

  /** One more privilege goes on the list of its verb. */
  lemma PrivsForStep(privs: seq<string>, i: nat, orig: Grants, cur: Grants, verb: Verb)
    requires i < |privs|
    ensures PrivsFor(privs[..i + 1], orig, cur, verb)
         == PrivsFor(privs[..i], orig, cur, verb) + if VerbFor(orig, cur, privs[i]) == Some(verb) then [privs[i]] else []
  {
    assert privs[..i + 1][..i] == privs[..i];
  }

  /** The four lists of privDiff after some of the privileges. */
  datatype FateLists = FateLists(revoke: seq<string>, dropOpt: seq<string>, grant: seq<string>, grantOpt: seq<string>)

  function ListsFor(privs: seq<string>, orig: Grants, cur: Grants): FateLists {
    FateLists(PrivsFor(privs, orig, cur, Revoke), PrivsFor(privs, orig, cur, RevokeOption),
              PrivsFor(privs, orig, cur, Grant), PrivsFor(privs, orig, cur, GrantWithOption))
  }

  lemma ListsForStep(privs: seq<string>, i: nat, orig: Grants, cur: Grants)
    requires i < |privs|
    ensures var l, p := ListsFor(privs[..i], orig, cur), [privs[i]];
            ListsFor(privs[..i + 1], orig, cur) == match VerbFor(orig, cur, privs[i])
              case None => l
              case Some(Revoke) => l.(revoke := l.revoke + p)
              case Some(RevokeOption) => l.(dropOpt := l.dropOpt + p)
              case Some(Grant) => l.(grant := l.grant + p)
              case Some(GrantWithOption) => l.(grantOpt := l.grantOpt + p)
  {
    PrivsForStep(privs, i, orig, cur, Revoke);
    PrivsForStep(privs, i, orig, cur, RevokeOption);
    PrivsForStep(privs, i, orig, cur, Grant);
    PrivsForStep(privs, i, orig, cur, GrantWithOption);
    hide PrivsFor;
  }

  /** privDiff: one pass that sorts the privileges into four lists, then up to four statements. */
  method PrivDiff(pk: PrivKind, target: string, grantee: string, orig: Grants, cur: Grants) returns (out: seq<string>)
    ensures out == RenderChanges(Diff(pk.privs, orig, cur), target, grantee)
  {
    hide PrivsFor, RenderChanges, Group;
    var revoke, dropOpt, grant, grantOpt := SortByFate(pk.privs, orig, cur);
    out := Emit([], Revoke, revoke, target, grantee);
    out := Emit(out, RevokeOption, dropOpt, target, grantee);
    out := Emit(out, Grant, grant, target, grantee);
    out := Emit(out, GrantWithOption, grantOpt, target, grantee);
    RenderFour(Group(Revoke, revoke), Group(RevokeOption, dropOpt), Group(Grant, grant), Group(GrantWithOption, grantOpt),
               target, grantee);
  }

  method SortByFate(privs: seq<string>, orig: Grants, cur: Grants)
    returns (revoke: seq<string>, dropOpt: seq<string>, grant: seq<string>, grantOpt: seq<string>)
    ensures FateLists(revoke, dropOpt, grant, grantOpt) == ListsFor(privs, orig, cur)
  {
    hide PrivsFor, ListsFor;
    revoke, dropOpt, grant, grantOpt := [], [], [], [];
    assert ListsFor(privs[..0], orig, cur) == FateLists([], [], [], []) by { NoLists(privs[..0], orig, cur); }
    for i := 0 to |privs|
      invariant FateLists(revoke, dropOpt, grant, grantOpt) == ListsFor(privs[..i], orig, cur)
    {
      var p := privs[i];
      ListsForStep(privs, i, orig, cur);
      var inOrig, inCur := p in orig, p in cur;
      if inOrig && !inCur {
        revoke := revoke + [p];
      } else if inCur && !inOrig {
        if cur[p] {
          grantOpt := grantOpt + [p];
        } else {
          grant := grant + [p];
        }
      } else if inCur && cur[p] && !orig[p] {
        grantOpt := grantOpt + [p];
      } else if inCur && !cur[p] && orig[p] {
        dropOpt := dropOpt + [p];
      }
    }
    assert privs[..|privs|] == privs;
  }

  lemma NoLists(privs: seq<string>, orig: Grants, cur: Grants)
    requires privs == []
    ensures ListsFor(privs, orig, cur) == FateLists([], [], [], [])
  {
  }

  /** Appends the statement for one list, unless the list is empty. */
  method Emit(before: seq<string>, verb: Verb, privs: seq<string>, target: string, grantee: string) returns (out: seq<string>)
    ensures out == before + RenderChanges(Group(verb, privs), target, grantee)
  {
    out := before;
    if |privs| > 0 {
      out := out + [RenderChange(Change(verb, privs), target, grantee)];
    }
  }

  lemma RenderFour(a: seq<Change>, b: seq<Change>, c: seq<Change>, d: seq<Change>, target: string, grantee: string)
    ensures RenderChanges(a + b + c + d, target, grantee)
         == [] + RenderChanges(a, target, grantee) + RenderChanges(b, target, grantee)
            + RenderChanges(c, target, grantee) + RenderChanges(d, target, grantee)
  {
    hide RenderChanges;
    RenderConcat(a + b + c, d, target, grantee);
    RenderConcat(a + b, c, target, grantee);
    RenderConcat(a, b, target, grantee);
  }

  lemma RenderConcat(a: seq<Change>, b: seq<Change>, target: string, grantee: string)
    ensures RenderChanges(a + b, target, grantee) == RenderChanges(a, target, grantee) + RenderChanges(b, target, grantee)
  {
    hide RenderChange;
  }

  // ---- The form --------------------------------------------------------------------------

  /** A grantee row as posted: the state it was loaded with and the ticked boxes. */
  datatype FormRow = FormRow(grantee: string, orig: string, privs: seq<string>, opts: seq<string>)

  /** The posted form: `count` is the field that says how many rows there are, `rows` the
  numbered fields; of a row that was not posted every field is empty. */
  datatype PrivForm = PrivForm(kind: string, schema: string, name: string, count: string, rows: seq<FormRow>, added: FormRow)

  const MAX_PRIV_ROWS := 500

  function CutStar(p: string): (string, bool) {
    if p != "" && p[|p| - 1] == '*' then (p[..|p| - 1], true) else (p, false)
  }

  function ParseEntries(entries: seq<string>): Grants {
    if |entries| == 0 then map[]
    else
      var (p, opt) := CutStar(entries[|entries| - 1]);
      ParseEntries(entries[..|entries| - 1])[p := opt]
  }

  function ParsePrivState(s: string): Grants {
    ParseEntries(SplitList(s))
  }

  /** parsePrivState: later entries for a privilege win. */
  method DecodePrivState(s: string) returns (m: Grants)
    ensures m == ParsePrivState(s)
  {
    m := map[];
    var entries := ParseList(s);
    for i := 0 to |entries|
      invariant m == ParseEntries(entries[..i])
    {
      var (p, opt) := CutStar(entries[i]);
      assert entries[..i + 1][..i] == entries[..i];
      m := m[p := opt];
    }
    assert entries[..|entries|] == entries;
  }

  /** The ticked boxes that name a privilege of the kind. */
  function Ticked(pk: PrivKind, row: FormRow): Grants {
    map p | p in row.privs && p in pk.privs :: p in row.opts
  }

  method CollectTicked(pk: PrivKind, row: FormRow) returns (cur: Grants)
    ensures cur == Ticked(pk, row)
  {
    cur := map[];
    for i := 0 to |row.privs|
      invariant cur == map p | p in row.privs[..i] && p in pk.privs :: p in row.opts
    {
      var p := row.privs[i];
      assert row.privs[..i + 1] == row.privs[..i] + [p];
      if p in pk.privs {
        cur := cur[p := p in row.opts];
      }
    }
    assert row.privs[..|row.privs|] == row.privs;
  }

  function GranteeSql(g: string): string {
    if g == "PUBLIC" then g else QuoteIdent(g)
  }

  predicate IsRoutineArgChar(c: char) {
    'A' <= c <= 'Z' || 'a' <= c <= 'z' || '0' <= c <= '9' || c in "_ ,.\"[]"
  }

  /** The pattern for "(identity arguments)". */
  predicate IsRoutineArgs(s: string) {
    |s| >= 2 && s[0] == '(' && s[|s| - 1] == ')' && forall i :: 1 <= i < |s| - 1 ==> IsRoutineArgChar(s[i])
  }

  function IndexOf(s: string, c: char): (i: nat)
    ensures i <= |s| && (i < |s| ==> s[i] == c) && forall j :: 0 <= j < i ==> s[j] != c
  {
    if s == "" || s[0] == c then 0 else 1 + IndexOf(s[1..], c)
  }

  function QualifiedRoutine(schema: string, name: string): string {
    var i := IndexOf(name, '(');
    if i < |name| then QualIdent(schema, name[..i]) + name[i..] else QualIdent(schema, name)
  }

  function PrivTarget(pk: PrivKind, schema: string, name: string): Result<string> {
    if name == "" then Err("Object name is required.")
    else if IsRoutineKind(pk) && (IndexOf(name, '(') == |name| || !IsRoutineArgs(name[IndexOf(name, '(')..]) || QuoteCount(name) % 2 != 0)
    then Err("Invalid routine signature.")
    else if pk.server || pk.keyword == "SCHEMA" then Ok(pk.keyword + " " + QuoteIdent(name))
    else if schema == "" then Err("Schema is required.")
    else if IsRoutineKind(pk) then Ok(pk.keyword + " " + QualifiedRoutine(schema, name))
    else Ok(pk.keyword + " " + QualIdent(schema, name))
  }

  predicate CountAccepted(form: PrivForm) {
    0 <= AtoiOrNearest(form.count) <= MAX_PRIV_ROWS
  }

  function RowAt(rows: seq<FormRow>, i: nat): FormRow {
    if i < |rows| then rows[i] else FormRow("", "", [], [])
  }

  /** The first `n` rows of the form, posted or not. */
  function GridRows(rows: seq<FormRow>, n: int): (r: seq<FormRow>)
    ensures |r| == if n < 0 then 0 else n
    ensures forall i :: 0 <= i < |r| ==> r[i] == RowAt(rows, i)
  {
    if n <= 0 then [] else GridRows(rows, n - 1) + [RowAt(rows, n - 1)]
  }

  function Grid(form: PrivForm): seq<FormRow> {
    GridRows(form.rows, AtoiOrNearest(form.count))
  }

  /** The rows in the order the statements are built: the existing ones, then the new
  grantee, whose original state is empty. */
  function AllRows(form: PrivForm): seq<FormRow> {
    Grid(form) + [form.added.(orig := "")]
  }

  function RowChanges(pk: PrivKind, row: FormRow): seq<Change> {
    if row.grantee == "" then [] else Diff(pk.privs, ParsePrivState(row.orig), Ticked(pk, row))
  }

  function RowsToSql(pk: PrivKind, target: string, rows: seq<FormRow>): seq<string> {
    if |rows| == 0 then []
    else RowsToSql(pk, target, rows[..|rows| - 1])
         + RenderChanges(RowChanges(pk, rows[|rows| - 1]), target, GranteeSql(rows[|rows| - 1].grantee))
  }

  function Script(form: PrivForm): Result<string> {
    match KindOf(form.kind)
    case None => Err("Unsupported object kind.")
    case Some(pk) =>
      match PrivTarget(pk, form.schema, form.name)
      case Err(m) => Err(m)
      case Ok(target) =>
        if !CountAccepted(form) then Err("Too many grantees.")
        else
          var stmts := RowsToSql(pk, target, AllRows(form));
          if stmts == [] then Err("No changes requested.") else Ok(JoinStatements(stmts))
  }

  method BuildPrivileges(form: PrivForm) returns (r: Result<string>)
    ensures r == Script(form)
  {
    hide KindOf, PrivTarget, RowsToSql;
    var kind := KindOf(form.kind);
    if kind.None? {
      return Err("Unsupported object kind.");
    }
    var pk := kind.value;
    var target := PrivTarget(pk, form.schema, form.name);
    if target.Err? {
      return target;
    }
    var rows := AtoiOrNearest(form.count);
    if rows < 0 || rows > MAX_PRIV_ROWS {
      return Err("Too many grantees.");
    }
    var stmts := StatementsFor(pk, target.value, form, rows);
    if |stmts| == 0 {
      return Err("No changes requested.");
    }
    return Ok(JoinStatements(stmts));
  }

  /** The loop of buildPrivileges over the rows; the last turn is the new grantee's. */
  method StatementsFor(pk: PrivKind, target: string, form: PrivForm, rows: nat) returns (stmts: seq<string>)
    requires rows == AtoiOrNearest(form.count)
    ensures stmts == RowsToSql(pk, target, AllRows(form))
  {
    hide *;
    ghost var all := AllRows(form);
    AllRowsAt(form);
    stmts := [];
    NoRowsNoSql(pk, target, all[..0]);
    for i := 0 to rows + 1
      invariant stmts == RowsToSql(pk, target, all[..i])
    {
      var row := RowAt(form.rows, i);
      if i == rows {
        row := form.added.(orig := "");
      }
      OneRowMore(pk, target, all, i);
      var more := RowStatements(pk, target, row);
      stmts := stmts + more;
    }
    assert all[..rows + 1] == all;
  }

  lemma AllRowsAt(form: PrivForm)
    requires AtoiOrNearest(form.count) >= 0
    ensures var n, all := AtoiOrNearest(form.count), AllRows(form);
            |all| == n + 1 && all[n] == form.added.(orig := "") && forall i | 0 <= i < n :: all[i] == RowAt(form.rows, i)
  {
  }

  lemma NoRowsNoSql(pk: PrivKind, target: string, rows: seq<FormRow>)
    requires rows == []
    ensures RowsToSql(pk, target, rows) == []
  {
  }

  lemma OneRowMore(pk: PrivKind, target: string, rows: seq<FormRow>, i: nat)
    requires i < |rows|
    ensures RowsToSql(pk, target, rows[..i + 1])
         == RowsToSql(pk, target, rows[..i]) + RenderChanges(RowChanges(pk, rows[i]), target, GranteeSql(rows[i].grantee))
  {
    assert rows[..i + 1][..i] == rows[..i];
  }

  /** One turn of that loop; a row without a grantee is passed over. */
  method RowStatements(pk: PrivKind, target: string, row: FormRow) returns (stmts: seq<string>)
    ensures stmts == RenderChanges(RowChanges(pk, row), target, GranteeSql(row.grantee))
  {
    if row.grantee == "" {
      return [];
    }
    hide ParsePrivState, Ticked, Diff, RenderChanges, GranteeSql;
    var orig := DecodePrivState(row.orig);
    var cur := CollectTicked(pk, row);
    stmts := PrivDiff(pk, target, GranteeSql(row.grantee), orig, cur);
  }

  // ---- Loading the grid --------------------------------------------------------------------

  datatype Cell = Cell(priv: string, has: bool, opt: bool)

  /** The last cell given for a privilege. */
  function LastFor(granted: seq<Cell>, p: string): Option<Cell> {
    if |granted| == 0 then None
    else if granted[|granted| - 1].priv == p then Some(granted[|granted| - 1])
    else LastFor(granted[..|granted| - 1], p)
  }

  function Encode(c: Cell): string {
    if c.opt then c.priv + "*" else c.priv
  }

  function EncodingsOf(granted: seq<Cell>, p: string): seq<string> {
    if |granted| == 0 then []
    else EncodingsOf(granted[..|granted| - 1], p)
         + if granted[|granted| - 1].priv == p then [Encode(granted[|granted| - 1])] else []
  }

  function CellFor(granted: seq<Cell>, p: string): Cell {
    match LastFor(granted, p)
    case None => Cell(p, false, false)
    case Some(c) => c
  }

  function CellsFor(privs: seq<string>, granted: seq<Cell>): (r: seq<Cell>)
    ensures |r| == |privs| && forall i :: 0 <= i < |r| ==> r[i] == CellFor(granted, privs[i])
  {
    if |privs| == 0 then [] else CellsFor(privs[..|privs| - 1], granted) + [CellFor(granted, privs[|privs| - 1])]
  }

  function AllEncodings(privs: seq<string>, granted: seq<Cell>): seq<string> {
    if |privs| == 0 then []
    else AllEncodings(privs[..|privs| - 1], granted) + EncodingsOf(granted, privs[|privs| - 1])
  }

  /** completeCells: the cells to show and the encoded state to travel along. */
  method CompleteCells(pk: PrivKind, granted: seq<Cell>) returns (cells: seq<Cell>, orig: string)
    ensures cells == CellsFor(pk.privs, granted)
    ensures orig == Join(AllEncodings(pk.privs, granted), ",")
  {
    cells := [];
    var encodings := [];
    for i := 0 to |pk.privs|
      invariant cells == CellsFor(pk.privs[..i], granted) && encodings == AllEncodings(pk.privs[..i], granted)
    {
      var p := pk.privs[i];
      assert pk.privs[..i + 1][..i] == pk.privs[..i];
      var c := Cell(p, false, false);
      ghost var before := encodings;
      for j := 0 to |granted|
        invariant c == CellFor(granted[..j], p) && encodings == before + EncodingsOf(granted[..j], p)
      {
        assert granted[..j + 1][..j] == granted[..j];
        if granted[j].priv == p {
          c := granted[j];
          encodings := encodings + [Encode(granted[j])];
        }
      }
      assert granted[..|granted|] == granted;
      cells := cells + [c];
    }
    assert pk.privs[..|pk.privs|] == pk.privs;
    orig := Join(encodings, ",");
  }

  /** One line of the object's ACL. */
  datatype AclLine = AclLine(grantee: string, priv: string, grantable: bool)

  datatype LoadedRow = LoadedRow(grantee: string, cells: seq<Cell>, orig: string)

  function GranteesOf(acl: seq<AclLine>): (r: seq<string>)
    ensures forall g :: g in r <==> exists i :: 0 <= i < |acl| && acl[i].grantee == g
    ensures forall i, j :: 0 <= i < j < |r| ==> r[i] != r[j]
  {
    if |acl| == 0 then []
    else
      var r := GranteesOf(acl[..|acl| - 1]);
      var g := acl[|acl| - 1].grantee;
      if g in r then r else r + [g]
  }

  /** The cells of one grantee, in the order of the ACL. */
  function GrantedTo(acl: seq<AclLine>, g: string): seq<Cell> {
    if |acl| == 0 then []
    else
      var l := acl[|acl| - 1];
      GrantedTo(acl[..|acl| - 1], g) + if l.grantee == g then [Cell(l.priv, true, l.grantable)] else []
  }

  function LoadedRows(pk: PrivKind, acl: seq<AclLine>, grantees: seq<string>): (r: seq<LoadedRow>)
    ensures |r| == |grantees|
    ensures forall i :: 0 <= i < |r| ==> r[i] == LoadedFor(pk, acl, grantees[i])
  {
    if |grantees| == 0 then []
    else LoadedRows(pk, acl, grantees[..|grantees| - 1]) + [LoadedFor(pk, acl, grantees[|grantees| - 1])]
  }

  function LoadedFor(pk: PrivKind, acl: seq<AclLine>, g: string): LoadedRow {
    var granted := GrantedTo(acl, g);
    LoadedRow(g, CellsFor(pk.privs, granted), Join(AllEncodings(pk.privs, granted), ","))
  }

  /** The grouping after some of the lines: grantees in order of appearance, cells by grantee. */
  ghost predicate Grouped(acl: seq<AclLine>, grantees: seq<string>, granted: map<string, seq<Cell>>) {
    && grantees == GranteesOf(acl)
    && (forall g :: g in granted <==> g in grantees)
    && (forall g :: GrantedTo(acl, g) == if g in granted then granted[g] else [])
  }

  lemma GroupedStep(acl: seq<AclLine>, i: nat, grantees: seq<string>, granted: map<string, seq<Cell>>)
    requires i < |acl| && Grouped(acl[..i], grantees, granted)
    ensures var g, c := acl[i].grantee, Cell(acl[i].priv, true, acl[i].grantable);
            Grouped(acl[..i + 1], if g in granted then grantees else grantees + [g],
                    granted[g := (if g in granted then granted[g] else []) + [c]])
  {
    assert acl[..i + 1][..i] == acl[..i];
  }

  /** loadPrivRows: a pass that groups the ACL by grantee, and one that completes the cells. */
  method LoadPrivRows(pk: PrivKind, acl: seq<AclLine>) returns (rows: seq<LoadedRow>)
    ensures rows == LoadedRows(pk, acl, GranteesOf(acl))
  {
    hide GranteesOf, GrantedTo, CellsFor, AllEncodings;
    var grantees, granted := GroupByGrantee(acl);
    rows := [];
    for i := 0 to |grantees|
      invariant rows == LoadedRows(pk, acl, grantees[..i])
    {
      assert grantees[..i + 1][..i] == grantees[..i];
      var g := grantees[i];
      assert g in granted && granted[g] == GrantedTo(acl, g);
      var cells, orig := CompleteCells(pk, granted[g]);
      rows := rows + [LoadedRow(g, cells, orig)];
    }
    assert grantees[..|grantees|] == grantees;
  }

  method GroupByGrantee(acl: seq<AclLine>) returns (grantees: seq<string>, granted: map<string, seq<Cell>>)
    ensures Grouped(acl, grantees, granted)
  {
    hide GranteesOf, GrantedTo;
    grantees, granted := [], map[];
    assert Grouped(acl[..0], grantees, granted) by { NothingGrouped(acl[..0]); }
    hide Grouped;
    for i := 0 to |acl|
      invariant Grouped(acl[..i], grantees, granted)
    {
      GroupedStep(acl, i, grantees, granted);
      var l := acl[i];
      var cells := if l.grantee in granted then granted[l.grantee] else [];
      if l.grantee !in granted {
        grantees := grantees + [l.grantee];
      }
      granted := granted[l.grantee := cells + [Cell(l.priv, true, l.grantable)]];
    }
    assert acl[..|acl|] == acl;
  }

  lemma NothingGrouped(acl: seq<AclLine>)
    requires acl == []
    ensures Grouped(acl, [], map[])
  {
  }
}
