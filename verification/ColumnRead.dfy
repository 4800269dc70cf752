/** Column statements read back from their text. */
module ColumnRead {
  import opened Wrappers
  import opened GoStrings
  import opened SqlQuote
  import opened SqlNames
  import opened AlterObject
  import opened AlterTable

  // ---- The reader ---------------------------------------------------------------------------

  /** What is done to the column; the words at the end are fixed or run to the end. */
  function ReadChange(x: string, s: string): Option<ColStmt> {
    if s == " SET NOT NULL" then Some(SetNotNull(x))
    else if s == " DROP NOT NULL" then Some(DropNotNull(x))
    else if s == " DROP DEFAULT" then Some(DropDefault(x))
    else
      match After(" TYPE ", s)
      case Some(t) => Some(SetType(x, t))
      case None => match After(" SET DEFAULT ", s) case Some(d) => Some(SetDefault(x, d)) case None => None
  }

  /** The words that end the type of a new column. */
  predicate EndsType(s: string) {
    " NOT NULL" <= s || " DEFAULT" <= s || " GENERATED ALWAYS AS (" <= s
  }

  /** Where the type in front of `s` ends. */
  function TypeEnd(s: string): (n: nat)
    ensures n <= |s| && (forall i :: 0 <= i < n ==> !EndsType(s[i..])) && (n < |s| ==> EndsType(s[n..]))
  {
    if s == "" || EndsType(s) then
      assert s[0..] == s;
      0
    else
      var n := TypeEnd(s[1..]);
      assert forall i :: 1 <= i <= |s| ==> s[i..] == s[1..][i - 1..];
      assert s[0..] == s;
      1 + n
  }

  /** Behind the type and the nullability: a generation expression, a default or nothing. */
  function ReadValue(x: string, t: string, nullable: string, s: string): Option<NewColumn> {
    if s == "" then Some(NewColumn(x, t, nullable, "", ""))
    else
      match After(" DEFAULT ", s)
      case Some(d) => Some(NewColumn(x, t, nullable, d, ""))
      case None =>
        match After(" GENERATED ALWAYS AS (", s)
        case None => None
        case Some(g) =>
          var n := |g| - |") STORED"|;
          if n >= 0 && g[n..] == ") STORED" then Some(NewColumn(x, t, nullable, "", g[..n])) else None
  }

  function ReadBehind(x: string, t: string, behind: string): Option<NewColumn> {
    match After(" NOT NULL", behind)
    case Some(value) => ReadValue(x, t, "NO", value)
    case None => ReadValue(x, t, "", behind)
  }

  /** The definition of a new column. */
  function ReadDefinition(s: string): Option<NewColumn> {
    match ReadIdent(s)
    case None => None
    case Some((x, rest)) =>
      match After(" ", rest)
      case None => None
      case Some(def) =>
        ReadBehind(x, def[..TypeEnd(def)], def[TypeEnd(def)..])
  }

  function ReadColStmt(s: string): Option<ColStmt> {
    match After(" DROP COLUMN ", s)
    case Some(rest) => (match ReadName(rest) case None => None case Some(x) => Some(DropColumn(x)))
    case None =>
      match After(" ALTER COLUMN ", s)
      case Some(rest) => (match ReadIdent(rest) case None => None case Some((x, rest)) => ReadChange(x, rest))
      case None =>
        match After(" RENAME COLUMN ", s)
        case Some(rest) => (match ReadPair(" TO ", rest) case None => None case Some((x, y)) => Some(RenameColumn(x, y)))
        case None =>
          match After(" ADD COLUMN ", s)
          case None => None
          case Some(rest) => match ReadDefinition(rest) case None => None case Some(c) => Some(AddColumn(c))
  }

  /** The table a statement is about, and the statement. */
  function ReadColumn(s: string): Option<(ObjName, ColStmt)> {
    match After("ALTER TABLE ", s)
    case None => None
    case Some(rest) =>
      match ReadQual(rest)
      case None => None
      case Some(((schema, name), rest)) =>
        match ReadColStmt(rest)
        case None => None
        case Some(st) => Some((ObjName(schema, name), st))
  }

  // ---- What is printed reads back --------------------------------------------------------------

  /** The text behind the column's name. */
  function ChangeText(st: ColStmt): string
    requires IsChange(st)
  {
    match st
    case SetType(_, t) => " TYPE " + t
    case SetNotNull(_) => " SET NOT NULL"
    case DropNotNull(_) => " DROP NOT NULL"
    case DropDefault(_) => " DROP DEFAULT"
    case SetDefault(_, d) => " SET DEFAULT " + d
  }

  predicate IsChange(st: ColStmt) {
    st.SetType? || st.SetNotNull? || st.DropNotNull? || st.DropDefault? || st.SetDefault?
  }

  lemma ChangeReadsBack(st: ColStmt)
    requires IsChange(st)
    ensures ReadChange(st.name, ChangeText(st)) == Some(st) && StopsIdent(ChangeText(st))
  {
    var s := ChangeText(st);
    if st.SetType? {
      AfterItself(" TYPE ", st.typ);
      assert s[1] == 'T';
    }
    if st.SetDefault? {
      AfterItself(" SET DEFAULT ", st.def);
      assert s[1] == 'S' && s[5] == 'D';
    }
  }

  lemma AlteredReadsBack(st: ColStmt)
    requires IsChange(st) && st.name != ""
    ensures ReadColStmt(ColText(st)) == Some(st)
  {
    hide ReadChange, ReadIdent, QuoteIdent, After, StopsIdent;
    var q, behind := QuoteIdent(st.name), ChangeText(st);
    ChangeReadsBack(st);
    ReadQuoteIdent(st.name, behind);
    AlterIsNoDrop(q + behind);
    assert ColText(st) == " ALTER COLUMN " + (q + behind) by { ConcatBehind(st, q); }
  }

  lemma ConcatBehind(st: ColStmt, q: string)
    requires IsChange(st) && q == QuoteIdent(st.name)
    ensures ColText(st) == " ALTER COLUMN " + (q + ChangeText(st))
  {
    hide QuoteIdent;
    assert " ALTER COLUMN " + q + ChangeText(st) == " ALTER COLUMN " + (q + ChangeText(st));
    if st.SetType? {
      ConcatRight(" ALTER COLUMN ", q, " TYPE ", st.typ);
    }
    if st.SetDefault? {
      ConcatRight(" ALTER COLUMN ", q, " SET DEFAULT ", st.def);
    }
  }

  lemma AlterIsNoDrop(rest: string)
    ensures After(" DROP COLUMN ", " ALTER COLUMN " + rest) == None
    ensures After(" ALTER COLUMN ", " ALTER COLUMN " + rest) == Some(rest)
  {
    assert (" ALTER COLUMN " + rest)[1] == 'A';
  }

  lemma RenameIsNeither(rest: string)
    ensures After(" DROP COLUMN ", " RENAME COLUMN " + rest) == None
    ensures After(" ALTER COLUMN ", " RENAME COLUMN " + rest) == None
    ensures After(" RENAME COLUMN ", " RENAME COLUMN " + rest) == Some(rest)
  {
    assert (" RENAME COLUMN " + rest)[1] == 'R';
  }

  lemma NameAlone(x: string)
    requires x != ""
    ensures ReadName(QuoteIdent(x)) == Some(x)
  {
    ReadWhole("", x);
    assert ("" + QuoteIdent(x))[0..] == QuoteIdent(x);
  }

  lemma AddIsNone(rest: string)
    ensures After(" DROP COLUMN ", " ADD COLUMN " + rest) == None
    ensures After(" ALTER COLUMN ", " ADD COLUMN " + rest) == None
    ensures After(" RENAME COLUMN ", " ADD COLUMN " + rest) == None
    ensures After(" ADD COLUMN ", " ADD COLUMN " + rest) == Some(rest)
  {
    assert (" ADD COLUMN " + rest)[1] == 'A' && (" ADD COLUMN " + rest)[2] == 'D';
  }

  // ---- The definition of a new column ---------------------------------------------------------

  /** A type as it is typed, without the words that would end it. */
  predicate IsTypeText(t: string) {
    TypeEnd(t) == |t|
  }

  /** What stands behind the type. */
  function ValueText(c: NewColumn): string {
    if c.generated != "" then " GENERATED ALWAYS AS (" + SingleLine(c.generated) + ") STORED"
    else if c.def != "" then " DEFAULT " + SingleLine(c.def)
    else ""
  }

  function BehindType(c: NewColumn): string {
    (if c.nullable == "NO" then " NOT NULL" else "") + ValueText(c)
  }

  /** The column of a definition, each text on its line. */
  function OneLine(c: NewColumn): NewColumn {
    NewColumn(c.name, SingleLine(c.typ), if c.nullable == "NO" then "NO" else "",
              if c.generated != "" || c.def == "" then "" else SingleLine(c.def),
              if c.generated == "" then "" else SingleLine(c.generated))
  }

  lemma ConstraintsEndTypes(c: NewColumn)
    ensures BehindType(c) == "" || EndsType(BehindType(c))
  {
    hide SingleLine;
    var s := BehindType(c);
    if c.nullable == "NO" {
      assert s[..9] == " NOT NULL";
    } else if c.generated != "" {
      assert s == " GENERATED ALWAYS AS (" + (SingleLine(c.generated) + ") STORED");
    } else if c.def != "" {
      assert s == " DEFAULT" + (" " + SingleLine(c.def));
    }
  }

  /** A word that begins in `u` and reaches into `tail`. */
  lemma WordAcross(w: string, u: string, tail: string)
    requires w <= u + tail && |u| < |w|
    ensures tail != "" && w[|u|] == tail[0]
    ensures |u| + 1 < |w| ==> |tail| > 1 && w[|u| + 1] == tail[1]
    ensures |u| + 2 < |w| ==> |tail| > 2 && w[|u| + 1] == tail[1] && w[|u| + 2] == tail[2]
  {
    assert w[|u|] == (u + tail)[|u|];
  }

  /** The words that end a type do not reach across the end of one. */
  lemma NoWordAcross(w: string, u: string, tail: string)
    requires w == " NOT NULL" || w == " DEFAULT" || w == " GENERATED ALWAYS AS ("
    requires u != "" && (tail == "" || EndsType(tail)) && w <= u + tail
    ensures w <= u
  {
    if |u| < |w| {
      assert tail != "" ==> tail[0] == ' ' && (tail[1] == 'N' || tail[1] == 'D' || tail[1] == 'G') && tail[2] != 'U';
      WordAcross(w, u, tail);
      assert false;
    }
    assert (u + tail)[..|w|] == u[..|w|];
  }

  lemma FirstEnd(s: string, n: nat)
    requires n <= |s| && (forall i :: 0 <= i < n ==> !EndsType(s[i..])) && (n < |s| ==> EndsType(s[n..]))
    ensures TypeEnd(s) == n
  {
  }

  /** The type ends where it was printed to end exactly if no such word is in it. */
  lemma TypeReadsBack(t: string, tail: string)
    requires tail == "" || EndsType(tail)
    ensures TypeEnd(t + tail) == TypeEnd(t)
  {
    var n := TypeEnd(t);
    hide TypeEnd, EndsType;
    forall i | 0 <= i < n ensures !EndsType((t + tail)[i..]) {
      TailBehind(t, tail, i);
      EndsTypeWithTail(t[i..], tail);
    }
    TailBehind(t, tail, n);
    if n < |t| {
      EndsTypeMore(t[n..], tail);
    }
    FirstEnd(t + tail, n);
  }

  lemma TailBehind(t: string, tail: string, i: nat)
    requires i <= |t|
    ensures (t + tail)[i..] == t[i..] + tail && t[|t|..] + tail == tail
  {
  }

  lemma EndsTypeWithTail(u: string, tail: string)
    requires u != "" && (tail == "" || EndsType(tail))
    ensures EndsType(u + tail) ==> EndsType(u)
  {
    if " NOT NULL" <= u + tail {
      NoWordAcross(" NOT NULL", u, tail);
    }
    if " DEFAULT" <= u + tail {
      NoWordAcross(" DEFAULT", u, tail);
    }
    if " GENERATED ALWAYS AS (" <= u + tail {
      NoWordAcross(" GENERATED ALWAYS AS (", u, tail);
    }
  }

  lemma EndsTypeMore(a: string, b: string)
    requires EndsType(a)
    ensures EndsType(a + b)
  {
  }

  lemma ValueReadsBack(x: string, t: string, nullable: string, c: NewColumn)
    requires (c.def != "" ==> SingleLine(c.def) != "") && (c.generated == "" || c.def == "")
    ensures ReadValue(x, t, nullable, ValueText(c))
         == Some(NewColumn(x, t, nullable, OneLine(c).def, OneLine(c).generated))
    ensures After(" NOT NULL", ValueText(c)) == None
  {
    var s := ValueText(c);
    hide SingleLine;
    if c.generated != "" {
      var g := SingleLine(c.generated);
      assert s == " GENERATED ALWAYS AS (" + (g + ") STORED") && s[1] == 'G';
      AfterItself(" GENERATED ALWAYS AS (", g + ") STORED");
      assert (g + ") STORED")[..|g|] == g && (g + ") STORED")[|g|..] == ") STORED";
    } else if c.def != "" {
      AfterItself(" DEFAULT ", SingleLine(c.def));
      assert s[1] == 'D';
    }
  }

  lemma DefinitionParts(c: NewColumn)
    ensures ColumnDefText(c) == QuoteIdent(c.name) + (" " + (SingleLine(c.typ) + BehindType(c)))
  {
    hide SingleLine, QuoteIdent;
    var q, t, n, v := QuoteIdent(c.name), SingleLine(c.typ), if c.nullable == "NO" then " NOT NULL" else "", ValueText(c);
    assert ColumnDefText(c) == q + " " + t + n + v;
    assert q + " " + t + n + v == q + (" " + (t + (n + v)));
  }

  /** A printed definition reads back as its column exactly if the words that would end the type
  are not in it. */
  lemma DefinitionReadsBack(c: NewColumn)
    requires c.name != "" && (c.def != "" ==> SingleLine(c.def) != "") && (c.generated == "" || c.def == "")
    ensures ReadDefinition(ColumnDefText(c)) == Some(OneLine(c)) <==> IsTypeText(SingleLine(c.typ))
  {
    hide ReadIdent, QuoteIdent, SingleLine, ValueText, ReadValue, TypeEnd, BehindType, ColumnDefText, After, StopsIdent, EndsType;
    var t, behind := SingleLine(c.typ), BehindType(c);
    DefinitionParts(c);
    assert StopsIdent(" " + (t + behind)) by { BlankStopsIdent(t + behind); }
    ReadQuoteIdent(c.name, " " + (t + behind));
    AfterItself(" ", t + behind);
    ConstraintsEndTypes(c);
    TypeReadsBack(t, behind);
    if IsTypeText(t) {
      assert (t + behind)[..|t|] == t && (t + behind)[|t|..] == behind;
      BehindReadsBack(c, t);
    } else {
      ShorterTypeIsAnother(c, t + behind);
    }
  }

  lemma BlankStopsIdent(s: string)
    ensures StopsIdent(" " + s)
  {
  }

  lemma BehindReadsBack(c: NewColumn, t: string)
    requires (c.def != "" ==> SingleLine(c.def) != "") && (c.generated == "" || c.def == "") && t == SingleLine(c.typ)
    ensures ReadBehind(c.name, t, BehindType(c)) == Some(OneLine(c))
  {
    hide ReadValue, SingleLine, ValueText;
    ValueReadsBack(c.name, t, "NO", c);
    ValueReadsBack(c.name, t, "", c);
    AfterItself(" NOT NULL", ValueText(c));
    assert "" + ValueText(c) == ValueText(c);
    hide After;
  }

  /** Such a type, and what it would be read as begins with. */
  lemma DefaultIsNoType()
    ensures !IsTypeText("int DEFAULT 5") && TypeEnd("int DEFAULT 5") == |"int"|
  {
    var s := "int DEFAULT 5";
    assert s[3..] == " DEFAULT" + " 5" && EndsType(s[3..]);
    assert s[0] == 'i' && s[1] == 'n' && s[2] == 't';
    hide TypeEnd, EndsType;
    FirstEnd(s, 3);
  }

  /** Whatever is read behind a type, the type is the one in front. */
  lemma ShorterTypeIsAnother(c: NewColumn, s: string)
    requires TypeEnd(s) < |SingleLine(c.typ)|
    ensures ReadBehind(c.name, s[..TypeEnd(s)], s[TypeEnd(s)..]) != Some(OneLine(c))
  {
    hide SingleLine, TypeEnd;
  }

  // ---- All statements -------------------------------------------------------------------------

  /** A statement as the form makes them: no name is empty and no default is left blank. */
  predicate IsMade(st: ColStmt) {
    match st
    case RenameColumn(n, m) => n != "" && m != ""
    case AddColumn(c) => c.name != "" && (c.def != "" ==> SingleLine(c.def) != "") && (c.generated == "" || c.def == "")
    case _ => st.name != ""
  }

  /** The statement as it is read: the texts of a new column each on its line. */
  function AsRead(st: ColStmt): ColStmt {
    if st.AddColumn? then AddColumn(OneLine(st.column)) else st
  }

  predicate TypeStands(st: ColStmt) {
    st.AddColumn? ==> IsTypeText(SingleLine(st.column.typ))
  }

  lemma StatementReadsBack(st: ColStmt)
    requires IsMade(st)
    ensures ReadColStmt(ColText(st)) == Some(AsRead(st)) <==> TypeStands(st)
  {
    hide After, ReadName, ReadPair, ReadIdent, QuoteIdent, ReadChange, ReadDefinition, ColumnDefText, IsTypeText, SingleLine, OneLine;
    if st.DropColumn? {
      NameAlone(st.name);
      AfterItself(" DROP COLUMN ", QuoteIdent(st.name));
    }
    if st.RenameColumn? {
      var n, m := QuoteIdent(st.name), QuoteIdent(st.newName);
      PairReadsBack(" TO ", st.name, st.newName);
      RenameIsNeither(n + " TO " + m);
      assert " RENAME COLUMN " + n + " TO " + m == " RENAME COLUMN " + (n + " TO " + m);
    }
    if st.AddColumn? {
      AddIsNone(ColumnDefText(st.column));
      DefinitionReadsBack(st.column);
    }
    if IsChange(st) {
      AlteredReadsBack(st);
    }
  }

  lemma ColTextStops(st: ColStmt)
    ensures StopsIdent(ColText(st))
  {
    hide QuoteIdent, ColumnDefText;
  }

  /** A printed column statement reads back as itself, about the very table and column, with
  types and defaults as they were typed, exactly if the table's schema is no reserved word and no
  word in the type of a new column ends it too early. */
  lemma ColumnReadsBack(o: ObjName, st: ColStmt)
    requires o.name != "" && IsMade(st)
    ensures ReadColumn(RenderColumn(o, st)) == Some((o, AsRead(st))) <==> CanLead(o.schema) && TypeStands(st)
    ensures !CanLead(o.schema) ==> ReadColumn(RenderColumn(o, st)) == None
  {
    hide After, ReadColStmt, ColText, QualIdent, ReadQual, StopsIdent, CanLead, IsMade, AsRead, TypeStands;
    StatementReadsBack(st);
    ColTextStops(st);
    ReadQualIdent(o.schema, o.name, ColText(st));
    AfterItself("ALTER TABLE ", QualIdent(o.schema, o.name) + ColText(st));
    assert RenderColumn(o, st) == "ALTER TABLE " + (QualIdent(o.schema, o.name) + ColText(st));
  }
}
