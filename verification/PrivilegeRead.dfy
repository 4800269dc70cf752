/** GRANT and REVOKE statements read back from their text, and the text of a whole script
run on an access control list. */
module PrivilegeRead {
  import opened Wrappers
  import opened GoStrings
  import opened SqlQuote
  import opened SqlNames
  import opened SplitStatements
  import opened Privileges
  import opened PrivilegeLaws
  import opened PrivilegeForms
  import opened PrivilegeText
  import opened RoutineText

  // ---- The reader ---------------------------------------------------------------------------

  /** Privilege names with commas between them. */
  function ReadPrivs(s: string): (r: (seq<string>, string))
    decreases |s|
  {
    var n := WordLength(s);
    var rest := s[n..];
    if ", " <= rest then
      var (more, behind) := ReadPrivs(rest[2..]);
      ([s[..n]] + more, behind)
    else ([s[..n]], rest)
  }

  /** The object: a keyword and a name, with its schema where it has one. */
  function ReadObject(pk: PrivKind, s: string): Option<((string, string), string)> {
    match After(pk.keyword + " ", s)
    case None => None
    case Some(rest) =>
      if pk.server || pk.keyword == "SCHEMA" then
        match ReadIdent(rest)
        case None => None
        case Some((name, rest)) => Some((("", name), rest))
      else
        match ReadQual(rest)
        case None => None
        case Some((o, rest)) => if IsRoutineKind(pk) then ReadArguments(o, rest) else Some((o, rest))
  }

  /** The argument list of a routine, up to the parenthesis that closes it; it is part of the routine's name. */
  function ReadArguments(o: (string, string), s: string): Option<((string, string), string)> {
    var n := IndexOf(s, ')');
    if s == "" || s[0] != '(' || n == |s| then None else Some(((o.0, o.1 + s[..n + 1]), s[n + 1..]))
  }

  /** The role that a name means where a grantee stands: two names are reserved, quoted or not. */
  function RoleMeant(g: string): Option<string> {
    if g == "" || g == "none" then None else if g == "public" then Some("PUBLIC") else Some(g)
  }

  /** PUBLIC, or an identifier. */
  function ReadGrantee(s: string): Option<(string, string)> {
    match After("PUBLIC", s)
    case Some(rest) => Some(("PUBLIC", rest))
    case None =>
      match ReadIdent(s)
      case None => None
      case Some((x, rest)) => match RoleMeant(x) case None => None case Some(role) => Some((role, rest))
  }

  function ReadVerb(s: string): Option<(Verb, string)> {
    match After("REVOKE GRANT OPTION FOR ", s)
    case Some(rest) => Some((RevokeOption, rest))
    case None =>
      match After("REVOKE ", s)
      case Some(rest) => Some((Revoke, rest))
      case None =>
        match After("GRANT ", s)
        case Some(rest) => Some((Grant, rest))
        case None => None
  }

  /** The end of the statement decides about the grant option. */
  function ReadTail(verb: Verb, s: string): Option<Verb> {
    if s == "" then Some(verb)
    else if s == " WITH GRANT OPTION" && verb == Grant then Some(GrantWithOption)
    else None
  }

  function ReadFromObject(pk: PrivKind, verb: Verb, privs: seq<string>, s: string): Option<(Statement, (string, string))> {
    match ReadObject(pk, s)
    case None => None
    case Some((o, rest)) =>
      match After(Preposition(verb), rest)
      case None => None
      case Some(rest) =>
        match ReadGrantee(rest)
        case None => None
        case Some((g, rest)) =>
          match ReadTail(verb, rest)
          case None => None
          case Some(verb) => Some((Statement(g, Change(verb, privs)), o))
  }

  /** The statement that a text is, and the object it is about. */
  function ReadStatement(pk: PrivKind, s: string): Option<(Statement, (string, string))> {
    match ReadVerb(s)
    case None => None
    case Some((verb, rest)) =>
      var (privs, rest) := ReadPrivs(rest);
      match After(" ON ", rest)
      case None => None
      case Some(rest) => ReadFromObject(pk, verb, privs, rest)
  }

  // ---- What is printed reads back --------------------------------------------------------------

  lemma ReadLastPriv(p: string, rest: string)
    requires IsWord(p)
    ensures ReadPrivs(p + (" ON " + rest)) == ([p], " ON " + rest)
  {
    var behind := " ON " + rest;
    assert behind[0] == ' ';
    WordReadsBack(p, behind);
    hide WordLength;
  }

  lemma ReadPrivsStep(p: string, s: string)
    requires IsWord(p)
    ensures ReadPrivs(p + (", " + s)) == ([p] + ReadPrivs(s).0, ReadPrivs(s).1)
  {
    var rest := ", " + s;
    assert rest[0] == ',' && ", " <= rest && rest[2..] == s;
    WordReadsBack(p, rest);
    hide WordLength;
  }

  /** The names of one or more privileges, in front of " ON ". */
  lemma {:induction false} PrivsReadBack(privs: seq<string>, rest: string)
    requires privs != [] && forall p | p in privs :: IsWord(p)
    ensures ReadPrivs(Join(privs, ", ") + (" ON " + rest)) == (privs, " ON " + rest)
    decreases |privs|
  {
    hide ReadPrivs, IsWord;
    var p := privs[0];
    assert IsWord(p) && privs == [p] + privs[1..];
    if |privs| == 1 {
      assert privs == [p];
      ReadLastPriv(p, rest);
    } else {
      var tail := Join(privs[1..], ", ");
      PrivsReadBack(privs[1..], rest);
      ConcatRight(p, ", ", tail, " ON " + rest);
      ReadPrivsStep(p, tail + (" ON " + rest));
    }
  }

  /** The name of the object a form is about, as the statements give it. */
  function ObjectOf(pk: PrivKind, schema: string, name: string): (string, string) {
    if pk.server || pk.keyword == "SCHEMA" then ("", name) else (schema, name)
  }

  /** The name of the object can be read: its schema, if it has one, is no reserved word. */
  predicate IsReadable(pk: PrivKind, schema: string, name: string) {
    pk.server || pk.keyword == "SCHEMA" || (CanLead(schema) && (IsRoutineKind(pk) ==> IndexOf(name, '(') > 0))
  }

  lemma ArgumentsReadBack(o: (string, string), args: string, rest: string)
    requires IsRoutineArgs(args)
    ensures ReadArguments(o, args + rest) == Some(((o.0, o.1 + args), rest)) && StopsIdent(args + rest)
  {
    var s := args + rest;
    assert forall i | 0 <= i < |args| :: s[i] == args[i];
    assert IndexOf(s, ')') == |args| - 1;
    assert s[..|args|] == args && s[|args|..] == rest;
  }

  /** A routine's name with its arguments. */
  lemma RoutineReadsBack(pk: PrivKind, schema: string, name: string, rest: string)
    requires IsRoutineKind(pk) && !pk.server && PrivTarget(pk, schema, name).Ok?
    ensures ReadObject(pk, PrivTarget(pk, schema, name).value + rest) == if IsReadable(pk, schema, name) then Some(((schema, name), rest)) else None
  {
    var i := IndexOf(name, '(');
    var n, args, head := name[..i], RoutineArgs(name), pk.keyword + " ";
    ArgsOfTarget(pk, schema, name);
    assert n + args == name by { hide IndexOf, PrivTarget; }
    hide *;
    ArgumentsReadBack((schema, n), args, rest);
    ReadQualIdent(schema, n, args + rest);
    ConcatAssoc(head, QualIdent(schema, n) + args, rest);
    ConcatAssoc(QualIdent(schema, n), args, rest);
    SignatureReadsBack(pk, schema, n, args, rest);
    ReadableSignature(pk, schema, name);
  }

  lemma ReadableSignature(pk: PrivKind, schema: string, name: string)
    requires IsRoutineKind(pk) && !pk.server
    ensures IsReadable(pk, schema, name) <==> CanLead(schema) && IndexOf(name, '(') > 0
  {
    hide IndexOf, CanLead;
  }

  lemma SignatureReadsBack(pk: PrivKind, schema: string, n: string, args: string, rest: string)
    requires IsRoutineKind(pk) && !pk.server && ReadArguments((schema, n), args + rest) == Some(((schema, n + args), rest))
    requires ReadQual(QualIdent(schema, n) + (args + rest)) == if CanLead(schema) && n != "" then Some(((schema, n), args + rest)) else None
    ensures ReadObject(pk, pk.keyword + " " + (QualIdent(schema, n) + (args + rest)))
         == if CanLead(schema) && n != "" then Some(((schema, n + args), rest)) else None
  {
    AfterItself(pk.keyword + " ", QualIdent(schema, n) + (args + rest));
    hide After, QualIdent, ReadQual, CanLead, ReadArguments;
  }

  predicate RoutineHasSchema(pk: PrivKind) {
    IsRoutineKind(pk) ==> !pk.server
  }

  lemma ObjectReadsBack(pk: PrivKind, schema: string, name: string, rest: string)
    requires RoutineHasSchema(pk) && PrivTarget(pk, schema, name).Ok? && StopsIdent(rest)
    ensures ReadObject(pk, PrivTarget(pk, schema, name).value + rest)
         == if IsReadable(pk, schema, name) then Some((ObjectOf(pk, schema, name), rest)) else None
  {
    if IsRoutineKind(pk) {
      RoutineReadsBack(pk, schema, name, rest);
    } else {
      PlainObjectReadsBack(pk, schema, name, rest);
    }
    hide ReadObject, CanLead, PrivTarget;
  }

  lemma PlainObjectReadsBack(pk: PrivKind, schema: string, name: string, rest: string)
    requires !IsRoutineKind(pk) && PrivTarget(pk, schema, name).Ok? && StopsIdent(rest)
    ensures ReadObject(pk, PrivTarget(pk, schema, name).value + rest)
         == if IsReadable(pk, schema, name) then Some((ObjectOf(pk, schema, name), rest)) else None
  {
    hide ReadIdent, ReadQual, QuoteIdent, QualIdent, StopsIdent, After, CanLead;
    ReadQuoteIdent(name, rest);
    ReadQualIdent(schema, name, rest);
    ConcatAssoc(pk.keyword + " ", QuoteIdent(name), rest);
    ConcatAssoc(pk.keyword + " ", QualIdent(schema, name), rest);
    AfterItself(pk.keyword + " ", QuoteIdent(name) + rest);
    AfterItself(pk.keyword + " ", QualIdent(schema, name) + rest);
  }

  /** A grantee is read as the role that its name means. */
  lemma GranteeReadsBack(g: string, rest: string)
    requires StopsIdent(rest)
    ensures ReadGrantee(GranteeSql(g) + rest) == match RoleMeant(g) case None => None case Some(role) => Some((role, rest))
  {
    if g == "PUBLIC" {
      AfterItself("PUBLIC", rest);
    } else {
      ReadQuoteIdent(g, rest);
      assert (QuoteIdent(g) + rest)[0] == '"';
    }
  }

  /** Two names are read as one grantee only if they are the keyword PUBLIC and the name public,
  which PostgreSQL takes for the keyword even in quotes. */
  lemma GranteesReadAlike(a: string, b: string)
    requires RoleMeant(a).Some? && RoleMeant(b).Some?
    ensures ReadGrantee(GranteeSql(a)) == ReadGrantee(GranteeSql(b))
       <==> a == b || (a == "PUBLIC" && b == "public") || (a == "public" && b == "PUBLIC")
  {
    hide ReadGrantee, GranteeSql;
    GranteeReadsBack(a, "");
    GranteeReadsBack(b, "");
    assert GranteeSql(a) + "" == GranteeSql(a) && GranteeSql(b) + "" == GranteeSql(b);
  }

  /** The verb as far as the beginning of the statement tells. */
  function Opening(v: Verb): Verb {
    if v.GrantWithOption? then Grant else v
  }

  lemma TailReadsBack(v: Verb)
    ensures ReadTail(Opening(v), Tail(v)) == Some(v) && StopsIdent(Tail(v)) && Preposition(Opening(v)) == Preposition(v)
  {
  }

  lemma PrepositionStops(v: Verb, rest: string)
    ensures StopsIdent(Preposition(v) + rest)
  {
  }

  /** What a statement means to PostgreSQL, and the object it is about. */
  function AsMeant(pk: PrivKind, schema: string, name: string, st: Statement): Option<(Statement, (string, string))> {
    if !IsReadable(pk, schema, name) then None
    else
      match RoleMeant(st.grantee)
      case None => None
      case Some(role) => Some((st.(grantee := role), ObjectOf(pk, schema, name)))
  }

  lemma FromObjectReadsBack(pk: PrivKind, schema: string, name: string, g: string, c: Change)
    requires RoutineHasSchema(pk) && PrivTarget(pk, schema, name).Ok?
    ensures ReadFromObject(pk, Opening(c.verb), c.privs,
                           PrivTarget(pk, schema, name).value + (Preposition(c.verb) + (GranteeSql(g) + Tail(c.verb))))
         == AsMeant(pk, schema, name, Statement(g, c))
  {
    hide IsReadable, RoleMeant, PrivTarget, ReadObject, ReadGrantee, ReadTail, GranteeSql, Tail, Opening, Preposition, StopsIdent, After, ObjectOf, IsRoutineKind, RoutineHasSchema;
    TailReadsBack(c.verb);
    PrepositionStops(c.verb, GranteeSql(g) + Tail(c.verb));
    ObjectReadsBack(pk, schema, name, Preposition(c.verb) + (GranteeSql(g) + Tail(c.verb)));
    AfterItself(Preposition(c.verb), GranteeSql(g) + Tail(c.verb));
    GranteeReadsBack(g, Tail(c.verb));
  }

  /** A list of names, with its ON, is not taken for the words GRANT OPTION FOR. */
  lemma {:induction false} NotTheOptionWords(privs: seq<string>, rest: string)
    requires privs != [] && forall p | p in privs :: IsWord(p)
    ensures !("REVOKE GRANT OPTION FOR " <= "REVOKE " + (Join(privs, ", ") + (" ON " + rest)))
  {
    var s := Join(privs, ", ") + (" ON " + rest);
    var t := "REVOKE " + s;
    var p := privs[0];
    assert IsWord(p);
    assert s[..|p|] == p && s[|p|] == (if |privs| == 1 then ' ' else ',');
    assert |privs| == 1 ==> s == p + " ON " + rest;
    var words := "REVOKE GRANT OPTION FOR ";
    var k := if |p| < 5 then |p| else if |p| > 5 || |privs| > 1 then 5 else 7;
    assert t[7 + k] == s[k] && s[k] != words[7 + k];
  }

  lemma VerbReadsBack(c: Change, rest: string)
    requires c.privs != [] && forall p | p in c.privs :: IsWord(p)
    ensures var s := Join(c.privs, ", ") + (" ON " + rest); ReadVerb(Head(c.verb) + s) == Some((Opening(c.verb), s))
  {
    var s := Join(c.privs, ", ") + (" ON " + rest);
    NotTheOptionWords(c.privs, rest);
    hide Join;
    match c.verb {
      case Revoke => AfterItself("REVOKE ", s);
      case RevokeOption => AfterItself("REVOKE GRANT OPTION FOR ", s);
      case Grant => GrantIsNoRevoke(s);
      case GrantWithOption => GrantIsNoRevoke(s);
    }
  }

  lemma GrantIsNoRevoke(s: string)
    ensures ReadVerb("GRANT " + s) == Some((Grant, s))
  {
    var t := "GRANT " + s;
    assert t[0] == 'G';
    AfterItself("GRANT ", s);
  }

  /** The parts of a statement, each in front of all that follows. */
  lemma StatementParts(a: string, b: string, c: string, d: string, e: string, f: string, g: string)
    ensures a + b + c + d + e + f + g == a + (b + (c + (d + (e + (f + g)))))
  {
    hide *;
    var t := e + (f + g);
    assert a + b + c + d + e + f + g == a + b + c + d + t by { ConcatAssoc(a + b + c + d + e, f, g); ConcatAssoc(a + b + c + d, e, f + g); }
    ConcatAssoc(a + b + c, d, t);
    ConcatAssoc(a + b, c, d + t);
    ConcatAssoc(a, b, c + (d + t));
  }

  /** A printed statement reads back as itself, about the object of the form, unless the schema of
  that is a reserved word or the grantee a reserved name. */
  lemma StatementReadsBack(pk: PrivKind, schema: string, name: string, st: Statement)
    requires RoutineHasSchema(pk) && PrivTarget(pk, schema, name).Ok?
    requires st.change.privs != [] && forall p | p in st.change.privs :: IsWord(p)
    ensures ReadStatement(pk, Render(st, PrivTarget(pk, schema, name).value)) == AsMeant(pk, schema, name, st)
  {
    var c, target, grantee := st.change, PrivTarget(pk, schema, name).value, GranteeSql(st.grantee);
    var behind := target + (Preposition(c.verb) + (grantee + Tail(c.verb)));
    hide PrivTarget, ReadFromObject, ReadVerb, ReadPrivs, GranteeSql, Tail, Opening, Preposition, Head, Join;
    hide RenderChange, After, IsWord, IsRoutineKind, RoutineHasSchema, AsMeant;
    RenderedParts(c, target, grantee);
    StatementParts(Head(c.verb), Join(c.privs, ", "), " ON ", target, Preposition(c.verb), grantee, Tail(c.verb));
    VerbReadsBack(c, behind);
    PrivsReadBack(c.privs, behind);
    AfterItself(" ON ", behind);
    FromObjectReadsBack(pk, schema, name, st.grantee, c);
  }

  // ---- The whole script ---------------------------------------------------------------------------

  /** Executes what a list of texts is read as; it fails on a text that is no statement
  about the object. */
  function RunTexts(pk: PrivKind, o: (string, string), acl: Acl, texts: seq<string>): Option<Acl>
    decreases |texts|
  {
    if |texts| == 0 then Some(acl)
    else
      match ReadStatement(pk, texts[0])
      case None => None
      case Some((st, about)) =>
        if about != o then None
        else RunTexts(pk, o, acl[st.grantee := ApplyTo(Held(acl, st.grantee), st.change)], texts[1..])
  }

  ghost predicate IsRendering(pk: PrivKind, target: string, sts: seq<Statement>, texts: seq<string>) {
    |texts| == |sts| && forall i | 0 <= i < |sts| :: texts[i] == Render(sts[i], target)
  }

  /** A statement as the form makes them. */
  predicate IsSound(st: Statement) {
    st.change.privs != [] && forall p | p in st.change.privs :: IsWord(p)
  }

  ghost predicate Addresses(sts: seq<Statement>, g: string) {
    exists i :: 0 <= i < |sts| && sts[i].grantee == g
  }

  /** If no statement is about a reserved name, their texts do what they do. */
  lemma {:induction false} RunTextsIsExec(pk: PrivKind, schema: string, name: string, acl: Acl, sts: seq<Statement>, texts: seq<string>)
    requires RoutineHasSchema(pk) && PrivTarget(pk, schema, name).Ok? && IsReadable(pk, schema, name)
    requires IsRendering(pk, PrivTarget(pk, schema, name).value, sts, texts) && forall i | 0 <= i < |sts| :: IsSound(sts[i])
    requires forall i | 0 <= i < |sts| :: RoleMeant(sts[i].grantee) == Some(sts[i].grantee)
    ensures RunTexts(pk, ObjectOf(pk, schema, name), acl, texts) == Some(Exec(acl, sts))
    decreases |sts|
  {
    hide PrivTarget, ReadStatement, ApplyTo, Render, ObjectOf, IsWord, IsRoutineKind, RoutineHasSchema, IsReadable, RoleMeant;
    if |sts| > 0 {
      assert IsSound(sts[0]);
      StatementReadsBack(pk, schema, name, sts[0]);
      RunTextsIsExec(pk, schema, name, acl[sts[0].grantee := ApplyTo(Held(acl, sts[0].grantee), sts[0].change)], sts[1..], texts[1..]);
    }
  }

  /** Whatever the statements are about: an unreadable object or the grantee none makes the script
  fail, and nothing is ever granted to a role named public. */
  lemma {:induction false} RunTextsKeepsPublic(pk: PrivKind, schema: string, name: string, acl: Acl, sts: seq<Statement>, texts: seq<string>)
    requires RoutineHasSchema(pk) && PrivTarget(pk, schema, name).Ok?
    requires IsRendering(pk, PrivTarget(pk, schema, name).value, sts, texts) && forall i | 0 <= i < |sts| :: IsSound(sts[i])
    ensures var out := RunTexts(pk, ObjectOf(pk, schema, name), acl, texts);
            out.Some? ==> (sts != [] ==> IsReadable(pk, schema, name)) && !Addresses(sts, "none") && Held(out.value, "public") == Held(acl, "public")
    decreases |sts|
  {
    hide PrivTarget, ReadStatement, ApplyTo, Render, ObjectOf, IsWord, IsRoutineKind, RoutineHasSchema, IsReadable;
    if |sts| > 0 {
      assert IsSound(sts[0]);
      StatementReadsBack(pk, schema, name, sts[0]);
      if RoleMeant(sts[0].grantee).Some? {
        var role := RoleMeant(sts[0].grantee).value;
        RunTextsKeepsPublic(pk, schema, name, acl[role := ApplyTo(Held(acl, role), sts[0].change)], sts[1..], texts[1..]);
      }
      assert Addresses(sts, "none") ==> sts[0].grantee == "none" || Addresses(sts[1..], "none");
    }
  }

  lemma {:induction false} FormStatementsAreSound(pk: PrivKind, rows: seq<FormRow>)
    requires HasPrivNames(pk)
    ensures forall i | 0 <= i < |FormStatements(pk, rows)| :: IsSound(FormStatements(pk, rows)[i])
  {
    hide Diff, ParsePrivState, Ticked, IsWord;
    if |rows| > 0 {
      var row := rows[|rows| - 1];
      FormStatementsAreSound(pk, rows[..|rows| - 1]);
      DiffShape(pk.privs, ParsePrivState(row.orig), Ticked(pk, row));
    }
  }

  /** A row of this grantee asks for a change. */
  ghost predicate Edits(pk: PrivKind, rows: seq<FormRow>, g: string) {
    exists i :: 0 <= i < |rows| && rows[i].grantee == g && !RowAgrees(pk, rows[i])
  }

  lemma EditsStep(pk: PrivKind, rows: seq<FormRow>, g: string)
    requires |rows| > 0
    ensures var n := |rows| - 1;
            Edits(pk, rows, g) <==> Edits(pk, rows[..n], g) || (rows[n].grantee == g && !RowAgrees(pk, rows[n]))
  {
    hide RowAgrees;
    var n := |rows| - 1;
    if Edits(pk, rows[..n], g) {
      var i :| 0 <= i < n && rows[..n][i].grantee == g && !RowAgrees(pk, rows[..n][i]);
      assert rows[i] == rows[..n][i];
    }
    if Edits(pk, rows, g) {
      var i :| 0 <= i < |rows| && rows[i].grantee == g && !RowAgrees(pk, rows[i]);
      assert i < n ==> rows[..n][i] == rows[i];
    }
  }

  lemma AddressesConcat(a: seq<Statement>, h: string, cs: seq<Change>, g: string)
    ensures Addresses(a + For(h, cs), g) <==> Addresses(a, g) || (h == g && cs != [])
  {
    var b := For(h, cs);
    if Addresses(a, g) {
      var i :| 0 <= i < |a| && a[i].grantee == g;
      assert (a + b)[i] == a[i];
    }
    if h == g && cs != [] {
      assert (a + b)[|a|] == b[0];
    }
  }

  /** The statements of a form are about the grantees of the edited rows. */
  lemma {:induction false} EditedRowsAreAddressed(pk: PrivKind, rows: seq<FormRow>, g: string)
    ensures Addresses(FormStatements(pk, rows), g) <==> Edits(pk, rows, g)
  {
    hide RowAgrees, RowChanges, Addresses, Edits;
    if |rows| == 0 {
      NobodyIsAddressed(pk, g);
    } else {
      var n := |rows| - 1;
      EditedRowsAreAddressed(pk, rows[..n], g);
      AddressesConcat(FormStatements(pk, rows[..n]), rows[n].grantee, RowChanges(pk, rows[n]), g);
      EditsStep(pk, rows, g);
      NoChangeIffRowAgrees(pk, rows[n]);
    }
  }

  lemma NobodyIsAddressed(pk: PrivKind, g: string)
    ensures !Addresses([], g) && !Edits(pk, [], g)
  {
  }

  lemma NamelessRowsAgree(pk: PrivKind, rows: seq<FormRow>)
    ensures !Edits(pk, rows, "")
  {
    forall i | 0 <= i < |rows| && rows[i].grantee == "" ensures RowAgrees(pk, rows[i]) {
      NoChangeIffRowAgrees(pk, rows[i]);
      hide RowAgrees, Diff, Ticked, ParsePrivState;
    }
    hide RowAgrees;
  }

  /** A row whose grantee holds what was loaded and what is ticked asks for nothing. */
  lemma LoadedAndSubmittedAgree(pk: PrivKind, rows: seq<FormRow>, acl: Acl, after: Acl, g: string)
    requires AsLoaded(pk, rows, acl) && AsSubmitted(pk, rows, acl, after) && Held(after, g) == Held(acl, g) && g != ""
    ensures !Edits(pk, rows, g)
  {
    hide ParsePrivState, Ticked, StateOf;
    forall i | 0 <= i < |rows| && rows[i].grantee == g ensures RowAgrees(pk, rows[i]) {
      TickedIsHeld(pk, Held(after, g), rows[i]);
      assert AgreeOn(pk.privs, Held(acl, g), ParsePrivState(rows[i].orig)) && HoldsTicked(pk, Held(after, g), rows[i]);
    }
  }

  lemma SoundGrantees(pk: PrivKind, rows: seq<FormRow>)
    requires !Edits(pk, rows, "public") && !Edits(pk, rows, "none")
    ensures var sts := FormStatements(pk, rows); forall i | 0 <= i < |sts| :: RoleMeant(sts[i].grantee) == Some(sts[i].grantee)
  {
    hide FormStatements, Edits;
    NamelessRowsAgree(pk, rows);
    EditedRowsAreAddressed(pk, rows, "");
    EditedRowsAreAddressed(pk, rows, "public");
    EditedRowsAreAddressed(pk, rows, "none");
  }

  lemma ScriptIsRendering(form: PrivForm)
    requires Script(form).Ok?
    ensures var pk := KindOf(form.kind).value;
            var sts := FormStatements(pk, AllRows(form));
            && RoutineHasSchema(pk) && PrivTarget(pk, form.schema, form.name).Ok?
            && IsRendering(pk, PrivTarget(pk, form.schema, form.name).value, sts, FormSql(form))
            && sts != [] && forall i | 0 <= i < |sts| :: IsSound(sts[i])
  {
    var pk := KindOf(form.kind).value;
    KindsHavePrivNames(form.kind);
    RoutinesAreNotServerWide(form.kind);
    hide Render, KindOf, PrivTarget, IsSound;
    RowsToSqlRenders(pk, FormTarget(form).value, AllRows(form));
    FormStatementsAreSound(pk, AllRows(form));
  }

  /** End to end: the joined script, split by the server's own splitter, read back and run on an ACL
  that is as the form was loaded, gives every grantee what is ticked and changes nothing else, exactly
  if the object's schema is no reserved word, a routine has a name in front of its arguments, and no row
  of a grantee named public or none is edited. */
  lemma ScriptTextReachesSubmitted(form: PrivForm, acl: Acl)
    requires Script(form).Ok? && (IsRoutineKind(KindOf(form.kind).value) ==> QuoteCount(RoutineArgs(form.name)) % 2 == 0)
    requires forall i | 0 <= i < |FormSql(form)| :: IsAscii(FormSql(form)[i])
    requires DistinctGrantees(AllRows(form)) && AsLoaded(KindOf(form.kind).value, AllRows(form), acl)
    ensures var pk := KindOf(form.kind).value;
            var out := RunTexts(pk, ObjectOf(pk, form.schema, form.name), acl, Split(Script(form).value));
            out.Some? && AsSubmitted(pk, AllRows(form), acl, out.value)
            <==> IsReadable(pk, form.schema, form.name) && !Edits(pk, AllRows(form), "public") && !Edits(pk, AllRows(form), "none")
  {
    var pk := KindOf(form.kind).value;
    var rows := AllRows(form);
    var sts := FormStatements(pk, rows);
    assert KindOf(form.kind).Some? && PrivTarget(pk, form.schema, form.name).Ok?;
    hide *;
    if IsRoutineKind(pk) {
      RoutineScriptSplitsBack(form);
    } else {
      ScriptSplitsBack(form);
    }
    ScriptIsRendering(form);
    if IsReadable(pk, form.schema, form.name) && !Edits(pk, rows, "public") && !Edits(pk, rows, "none") {
      SoundGrantees(pk, rows);
      RunTextsIsExec(pk, form.schema, form.name, acl, sts, FormSql(form));
      RowsReachSubmitted(pk, rows, acl);
    }
    var out := RunTexts(pk, ObjectOf(pk, form.schema, form.name), acl, FormSql(form));
    if out.Some? && AsSubmitted(pk, rows, acl, out.value) {
      RunTextsKeepsPublic(pk, form.schema, form.name, acl, sts, FormSql(form));
      EditedRowsAreAddressed(pk, rows, "none");
      LoadedAndSubmittedAgree(pk, rows, acl, out.value, "public");
    }
  }
}
