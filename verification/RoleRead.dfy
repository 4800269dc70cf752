/** ALTER ROLE scripts read back from their text and run on a catalog of roles. */
module RoleRead {
  import opened Wrappers
  import opened GoStrings
  import opened SqlQuote
  import opened SqlNames
  import opened SplitStatements
  import opened AlterObject
  import opened AlterRole
  import opened AlterRoleLaws
  import opened Lists
  import opened ClosedSql
  import opened Numbers

  // ---- The reader ---------------------------------------------------------------------------

  /** The option that a word is. */
  function FlagOf(w: string): Option<(Flag, bool)> {
    match w
    case "LOGIN" => Some((Login, true))
    case "NOLOGIN" => Some((Login, false))
    case "SUPERUSER" => Some((Superuser, true))
    case "NOSUPERUSER" => Some((Superuser, false))
    case "CREATEDB" => Some((CreateDb, true))
    case "NOCREATEDB" => Some((CreateDb, false))
    case "CREATEROLE" => Some((CreateRole, true))
    case "NOCREATEROLE" => Some((CreateRole, false))
    case "INHERIT" => Some((Inherit, true))
    case "NOINHERIT" => Some((Inherit, false))
    case "REPLICATION" => Some((Replication, true))
    case "NOREPLICATION" => Some((Replication, false))
    case _ => None
  }

  /** A number runs up to the next blank. */
  function NumberLength(s: string): (n: nat)
    ensures n <= |s|
  {
    if s != "" && s[0] != ' ' then 1 + NumberLength(s[1..]) else 0
  }

  function ReadNumber(s: string): Option<(int, string)> {
    var n := NumberLength(s);
    match Atoi(s[..n])
    case None => None
    case Some(v) => Some((v, s[n..]))
  }

  /** One attribute of the list, and what follows it. */
  function ReadAct(s: string): Option<(Act, string)> {
    var n := WordLength(s);
    var word, rest := s[..n], s[n..];
    match FlagOf(word)
    case Some((f, on)) => Some((SetFlag(f, on), rest))
    case None =>
      match word
      case "PASSWORD" =>
        (match After(" ", rest)
         case None => None
         case Some(rest) => match ReadLiteral(rest) case None => None case Some((p, rest)) => Some((Password(p), rest)))
      case "CONNECTION" =>
        (match After(" LIMIT ", rest)
         case None => None
         case Some(rest) => match ReadNumber(rest) case None => None case Some((v, rest)) => Some((ConnLimit(v), rest)))
      case "VALID" =>
        (match After(" UNTIL ", rest)
         case None => None
         case Some(rest) => match ReadLiteral(rest) case None => None case Some((t, rest)) => Some((ValidUntil(t), rest)))
      case _ => None
  }

  function ReadActs(s: string): Option<seq<Act>>
    decreases |s|
  {
    match ReadAct(s)
    case None => None
    case Some((a, rest)) =>
      if rest == "" then Some([a])
      else if rest[0] != ' ' || |rest| >= |s| then None
      else
        match ReadActs(rest[1..])
        case None => None
        case Some(acts) => Some([a] + acts)
  }

  function ReadAlterRole(s: string): Option<RoleStmt> {
    match ReadIdent(s)
    case None => None
    case Some((role, rest)) =>
      match After(" WITH ", rest)
      case Some(rest) => (match ReadActs(rest) case None => None case Some(acts) => Some(Attributes(role, acts)))
      case None =>
        match After(" RENAME TO ", rest)
        case None => None
        case Some(rest) => match ReadName(rest) case None => None case Some(x) => Some(Rename(role, x))
  }

  /** The statement that a text is. */
  function ReadRole(s: string): Option<RoleStmt> {
    match After("ALTER ROLE ", s)
    case Some(rest) => ReadAlterRole(rest)
    case None =>
      match After("GRANT ", s)
      case Some(rest) => (match ReadPair(" TO ", rest) case None => None case Some((g, m)) => Some(Grant(g, m)))
      case None =>
        match After("REVOKE ", s)
        case None => None
        case Some(rest) => match ReadPair(" FROM ", rest) case None => None case Some((g, m)) => Some(Revoke(g, m))
  }

  // ---- What is printed reads back ----------------------------------------------------------------

  /** Behind an attribute: nothing, or a blank and the next one. */
  predicate EndsAct(rest: string) {
    rest == "" || rest[0] == ' '
  }

  lemma FlagTextIsWord(f: Flag, on: bool)
    ensures IsWord(ActText(SetFlag(f, on)))
  {
    FlagWord(f);
    hide WordOf;
  }

  lemma FlagWord(f: Flag)
    ensures IsWord(WordOf(f))
  {
  }

  lemma FlagOfText(f: Flag, on: bool)
    ensures FlagOf(ActText(SetFlag(f, on))) == Some((f, on))
  {
    var w := ActText(SetFlag(f, on));
    match f {
      case Login => assert w == if on then "LOGIN" else "NOLOGIN";
      case Superuser => assert w == if on then "SUPERUSER" else "NOSUPERUSER";
      case CreateDb => assert w == if on then "CREATEDB" else "NOCREATEDB";
      case CreateRole => assert w == if on then "CREATEROLE" else "NOCREATEROLE";
      case Inherit => assert w == if on then "INHERIT" else "NOINHERIT";
      case Replication => assert w == if on then "REPLICATION" else "NOREPLICATION";
    }
  }

  lemma NoFlags()
    ensures FlagOf("PASSWORD") == None && FlagOf("CONNECTION") == None && FlagOf("VALID") == None
  {
  }

  lemma {:induction false} NumberLengthOf(x: string, rest: string)
    requires ' ' !in x && EndsAct(rest)
    ensures NumberLength(x + rest) == |x|
  {
    if x == "" {
      assert x + rest == rest;
    } else {
      assert (x + rest)[1..] == x[1..] + rest;
      NumberLengthOf(x[1..], rest);
    }
  }

  lemma NumberReadsBack(n: int, rest: string)
    requires -MAX_INT - 1 <= n <= MAX_INT && EndsAct(rest)
    ensures ReadNumber(Itoa(n) + rest) == Some((n, rest))
  {
    ItoaReadsBack(n);
    assert ' ' !in Itoa(n);
    NumberLengthOf(Itoa(n), rest);
    hide Itoa, Atoi, NumberLength;
    assert (Itoa(n) + rest)[..|Itoa(n)|] == Itoa(n) && (Itoa(n) + rest)[|Itoa(n)|..] == rest;
  }

  /** Limits that the form can ask for fit the machine's integers. */
  predicate IsPrintable(a: Act) {
    a.ConnLimit? ==> -MAX_INT - 1 <= a.n <= MAX_INT
  }

  lemma FlagReadsBack(f: Flag, on: bool, rest: string)
    requires EndsAct(rest)
    ensures ReadAct(ActText(SetFlag(f, on)) + rest) == Some((SetFlag(f, on), rest))
  {
    hide FlagOf, ActText, WordLength, IsWord;
    FlagTextIsWord(f, on);
    FlagOfText(f, on);
    WordReadsBack(ActText(SetFlag(f, on)), rest);
  }

  /** A keyword, the words behind it, a value and what follows. */
  lemma WordAndRest(s: string, w: string, words: string, x: string, rest: string)
    requires IsWord(w) && EndsAct(words) && words != "" && s == w + words + x + rest
    ensures WordLength(s) == |w| && s[..|w|] == w && After(words, s[|w|..]) == Some(x + rest)
  {
    hide WordLength, After, IsWord;
    ConcatRight(w, words, x, rest);
    WordReadsBack(w, words + (x + rest));
    AfterItself(words, x + rest);
  }

  lemma PasswordReadsBack(p: string, rest: string)
    requires EndsAct(rest)
    ensures ReadAct(ActText(Password(p)) + rest) == Some((Password(p), rest))
  {
    hide ReadLiteral, QuoteLiteral, WordLength, After, FlagOf;
    NoFlags();
    var s := ActText(Password(p)) + rest;
    assert s == "PASSWORD" + " " + QuoteLiteral(p) + rest by { assert "PASSWORD " == "PASSWORD" + " "; }
    WordAndRest(s, "PASSWORD", " ", QuoteLiteral(p), rest);
    ReadQuoteLiteral(p, rest);
  }

  lemma LimitReadsBack(n: int, rest: string)
    requires EndsAct(rest) && IsPrintable(ConnLimit(n))
    ensures ReadAct(ActText(ConnLimit(n)) + rest) == Some((ConnLimit(n), rest))
  {
    hide ReadNumber, Itoa, WordLength, After, FlagOf;
    NoFlags();
    var s := ActText(ConnLimit(n)) + rest;
    assert s == "CONNECTION" + " LIMIT " + Itoa(n) + rest by { assert "CONNECTION LIMIT " == "CONNECTION" + " LIMIT "; }
    WordAndRest(s, "CONNECTION", " LIMIT ", Itoa(n), rest);
    NumberReadsBack(n, rest);
  }

  lemma UntilReadsBack(t: string, rest: string)
    requires EndsAct(rest)
    ensures ReadAct(ActText(ValidUntil(t)) + rest) == Some((ValidUntil(t), rest))
  {
    hide ReadLiteral, QuoteLiteral, WordLength, After, FlagOf;
    NoFlags();
    var s := ActText(ValidUntil(t)) + rest;
    assert s == "VALID" + " UNTIL " + QuoteLiteral(t) + rest by { assert "VALID UNTIL " == "VALID" + " UNTIL "; }
    WordAndRest(s, "VALID", " UNTIL ", QuoteLiteral(t), rest);
    ReadQuoteLiteral(t, rest);
  }

  lemma ActReadsBack(a: Act, rest: string)
    requires EndsAct(rest) && IsPrintable(a)
    ensures ReadAct(ActText(a) + rest) == Some((a, rest))
  {
    hide ReadAct, ActText;
    match a {
      case SetFlag(f, on) => FlagReadsBack(f, on, rest);
      case Password(p) => PasswordReadsBack(p, rest);
      case ConnLimit(n) => LimitReadsBack(n, rest);
      case ValidUntil(t) => UntilReadsBack(t, rest);
    }
  }

  /** One more attribute in front of a list that reads back. */
  lemma ReadActsStep(t: string, a: Act, more: string, acts: seq<Act>)
    requires t != "" && ReadAct(t + (" " + more)) == Some((a, " " + more)) && ReadActs(more) == Some(acts)
    ensures ReadActs(t + " " + more) == Some([a] + acts)
  {
    hide ReadAct;
    assert t + " " + more == t + (" " + more) && (" " + more)[1..] == more;
  }

  lemma ReadLastAct(t: string, a: Act)
    requires ReadAct(t + "") == Some((a, ""))
    ensures ReadActs(t) == Some([a])
  {
    hide ReadAct;
    assert t + "" == t;
  }

  lemma {:induction false} ActsReadBack(acts: seq<Act>)
    requires acts != [] && forall i | 0 <= i < |acts| :: IsPrintable(acts[i])
    ensures ReadActs(Join(ActTexts(acts), " ")) == Some(acts)
  {
    hide ReadAct, ActText, ReadActs;
    var t := ActText(acts[0]);
    assert acts == [acts[0]] + acts[1..];
    if |acts| == 1 {
      assert acts == [acts[0]] && ActTexts(acts) == [t];
      ActReadsBack(acts[0], "");
      ReadLastAct(t, acts[0]);
    } else {
      var more := Join(ActTexts(acts[1..]), " ");
      assert ActTexts(acts)[1..] == ActTexts(acts[1..]);
      ActsReadBack(acts[1..]);
      ActReadsBack(acts[0], " " + more);
      ActTextIsNotEmpty(acts[0]);
      ReadActsStep(t, acts[0], more, acts[1..]);
    }
  }

  lemma ActTextIsNotEmpty(a: Act)
    ensures ActText(a) != ""
  {
  }

  lemma GrantReadsBack(g: string, m: string)
    requires g != "" && m != ""
    ensures ReadRole(RenderRole(Grant(g, m))) == Some(Grant(g, m))
    ensures ReadRole(RenderRole(Revoke(g, m))) == Some(Revoke(g, m))
  {
    hide QuoteIdent, ReadPair, ReadAlterRole;
    PairReadsBack(" TO ", g, m);
    PairReadsBack(" FROM ", g, m);
    ThreeParts("GRANT ", QuoteIdent(g), " TO ", QuoteIdent(m));
    ThreeParts("REVOKE ", QuoteIdent(g), " FROM ", QuoteIdent(m));
  }

  lemma ThreeParts(head: string, a: string, words: string, b: string)
    ensures head + a + words + b == head + (a + words + b) && After(head, head + (a + words + b)) == Some(a + words + b)
    ensures a + words + b == a + (words + b)
  {
  }

  lemma AlterRoleReadsBack(rest: string)
    ensures ReadRole("ALTER ROLE " + rest) == ReadAlterRole(rest)
  {
    hide ReadAlterRole, After;
    AfterItself("ALTER ROLE ", rest);
  }

  lemma AttributesReadBack(role: string, acts: seq<Act>)
    requires role != "" && acts != [] && forall i | 0 <= i < |acts| :: IsPrintable(acts[i])
    ensures ReadRole(RenderRole(Attributes(role, acts))) == Some(Attributes(role, acts))
  {
    hide QuoteIdent, ReadIdent, ReadActs, After, Join, ReadRole, ActTexts, StopsIdent, IsPrintable;
    var list := Join(ActTexts(acts), " ");
    ActsReadBack(acts);
    BlankStops("WITH " + list);
    assert " WITH " + list == " " + ("WITH " + list);
    ReadQuoteIdent(role, " WITH " + list);
    AfterItself(" WITH ", list);
    ThreeParts("ALTER ROLE ", QuoteIdent(role), " WITH ", list);
    AlterRoleReadsBack(QuoteIdent(role) + " WITH " + list);
  }

  lemma BlankStops(s: string)
    ensures StopsIdent(" " + s)
  {
  }

  lemma RenameReadsBack(role: string, newName: string)
    requires role != "" && newName != ""
    ensures ReadRole(RenderRole(Rename(role, newName))) == Some(Rename(role, newName))
  {
    hide QuoteIdent, ReadIdent, After, ReadRole, StopsIdent;
    var x := QuoteIdent(newName);
    BlankStops("RENAME TO " + x);
    assert " RENAME TO " + x == " " + ("RENAME TO " + x);
    ReadQuoteIdent(role, " RENAME TO " + x);
    assert StopsIdent("") by { NothingStops(); }
    ReadQuoteIdent(newName, "");
    assert x + "" == x;
    AfterItself(" RENAME TO ", x);
    NoAttributes(x);
    ThreeParts("ALTER ROLE ", QuoteIdent(role), " RENAME TO ", x);
    AlterRoleReadsBack(QuoteIdent(role) + " RENAME TO " + x);
  }

  lemma NothingStops()
    ensures StopsIdent("")
  {
  }

  lemma NoAttributes(x: string)
    ensures After(" WITH ", " RENAME TO " + x) == None
  {
    assert (" RENAME TO " + x)[1] == 'R';
  }

  /** A statement as the form makes them: no name is empty. */
  predicate IsReadable(st: RoleStmt) {
    match st
    case Attributes(role, acts) => role != "" && acts != [] && forall i | 0 <= i < |acts| :: IsPrintable(acts[i])
    case Grant(g, m) => g != "" && m != ""
    case Revoke(g, m) => g != "" && m != ""
    case Rename(role, x) => role != "" && x != ""
  }

  /** A printed statement reads back as itself, whatever names, password and date are in it. */
  lemma RoleReadsBack(st: RoleStmt)
    requires IsReadable(st)
    ensures ReadRole(RenderRole(st)) == Some(st)
  {
    hide ReadRole, RenderRole, IsPrintable;
    match st {
      case Attributes(role, acts) => AttributesReadBack(role, acts);
      case Grant(g, m) => GrantReadsBack(g, m);
      case Revoke(g, m) => GrantReadsBack(g, m);
      case Rename(role, x) => RenameReadsBack(role, x);
    }
  }

  // ---- The whole script ---------------------------------------------------------------------------

  /** Executes the statements a list of texts is read as; an unreadable one fails. */
  function RunTexts(r: Roles, texts: seq<string>): Option<Roles>
    decreases |texts|
  {
    if |texts| == 0 then Some(r)
    else
      match ReadRole(texts[0])
      case None => None
      case Some(st) =>
        match StepRole(r, st)
        case None => None
        case Some(next) => RunTexts(next, texts[1..])
  }

  lemma {:induction false} RunTextsIsRunRoles(r: Roles, sts: seq<RoleStmt>)
    requires AllReadable(sts)
    ensures RunTexts(r, RenderRoles(sts)) == RunRoles(r, sts)
    decreases |sts|
  {
    hide ReadRole, RenderRole, StepRole, IsReadable;
    if |sts| > 0 {
      RoleReadsBack(sts[0]);
      assert RenderRoles(sts)[1..] == RenderRoles(sts[1..]);
      if StepRole(r, sts[0]).Some? {
        RunTextsIsRunRoles(StepRole(r, sts[0]).value, sts[1..]);
      }
    }
  }

  ghost predicate AllReadable(sts: seq<RoleStmt>) {
    forall i | 0 <= i < |sts| :: IsReadable(sts[i])
  }

  lemma EntriesAreNotEmpty(s: string)
    ensures "" !in SplitList(s)
  {
    SplitCommaHasNoComma(s);
    hide SplitComma, TrimmedEntries;
    TrimmedEntriesAreEntries(SplitComma(s));
  }

  lemma PairsAreReadable(name: string, s: string, t: string)
    requires name != ""
    ensures var names := Without(SplitList(s), SplitList(t));
            && AllReadable(GrantsTo(names, name)) && AllReadable(RevokesFrom(names, name))
            && AllReadable(GrantsOf(name, names)) && AllReadable(RevokesOf(name, names))
  {
    EntriesAreNotEmpty(s);
    hide SplitList, Without;
    var names := Without(SplitList(s), SplitList(t));
    assert forall i | 0 <= i < |names| :: names[i] in names;
  }

  lemma MembershipsAreReadable(name: string, v: Form)
    requires name != ""
    ensures AllReadable(GroupPlan(name, v)) && AllReadable(MemberPlan(name, v))
  {
    hide SplitList, Without, GrantsTo, RevokesFrom, GrantsOf, RevokesOf, Value;
    if "memberof_orig" in v {
      PairsAreReadable(name, Value(v, "memberof"), v["memberof_orig"]);
      PairsAreReadable(name, v["memberof_orig"], Value(v, "memberof"));
    }
    if "members_orig" in v {
      PairsAreReadable(name, Value(v, "members"), v["members_orig"]);
      PairsAreReadable(name, v["members_orig"], Value(v, "members"));
    }
  }

  lemma AllReadableConcat(a: seq<RoleStmt>, b: seq<RoleStmt>)
    requires AllReadable(a) && AllReadable(b)
    ensures AllReadable(a + b)
  {
  }

  lemma PlanIsReadable(v: Form)
    requires Field(v, "name") != ""
    ensures AllReadable(RolePlan(v))
  {
    var name := Field(v, "name");
    ActsArePrintable(v);
    MembershipsAreReadable(name, v);
    hide Field, GroupPlan, MemberPlan, ActsOf, IsPrintable;
    assert AllReadable(AttributePart(name, v)) && AllReadable(RenameRolePart(name, v));
    hide AllReadable, AttributePart, RenameRolePart;
    AllReadableConcat(GroupPlan(name, v), MemberPlan(name, v));
    AllReadableConcat(AttributePart(name, v), GroupPlan(name, v) + MemberPlan(name, v));
    AllReadableConcat(AttributePart(name, v) + (GroupPlan(name, v) + MemberPlan(name, v)), RenameRolePart(name, v));
  }

  predicate AllPrintable(acts: seq<Act>) {
    forall i | 0 <= i < |acts| :: IsPrintable(acts[i])
  }

  lemma PrintableConcat(a: seq<Act>, b: seq<Act>)
    requires AllPrintable(a) && AllPrintable(b)
    ensures AllPrintable(a + b)
  {
  }

  lemma PartsPrintable(v: Form)
    ensures AllPrintable(PasswordPart(v)) && AllPrintable(LimitPart(v)) && AllPrintable(UntilPart(v))
    ensures forall f :: AllPrintable(FlagPart(v, f))
  {
    LimitIsPrintable(v);
    hide Field, LimitOf;
  }

  lemma ActsArePrintable(v: Form)
    ensures AllPrintable(ActsOf(v))
  {
    hide AllPrintable, FlagPart, PasswordPart, LimitPart, UntilPart;
    PartsPrintable(v);
    var p1 := FlagPart(v, Login) + PasswordPart(v);
    PrintableConcat(FlagPart(v, Login), PasswordPart(v));
    PrintableConcat(p1, FlagPart(v, Superuser));
    var p2 := p1 + FlagPart(v, Superuser);
    PrintableConcat(p2, FlagPart(v, CreateDb));
    var p3 := p2 + FlagPart(v, CreateDb);
    PrintableConcat(p3, FlagPart(v, CreateRole));
    var p4 := p3 + FlagPart(v, CreateRole);
    PrintableConcat(p4, FlagPart(v, Inherit));
    var p5 := p4 + FlagPart(v, Inherit);
    PrintableConcat(p5, FlagPart(v, Replication));
    var p6 := p5 + FlagPart(v, Replication);
    PrintableConcat(p6, LimitPart(v));
    PrintableConcat(p6 + LimitPart(v), UntilPart(v));
  }

  lemma LimitIsPrintable(v: Form)
    ensures LimitOf(v).Some? ==> -MAX_INT - 1 <= LimitOf(v).value <= MAX_INT
  {
  }

  lemma ScriptIsJoined(v: Form)
    requires RoleScript(v).Ok?
    ensures Field(v, "name") != "" && RolePlan(v) != [] && RoleScript(v).value == JoinStatements(RenderRoles(RolePlan(v)))
    ensures |RenderRoles(RolePlan(v))| == |RolePlan(v)|
    ensures forall i | 0 <= i < |RolePlan(v)| :: RenderRoles(RolePlan(v))[i] == RenderRole(RolePlan(v)[i])
  {
    hide RolePlan, RenderRole, Field, LimitIsValid, JoinStatements;
  }

  /** End to end: the joined script of an accepted form, split by the server's own splitter,
  read back and run on roles that are as the form was loaded, does what was requested. */
  lemma RoleTextReachesRequested(r: Roles, v: Form)
    requires RoleScript(v).Ok? && forall i | 0 <= i < |RolePlan(v)| :: IsAscii(RenderRole(RolePlan(v)[i]))
    requires Field(v, "name") in r.attrs && GroupsAsLoaded(r, Field(v, "name"), v) && MembersAsLoaded(r, Field(v, "name"), v)
    ensures var name, nn := Field(v, "name"), Field(v, "newname");
            exists mid :: AsRequested(r, name, v, mid)
              && RunTexts(r, Split(RoleScript(v).value))
                 == if nn == "" then Some(mid) else if nn in r.attrs || IsReservedRole(nn) then None else Some(RenameIn(mid, name, nn))
  {
    ScriptIsJoined(v);
    hide *;
    PlanIsReadable(v);
    RoleScriptSplitsBack(v);
    RunTextsIsRunRoles(r, RolePlan(v));
    RolePlanReachesRequested(r, v);
  }
}
