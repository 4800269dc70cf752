/** The ALTER ROLE builder of internal/web/ddl.go. */
module AlterRole {
  import opened Wrappers
  import opened GoStrings
  import opened SqlQuote
  import opened ClosedSql
  import opened Lists
  import opened Numbers
  import opened AlterObject

  // ---- Statements --------------------------------------------------------------------------------

  datatype Flag = Login | Superuser | CreateDb | CreateRole | Inherit | Replication

  function FieldOf(f: Flag): string {
    match f
    case Login => "login"
    case Superuser => "superuser"
    case CreateDb => "createdb"
    case CreateRole => "createrole"
    case Inherit => "inherit"
    case Replication => "replication"
  }

  function WordOf(f: Flag): string {
    match f
    case Login => "LOGIN"
    case Superuser => "SUPERUSER"
    case CreateDb => "CREATEDB"
    case CreateRole => "CREATEROLE"
    case Inherit => "INHERIT"
    case Replication => "REPLICATION"
  }

  datatype Act = SetFlag(flag: Flag, on: bool) | Password(password: string) | ConnLimit(n: int) | ValidUntil(time: string)

  function ActText(a: Act): string {
    match a
    case SetFlag(f, on) => if on then WordOf(f) else "NO" + WordOf(f)
    case Password(p) => "PASSWORD " + QuoteLiteral(p)
    case ConnLimit(n) => "CONNECTION LIMIT " + Itoa(n)
    case ValidUntil(t) => "VALID UNTIL " + QuoteLiteral(t)
  }

  function ActTexts(acts: seq<Act>): seq<string> {
    seq(|acts|, i requires 0 <= i < |acts| => ActText(acts[i]))
  }

  datatype RoleStmt =
    | Attributes(role: string, acts: seq<Act>)
    | Grant(group: string, member: string)
    | Revoke(group: string, member: string)
    | Rename(role: string, newName: string)

  function RenderRole(st: RoleStmt): string {
    match st
    case Attributes(role, acts) => "ALTER ROLE " + QuoteIdent(role) + " WITH " + Join(ActTexts(acts), " ")
    case Grant(group, member) => "GRANT " + QuoteIdent(group) + " TO " + QuoteIdent(member)
    case Revoke(group, member) => "REVOKE " + QuoteIdent(group) + " FROM " + QuoteIdent(member)
    case Rename(role, newName) => "ALTER ROLE " + QuoteIdent(role) + " RENAME TO " + QuoteIdent(newName)
  }

  function RenderRoles(sts: seq<RoleStmt>): seq<string> {
    seq(|sts|, i requires 0 <= i < |sts| => RenderRole(sts[i]))
  }

  // ---- The builder -------------------------------------------------------------------------------------

  function FlagPart(v: Form, f: Flag): seq<Act> {
    match Value(v, FieldOf(f))
    case "on" => [SetFlag(f, true)]
    case "off" => [SetFlag(f, false)]
    case _ => []
  }

  function PasswordPart(v: Form): seq<Act> {
    if Value(v, "password") != "" then [Password(Value(v, "password"))] else []
  }

  function LimitPart(v: Form): seq<Act> {
    if LimitOf(v).Some? then [ConnLimit(LimitOf(v).value)] else []
  }

  function UntilPart(v: Form): seq<Act> {
    if Field(v, "validuntil") != "" then [ValidUntil(Field(v, "validuntil"))] else []
  }

  /** A connection limit that was typed must be a number from -1 up. */
  predicate LimitIsValid(v: Form) {
    Field(v, "connlimit") == "" || (Atoi(Field(v, "connlimit")).Some? && Atoi(Field(v, "connlimit")).value >= -1)
  }

  function LimitOf(v: Form): Option<int> {
    if Field(v, "connlimit") == "" then None else Atoi(Field(v, "connlimit"))
  }

  function ActsOf(v: Form): seq<Act> {
    FlagPart(v, Login) + PasswordPart(v) + FlagPart(v, Superuser) + FlagPart(v, CreateDb) + FlagPart(v, CreateRole)
    + FlagPart(v, Inherit) + FlagPart(v, Replication) + LimitPart(v) + UntilPart(v)
  }

  function GrantsTo(groups: seq<string>, role: string): seq<RoleStmt> {
    seq(|groups|, i requires 0 <= i < |groups| => Grant(groups[i], role))
  }

  function RevokesFrom(groups: seq<string>, role: string): seq<RoleStmt> {
    seq(|groups|, i requires 0 <= i < |groups| => Revoke(groups[i], role))
  }

  function GrantsOf(role: string, members: seq<string>): seq<RoleStmt> {
    seq(|members|, i requires 0 <= i < |members| => Grant(role, members[i]))
  }

  function RevokesOf(role: string, members: seq<string>): seq<RoleStmt> {
    seq(|members|, i requires 0 <= i < |members| => Revoke(role, members[i]))
  }

  function GroupPlan(name: string, v: Form): seq<RoleStmt> {
    if "memberof_orig" !in v then []
    else
      var cur, orig := SplitList(Value(v, "memberof")), SplitList(v["memberof_orig"]);
      GrantsTo(Without(cur, orig), name) + RevokesFrom(Without(orig, cur), name)
  }

  function MemberPlan(name: string, v: Form): seq<RoleStmt> {
    if "members_orig" !in v then []
    else
      var cur, orig := SplitList(Value(v, "members")), SplitList(v["members_orig"]);
      GrantsOf(name, Without(cur, orig)) + RevokesOf(name, Without(orig, cur))
  }

  function RenameRolePart(name: string, v: Form): seq<RoleStmt> {
    if Field(v, "newname") != "" then [Rename(name, Field(v, "newname"))] else []
  }

  function AttributePart(name: string, v: Form): seq<RoleStmt> {
    if ActsOf(v) == [] then [] else [Attributes(name, ActsOf(v))]
  }

  function RolePlan(v: Form): seq<RoleStmt> {
    var name := Field(v, "name");
    AttributePart(name, v) + (GroupPlan(name, v) + MemberPlan(name, v)) + RenameRolePart(name, v)
  }

  function RoleScript(v: Form): Result<string> {
    if Field(v, "name") == "" then Err("Role name is required.")
    else if !LimitIsValid(v) then Err("Connection limit must be -1 (unlimited) or higher.")
    else if RolePlan(v) == [] then Err("No changes requested. Set an attribute, a membership or a new name.")
    else Ok(JoinStatements(RenderRoles(RolePlan(v))))
  }

  /** buildAlterRole */
  method BuildAlterRole(v: Form) returns (r: Result<string>)
    ensures r == RoleScript(v)
  {
    hide ActsOf, GroupPlan, MemberPlan, RenderRole, RenderRoles, Field, Atoi;
    var name := Field(v, "name");
    if name == "" {
      return Err("Role name is required.");
    }
    if !LimitIsValid(v) {
      return Err("Connection limit must be -1 (unlimited) or higher.");
    }
    var acts := CollectActs(v);
    var stmts := [];
    if |acts| > 0 {
      stmts := stmts + [RenderRole(Attributes(name, acts))];
    }
    var more := RoleMembershipStatements(name, v);
    stmts := stmts + more;
    var nn := Field(v, "newname");
    if nn != "" {
      stmts := stmts + [RenderRole(Rename(name, nn))];
    }
    RolePlanRendered(name, v);
    assert stmts == RenderRoles(RolePlan(v));
    if |stmts| == 0 {
      return Err("No changes requested. Set an attribute, a membership or a new name.");
    }
    return Ok(JoinStatements(stmts));
  }

  method Tri(acts: seq<Act>, v: Form, f: Flag) returns (r: seq<Act>)
    ensures r == acts + FlagPart(v, f)
  {
    match Value(v, FieldOf(f)) {
      case "on" => r := acts + [SetFlag(f, true)];
      case "off" => r := acts + [SetFlag(f, false)];
      case _ => r := acts;
    }
  }

  method CollectActs(v: Form) returns (acts: seq<Act>)
    ensures acts == ActsOf(v)
  {
    hide FlagPart, Field, Atoi;
    acts := Tri([], v, Login);
    assert acts == FlagPart(v, Login);
    if Value(v, "password") != "" {
      acts := acts + [Password(Value(v, "password"))];
    }
    assert acts == FlagPart(v, Login) + PasswordPart(v);
    hide PasswordPart;
    acts := Tri(acts, v, Superuser);
    acts := Tri(acts, v, CreateDb);
    acts := Tri(acts, v, CreateRole);
    acts := Tri(acts, v, Inherit);
    acts := Tri(acts, v, Replication);
    if LimitOf(v).Some? {
      acts := acts + [ConnLimit(LimitOf(v).value)];
    } else {
      acts := acts + [];
    }
    if Field(v, "validuntil") != "" {
      acts := acts + [ValidUntil(Field(v, "validuntil"))];
    } else {
      acts := acts + [];
    }
  }

  lemma RenderRolesConcat(a: seq<RoleStmt>, b: seq<RoleStmt>)
    ensures RenderRoles(a + b) == RenderRoles(a) + RenderRoles(b)
  {
    hide RenderRole;
  }

  /** roleMembershipStatements */
  method RoleMembershipStatements(name: string, v: Form) returns (stmts: seq<string>)
    ensures stmts == RenderRoles(GroupPlan(name, v) + MemberPlan(name, v))
  {
    hide RenderRole, SplitList, Without, RenderRoles, GrantsTo, RevokesFrom, GrantsOf, RevokesOf;
    RenderRolesConcat(GroupPlan(name, v), MemberPlan(name, v));
    stmts := [];
    assert RenderRoles([]) == [] by { RenderNothing(); }
    if "memberof_orig" in v {
      var cur := ParseList(Value(v, "memberof"));
      var orig := ParseList(v["memberof_orig"]);
      var added, dropped := ListDiff(cur, orig);
      stmts := EmitGroups(name, added, dropped);
    }
    if "members_orig" in v {
      var cur := ParseList(Value(v, "members"));
      var orig := ParseList(v["members_orig"]);
      var added, dropped := ListDiff(cur, orig);
      var more := EmitMembers(name, added, dropped);
      stmts := stmts + more;
    } else {
      assert stmts + [] == stmts;
    }
  }

  lemma RenderNothing()
    ensures RenderRoles([]) == []
  {
  }

  /** The text of the script, part by part. */
  lemma RolePlanRendered(name: string, v: Form)
    requires name == Field(v, "name")
    ensures RenderRoles(RolePlan(v))
         == (if ActsOf(v) == [] then [] else [RenderRole(Attributes(name, ActsOf(v)))])
            + RenderRoles(GroupPlan(name, v) + MemberPlan(name, v))
            + if Field(v, "newname") == "" then [] else [RenderRole(Rename(name, Field(v, "newname")))]
    ensures |RenderRoles(RolePlan(v))| == |RolePlan(v)|
  {
    hide RenderRole, ActsOf, GroupPlan, MemberPlan, Field;
    RenderRolesConcat(AttributePart(name, v) + (GroupPlan(name, v) + MemberPlan(name, v)), RenameRolePart(name, v));
    RenderRolesConcat(AttributePart(name, v), GroupPlan(name, v) + MemberPlan(name, v));
  }

  method EmitGroups(name: string, added: seq<string>, dropped: seq<string>) returns (stmts: seq<string>)
    ensures stmts == RenderRoles(GrantsTo(added, name) + RevokesFrom(dropped, name))
  {
    hide RenderRole;
    stmts := [];
    for i := 0 to |added|
      invariant stmts == RenderRoles(GrantsTo(added[..i], name))
    {
      stmts := stmts + [RenderRole(Grant(added[i], name))];
    }
    assert added[..|added|] == added;
    ghost var granted := stmts;
    for i := 0 to |dropped|
      invariant stmts == granted + RenderRoles(RevokesFrom(dropped[..i], name))
    {
      stmts := stmts + [RenderRole(Revoke(dropped[i], name))];
    }
    assert dropped[..|dropped|] == dropped;
    RenderRolesConcat(GrantsTo(added, name), RevokesFrom(dropped, name));
  }

  method EmitMembers(name: string, added: seq<string>, dropped: seq<string>) returns (stmts: seq<string>)
    ensures stmts == RenderRoles(GrantsOf(name, added) + RevokesOf(name, dropped))
  {
    hide RenderRole;
    stmts := [];
    for i := 0 to |added|
      invariant stmts == RenderRoles(GrantsOf(name, added[..i]))
    {
      stmts := stmts + [RenderRole(Grant(name, added[i]))];
    }
    assert added[..|added|] == added;
    ghost var granted := stmts;
    for i := 0 to |dropped|
      invariant stmts == granted + RenderRoles(RevokesOf(name, dropped[..i]))
    {
      stmts := stmts + [RenderRole(Revoke(name, dropped[i]))];
    }
    assert dropped[..|dropped|] == dropped;
    RenderRolesConcat(GrantsOf(name, added), RevokesOf(name, dropped));
  }
}
