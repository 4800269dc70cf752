/** What the ALTER ROLE script does to a catalog of roles and memberships. */
module AlterRoleLaws {
  import opened Wrappers
  import opened GoStrings
  import opened SqlQuote
  import opened SqlNames
  import opened ClosedSql
  import opened SplitStatements
  import opened Lists
  import opened Numbers
  import opened AlterObject
  import opened AlterRole

  // ---- Attributes ------------------------------------------------------------------------------

  datatype RoleAttrs = RoleAttrs(flags: set<Flag>, password: string, limit: int, validUntil: string)

  function ApplyAct(a: RoleAttrs, act: Act): RoleAttrs {
    match act
    case SetFlag(f, on) => a.(flags := if on then a.flags + {f} else a.flags - {f})
    case Password(p) => a.(password := p)
    case ConnLimit(n) => a.(limit := n)
    case ValidUntil(t) => a.(validUntil := t)
  }

  function ApplyActs(a: RoleAttrs, acts: seq<Act>): RoleAttrs
    decreases |acts|
  {
    if |acts| == 0 then a else ApplyActs(ApplyAct(a, acts[0]), acts[1..])
  }

  lemma {:induction false} ApplyActsConcat(a: RoleAttrs, x: seq<Act>, y: seq<Act>)
    ensures ApplyActs(a, x + y) == ApplyActs(ApplyActs(a, x), y)
    decreases |x|
  {
    if |x| == 0 {
      assert x + y == y;
    } else {
      assert (x + y)[1..] == x[1..] + y;
      ApplyActsConcat(ApplyAct(a, x[0]), x[1..], y);
    }
  }

  lemma ApplyOne(a: RoleAttrs, act: Act)
    ensures ApplyActs(a, [act]) == ApplyAct(a, act) && ApplyActs(a, []) == a
  {
    assert [act][1..] == [];
  }

  /** The form's answer for a flag: on, off, or as it was. */
  predicate WantsFlag(v: Form, f: Flag, was: bool) {
    match Value(v, FieldOf(f))
    case "on" => true
    case "off" => false
    case _ => was
  }

  function WithFlag(v: Form, f: Flag, flags: set<Flag>): (r: set<Flag>)
    ensures forall g :: g in r <==> if g == f then WantsFlag(v, f, f in flags) else g in flags
  {
    if WantsFlag(v, f, f in flags) then flags + {f} else flags - {f}
  }

  lemma ApplyFlagPart(a: RoleAttrs, v: Form, f: Flag)
    ensures ApplyActs(a, FlagPart(v, f)) == a.(flags := WithFlag(v, f, a.flags))
  {
    ApplyOne(a, SetFlag(f, true));
    ApplyOne(a, SetFlag(f, false));
    var r := ApplyActs(a, FlagPart(v, f));
    assert r.flags == WithFlag(v, f, a.flags);
  }

  /** What a field answers: on, off, or as it was. */
  predicate Answers(v: Form, field: string, was: bool) {
    var answer := if field in v then v[field] else "";
    answer == "on" || (answer != "off" && was)
  }

  /** The attribute is to be set, by the field of its own name. */
  predicate IsWanted(v: Form, f: Flag, was: bool) {
    match f
    case Login => Answers(v, "login", was)
    case Superuser => Answers(v, "superuser", was)
    case CreateDb => Answers(v, "createdb", was)
    case CreateRole => Answers(v, "createrole", was)
    case Inherit => Answers(v, "inherit", was)
    case Replication => Answers(v, "replication", was)
  }

  lemma WantedByField(v: Form, f: Flag, was: bool)
    ensures WantsFlag(v, f, was) <==> IsWanted(v, f, was)
  {
  }

  /** Exactly the attributes that were filled in change, to what was filled in. */
  function RequestedAttrs(a: RoleAttrs, v: Form): RoleAttrs {
    var password := if "password" in v then v["password"] else "";
    var limit := if "connlimit" in v then Trim(v["connlimit"]) else "";
    var until := if "validuntil" in v then Trim(v["validuntil"]) else "";
    RoleAttrs(set f: Flag | IsWanted(v, f, f in a.flags),
              if password != "" then password else a.password,
              if limit != "" && Atoi(limit).Some? then Atoi(limit).value else a.limit,
              if until != "" then until else a.validUntil)
  }

  lemma RequestedByParts(a: RoleAttrs, v: Form)
    ensures RequestedAttrs(a, v)
         == RoleAttrs(set f: Flag | WantsFlag(v, f, f in a.flags),
                      if Value(v, "password") != "" then Value(v, "password") else a.password,
                      if LimitOf(v).Some? then LimitOf(v).value else a.limit,
                      if Field(v, "validuntil") != "" then Field(v, "validuntil") else a.validUntil)
  {
    forall f: Flag ensures WantsFlag(v, f, f in a.flags) <==> IsWanted(v, f, f in a.flags) {
      WantedByField(v, f, f in a.flags);
    }
    BlankIsNoNumber();
    hide Atoi, Trim, WantsFlag, IsWanted;
    assert Field(v, "connlimit") == Trim(Value(v, "connlimit")) && Field(v, "validuntil") == Trim(Value(v, "validuntil"));
  }

  lemma BlankIsNoNumber()
    ensures Trim("") == "" && Atoi("").None?
  {
  }

  function SixFlags(v: Form, flags: set<Flag>): set<Flag> {
    WithFlag(v, Replication, WithFlag(v, Inherit, WithFlag(v, CreateRole, WithFlag(v, CreateDb,
      WithFlag(v, Superuser, WithFlag(v, Login, flags))))))
  }

  lemma SixFlagsAreAll(v: Form, flags: set<Flag>)
    ensures SixFlags(v, flags) == set f: Flag | WantsFlag(v, f, f in flags)
  {
    hide WantsFlag, WithFlag;
    forall f: Flag ensures f in SixFlags(v, flags) <==> WantsFlag(v, f, f in flags) {
      match f {
        case Login =>
        case Superuser =>
        case CreateDb =>
        case CreateRole =>
        case Inherit =>
        case Replication =>
      }
    }
  }

  lemma ActsReachRequested(a: RoleAttrs, v: Form)
    ensures ApplyActs(a, ActsOf(v)) == RequestedAttrs(a, v)
  {
    RequestedByParts(a, v);
    hide ApplyActs, FlagPart, WithFlag, WantsFlag, Field, LimitOf, RequestedAttrs;
    var p1, p2, p3, p4, p5 := FlagPart(v, Login), PasswordPart(v), FlagPart(v, Superuser), FlagPart(v, CreateDb), FlagPart(v, CreateRole);
    var p6, p7, p8, p9 := FlagPart(v, Inherit), FlagPart(v, Replication), LimitPart(v), UntilPart(v);
    ApplyActsConcat(a, p1 + p2 + p3 + p4 + p5 + p6 + p7 + p8, p9);
    ApplyActsConcat(a, p1 + p2 + p3 + p4 + p5 + p6 + p7, p8);
    ApplyActsConcat(a, p1 + p2 + p3 + p4 + p5 + p6, p7);
    ApplyActsConcat(a, p1 + p2 + p3 + p4 + p5, p6);
    ApplyActsConcat(a, p1 + p2 + p3 + p4, p5);
    ApplyActsConcat(a, p1 + p2 + p3, p4);
    ApplyActsConcat(a, p1 + p2, p3);
    ApplyActsConcat(a, p1, p2);
    ApplyFlagPart(a, v, Login);
    var a1 := ApplyActs(a, p1);
    var a2 := ApplyActs(a1, p2);
    ApplyOne(a1, Password(Value(v, "password")));
    ApplyFlagPart(a2, v, Superuser);
    var a3 := ApplyActs(a2, p3);
    ApplyFlagPart(a3, v, CreateDb);
    var a4 := ApplyActs(a3, p4);
    ApplyFlagPart(a4, v, CreateRole);
    var a5 := ApplyActs(a4, p5);
    ApplyFlagPart(a5, v, Inherit);
    var a6 := ApplyActs(a5, p6);
    ApplyFlagPart(a6, v, Replication);
    var a7 := ApplyActs(a6, p7);
    if LimitOf(v).Some? {
      ApplyOne(a7, ConnLimit(LimitOf(v).value));
    } else {
      ApplyOne(a7, ConnLimit(0));
    }
    ApplyOne(ApplyActs(a7, p8), ValidUntil(Field(v, "validuntil")));
    SixFlagsAreAll(v, a.flags);
  }

  // ---- Roles and memberships ----------------------------------------------------------------------

  /** The roles, and who is a member of whom: pairs (group, member). */
  datatype Roles = Roles(attrs: map<string, RoleAttrs>, members: set<(string, string)>)

  function Renamed(x: string, role: string, newName: string): string {
    if x == role then newName else x
  }

  function RenameIn(r: Roles, role: string, newName: string): Roles
    requires role in r.attrs
  {
    Roles((r.attrs - {role})[newName := r.attrs[role]],
          set p | p in r.members :: (Renamed(p.0, role, newName), Renamed(p.1, role, newName)))
  }

  function StepRole(r: Roles, st: RoleStmt): Option<Roles> {
    match st
    case Attributes(role, acts) =>
      if role in r.attrs then Some(r.(attrs := r.attrs[role := ApplyActs(r.attrs[role], acts)])) else None
    case Grant(group, member) =>
      if group in r.attrs && member in r.attrs && group != member then Some(r.(members := r.members + {(group, member)})) else None
    case Revoke(group, member) =>
      if group in r.attrs && member in r.attrs then Some(r.(members := r.members - {(group, member)})) else None
    case Rename(role, newName) =>
      if role in r.attrs && newName !in r.attrs && !IsReservedRole(newName) then Some(RenameIn(r, role, newName)) else None
  }

  function RunRoles(r: Roles, sts: seq<RoleStmt>): Option<Roles>
    decreases |sts|
  {
    if |sts| == 0 then Some(r)
    else
      match StepRole(r, sts[0])
      case None => None
      case Some(next) => RunRoles(next, sts[1..])
  }

  lemma {:induction false} RunRolesConcat(r: Roles, a: seq<RoleStmt>, b: seq<RoleStmt>)
    ensures RunRoles(r, a + b) == match RunRoles(r, a) case None => None case Some(mid) => RunRoles(mid, b)
    decreases |a|
  {
    hide StepRole;
    if |a| == 0 {
      assert a + b == b;
    } else {
      assert (a + b)[1..] == a[1..] + b;
      if StepRole(r, a[0]).Some? {
        RunRolesConcat(StepRole(r, a[0]).value, a[1..], b);
      }
    }
  }

  lemma RunOneRole(r: Roles, st: RoleStmt)
    ensures RunRoles(r, [st]) == StepRole(r, st) && RunRoles(r, []) == Some(r)
  {
    assert [st][1..] == [];
  }

  predicate IsGrantAmong(r: Roles, st: RoleStmt) {
    st.Grant? && st.group in r.attrs && st.member in r.attrs && st.group != st.member
  }

  predicate IsRevokeAmong(r: Roles, st: RoleStmt) {
    st.Revoke? && st.group in r.attrs && st.member in r.attrs
  }

  predicate Names(st: RoleStmt, p: (string, string)) {
    (st.Grant? || st.Revoke?) && (st.group, st.member) == p
  }

  predicate AnyNames(sts: seq<RoleStmt>, p: (string, string)) {
    exists i :: 0 <= i < |sts| && Names(sts[i], p)
  }

  lemma {:induction false} RunGrants(r: Roles, sts: seq<RoleStmt>)
    requires forall i | 0 <= i < |sts| :: IsGrantAmong(r, sts[i])
    ensures RunRoles(r, sts).Some? && RunRoles(r, sts).value.attrs == r.attrs
    ensures forall p :: p in RunRoles(r, sts).value.members <==> p in r.members || AnyNames(sts, p)
    decreases |sts|
  {
    if |sts| > 0 {
      var next := StepRole(r, sts[0]).value;
      RunGrants(next, sts[1..]);
      forall p ensures AnyNames(sts, p) <==> Names(sts[0], p) || AnyNames(sts[1..], p) {
        AnyNamesSplit(sts, p);
      }
    }
  }

  lemma {:induction false} RunRevokes(r: Roles, sts: seq<RoleStmt>)
    requires forall i | 0 <= i < |sts| :: IsRevokeAmong(r, sts[i])
    ensures RunRoles(r, sts).Some? && RunRoles(r, sts).value.attrs == r.attrs
    ensures forall p :: p in RunRoles(r, sts).value.members <==> p in r.members && !AnyNames(sts, p)
    decreases |sts|
  {
    if |sts| > 0 {
      var next := StepRole(r, sts[0]).value;
      RunRevokes(next, sts[1..]);
      forall p ensures AnyNames(sts, p) <==> Names(sts[0], p) || AnyNames(sts[1..], p) {
        AnyNamesSplit(sts, p);
      }
    }
  }

  lemma AnyNamesSplit(sts: seq<RoleStmt>, p: (string, string))
    requires |sts| > 0
    ensures AnyNames(sts, p) <==> Names(sts[0], p) || AnyNames(sts[1..], p)
  {
    hide Names;
    if AnyNames(sts, p) {
      var i :| 0 <= i < |sts| && Names(sts[i], p);
      assert i > 0 ==> sts[1..][i - 1] == sts[i];
    }
    if AnyNames(sts[1..], p) {
      var i :| 0 <= i < |sts[1..]| && Names(sts[1..][i], p);
      assert sts[i + 1] == sts[1..][i];
    }
  }

  /** The names on a list are roles, and the role itself is not among them. */
  predicate OtherRoles(r: Roles, name: string, xs: seq<string>) {
    forall x | x in xs :: x in r.attrs && x != name
  }

  /** Whether the pair comes out of a list of groups (or of members) that the form edits. */
  lemma GroupPlanNames(name: string, added: seq<string>, dropped: seq<string>, p: (string, string))
    ensures AnyNames(GrantsTo(added, name), p) <==> p.1 == name && p.0 in added
    ensures AnyNames(RevokesFrom(dropped, name), p) <==> p.1 == name && p.0 in dropped
  {
    if p.1 == name && p.0 in added {
      var i :| 0 <= i < |added| && added[i] == p.0;
      assert Names(GrantsTo(added, name)[i], p);
    }
    if p.1 == name && p.0 in dropped {
      var i :| 0 <= i < |dropped| && dropped[i] == p.0;
      assert Names(RevokesFrom(dropped, name)[i], p);
    }
  }

  lemma MemberPlanNames(name: string, added: seq<string>, dropped: seq<string>, p: (string, string))
    ensures AnyNames(GrantsOf(name, added), p) <==> p.0 == name && p.1 in added
    ensures AnyNames(RevokesOf(name, dropped), p) <==> p.0 == name && p.1 in dropped
  {
    if p.0 == name && p.1 in added {
      var i :| 0 <= i < |added| && added[i] == p.1;
      assert Names(GrantsOf(name, added)[i], p);
    }
    if p.0 == name && p.1 in dropped {
      var i :| 0 <= i < |dropped| && dropped[i] == p.1;
      assert Names(RevokesOf(name, dropped)[i], p);
    }
  }

  /** Grants and revokes of one diff: the pairs of the first kind come in, those of the second go. */
  lemma RunDiff(r: Roles, grants: seq<RoleStmt>, revokes: seq<RoleStmt>)
    requires forall i | 0 <= i < |grants| :: IsGrantAmong(r, grants[i])
    requires forall i | 0 <= i < |revokes| :: IsRevokeAmong(r, revokes[i])
    ensures RunRoles(r, grants + revokes).Some? && RunRoles(r, grants + revokes).value.attrs == r.attrs
    ensures forall p :: p in RunRoles(r, grants + revokes).value.members
                   <==> (p in r.members || AnyNames(grants, p)) && !AnyNames(revokes, p)
  {
    hide RunRoles, AnyNames;
    RunRolesConcat(r, grants, revokes);
    RunGrants(r, grants);
    RunRevokes(RunRoles(r, grants).value, revokes);
  }

  /** The memberships of the role once its "member of" list is as submitted. */
  predicate InGroups(before: set<(string, string)>, name: string, v: Form, p: (string, string)) {
    if p.1 == name && "memberof_orig" in v then p.0 in SplitList(Value(v, "memberof")) else p in before
  }

  predicate InMembers(before: set<(string, string)>, name: string, v: Form, p: (string, string)) {
    if p.0 == name && "members_orig" in v then p.1 in SplitList(Value(v, "members")) else p in before
  }

  /** The lists the form was loaded with are the memberships in the catalog, and all
  names on the lists are other roles. */
  ghost predicate GroupsAsLoaded(r: Roles, name: string, v: Form) {
    "memberof_orig" in v ==>
      && OtherRoles(r, name, SplitList(Value(v, "memberof")) + SplitList(v["memberof_orig"]))
      && forall g :: (g, name) in r.members <==> g in SplitList(v["memberof_orig"])
  }

  ghost predicate MembersAsLoaded(r: Roles, name: string, v: Form) {
    "members_orig" in v ==>
      && OtherRoles(r, name, SplitList(Value(v, "members")) + SplitList(v["members_orig"]))
      && forall m :: (name, m) in r.members <==> m in SplitList(v["members_orig"])
  }

  lemma GroupPlanReaches(r: Roles, name: string, v: Form)
    requires name in r.attrs && GroupsAsLoaded(r, name, v)
    ensures var out := RunRoles(r, GroupPlan(name, v));
            out.Some? && out.value.attrs == r.attrs && forall p :: p in out.value.members <==> InGroups(r.members, name, v, p)
  {
    hide RunRoles, SplitList, Without, AnyNames;
    if "memberof_orig" in v {
      var cur, orig := SplitList(Value(v, "memberof")), SplitList(v["memberof_orig"]);
      var added, dropped := Without(cur, orig), Without(orig, cur);
      assert forall x | x in added || x in dropped :: x in cur + orig;
      RunDiff(r, GrantsTo(added, name), RevokesFrom(dropped, name));
      forall p ensures p in RunRoles(r, GroupPlan(name, v)).value.members <==> InGroups(r.members, name, v, p) {
        GroupPlanNames(name, added, dropped, p);
        assert p == (p.0, p.1);
      }
    } else {
      RunOneRole(r, Rename(name, name));
    }
  }

  lemma MemberPlanReaches(r: Roles, name: string, v: Form)
    requires name in r.attrs && MembersAsLoaded(r, name, v)
    ensures var out := RunRoles(r, MemberPlan(name, v));
            out.Some? && out.value.attrs == r.attrs && forall p :: p in out.value.members <==> InMembers(r.members, name, v, p)
  {
    hide RunRoles, SplitList, Without, AnyNames;
    if "members_orig" in v {
      var cur, orig := SplitList(Value(v, "members")), SplitList(v["members_orig"]);
      var added, dropped := Without(cur, orig), Without(orig, cur);
      assert forall x | x in added || x in dropped :: x in cur + orig;
      RunDiff(r, GrantsOf(name, added), RevokesOf(name, dropped));
      forall p ensures p in RunRoles(r, MemberPlan(name, v)).value.members <==> InMembers(r.members, name, v, p) {
        MemberPlanNames(name, added, dropped, p);
        assert p == (p.0, p.1);
      }
    } else {
      RunOneRole(r, Rename(name, name));
    }
  }

  // ---- The whole script -----------------------------------------------------------------------------

  /** The memberships the form asks for: the role's groups and members are the submitted
  lists, where the form had a baseline for them; all others stay. */
  predicate WantsMembership(before: set<(string, string)>, name: string, v: Form, p: (string, string)) {
    if p.1 == name && "memberof_orig" in v then p.0 in SplitList(Value(v, "memberof"))
    else if p.0 == name && "members_orig" in v then p.1 in SplitList(Value(v, "members"))
    else p in before
  }

  /** `out` is the catalog with everything requested of the role, the new name apart. */
  ghost predicate AsRequested(r: Roles, name: string, v: Form, out: Roles)
    requires name in r.attrs
  {
    && out.attrs == r.attrs[name := RequestedAttrs(r.attrs[name], v)]
    && forall p :: p in out.members <==> WantsMembership(r.members, name, v, p)
  }

  lemma AttributePartReaches(r: Roles, name: string, v: Form)
    requires name in r.attrs
    ensures RunRoles(r, AttributePart(name, v)) == Some(r.(attrs := r.attrs[name := RequestedAttrs(r.attrs[name], v)]))
  {
    hide RunRoles, ActsOf, RequestedAttrs;
    ActsReachRequested(r.attrs[name], v);
    RunOneRole(r, Attributes(name, ActsOf(v)));
    assert ActsOf(v) == [] ==> ApplyActs(r.attrs[name], ActsOf(v)) == r.attrs[name];
    assert r.attrs[name := r.attrs[name]] == r.attrs;
  }

  /** Everything before the rename succeeds and gives what was asked for. */
  lemma RequestReached(r: Roles, v: Form)
    requires Field(v, "name") in r.attrs && GroupsAsLoaded(r, Field(v, "name"), v) && MembersAsLoaded(r, Field(v, "name"), v)
    ensures var name := Field(v, "name");
            var out := RunRoles(r, AttributePart(name, v) + (GroupPlan(name, v) + MemberPlan(name, v)));
            out.Some? && AsRequested(r, name, v, out.value)
  {
    var name := Field(v, "name");
    hide RunRoles, AttributePart, GroupPlan, MemberPlan, SplitList, RequestedAttrs, Field;
    AttributePartReaches(r, name, v);
    var r1 := r.(attrs := r.attrs[name := RequestedAttrs(r.attrs[name], v)]);
    RunRolesConcat(r, AttributePart(name, v), GroupPlan(name, v) + MemberPlan(name, v));
    RunRolesConcat(r1, GroupPlan(name, v), MemberPlan(name, v));
    GroupPlanReaches(r1, name, v);
    var r2 := RunRoles(r1, GroupPlan(name, v)).value;
    MembersStillLoaded(r1, name, v, r2);
    MemberPlanReaches(r2, name, v);
    MembershipsCompose(r.members, name, v, r2.members, r1);
  }

  /** Editing the role's groups leaves its members as they were loaded. */
  lemma MembersStillLoaded(r1: Roles, name: string, v: Form, r2: Roles)
    requires MembersAsLoaded(r1, name, v) && GroupsAsLoaded(r1, name, v)
    requires r2.attrs == r1.attrs && forall p :: p in r2.members <==> InGroups(r1.members, name, v, p)
    ensures MembersAsLoaded(r2, name, v)
  {
    hide SplitList;
    if "members_orig" in v {
      var orig := SplitList(v["members_orig"]);
      assert forall m | m in orig :: m in SplitList(Value(v, "members")) + orig;
      if "memberof_orig" in v {
        var cur := SplitList(Value(v, "memberof"));
        assert forall g | g in cur :: g in cur + SplitList(v["memberof_orig"]);
      }
      forall m ensures (name, m) in r2.members <==> m in orig {
        assert (name, m) in r2.members <==> InGroups(r1.members, name, v, (name, m));
      }
    }
  }

  lemma MembershipsCompose(before: set<(string, string)>, name: string, v: Form, mid: set<(string, string)>, r: Roles)
    requires r.members == before && GroupsAsLoaded(r, name, v) && MembersAsLoaded(r, name, v)
    requires forall p :: p in mid <==> InGroups(before, name, v, p)
    ensures forall p :: InMembers(mid, name, v, p) <==> WantsMembership(before, name, v, p)
  {
    hide SplitList;
    forall p: (string, string) ensures InMembers(mid, name, v, p) <==> WantsMembership(before, name, v, p) {
      if p.0 == name && p.1 == name {
        if "members_orig" in v {
          assert forall m | m in SplitList(Value(v, "members")) :: m in SplitList(Value(v, "members")) + SplitList(v["members_orig"]);
        }
        if "memberof_orig" in v {
          assert forall g | g in SplitList(Value(v, "memberof")) :: g in SplitList(Value(v, "memberof")) + SplitList(v["memberof_orig"]);
        }
      }
    }
  }

  /** The whole script on any catalog that is as the form was loaded: it goes through
  unless the new name is taken or reserved, with the requested attributes and memberships under the
  requested name, everybody else untouched. */
  lemma RolePlanReachesRequested(r: Roles, v: Form)
    requires Field(v, "name") in r.attrs && GroupsAsLoaded(r, Field(v, "name"), v) && MembersAsLoaded(r, Field(v, "name"), v)
    ensures var name, nn := Field(v, "name"), Field(v, "newname");
            exists mid :: AsRequested(r, name, v, mid)
              && RunRoles(r, RolePlan(v))
                 == if nn == "" then Some(mid) else if nn in r.attrs || IsReservedRole(nn) then None else Some(RenameIn(mid, name, nn))
  {
    var name, nn := Field(v, "name"), Field(v, "newname");
    hide RunRoles, AttributePart, GroupPlan, MemberPlan, RenameIn, Field;
    RequestReached(r, v);
    var changes := AttributePart(name, v) + (GroupPlan(name, v) + MemberPlan(name, v));
    var mid := RunRoles(r, changes).value;
    RunRolesConcat(r, changes, RenameRolePart(name, v));
    RunOneRole(mid, Rename(name, nn));
    assert AsRequested(r, name, v, mid);
  }

  // ---- Which forms are accepted -----------------------------------------------------------------------

  predicate IsAnswered(v: Form, field: string) {
    field in v && (v[field] == "on" || v[field] == "off")
  }

  predicate IsFilled(v: Form, field: string) {
    field in v && Trim(v[field]) != ""
  }

  /** The submitted list differs from the one the form was loaded with. */
  ghost predicate IsEdited(v: Form, field: string, loaded: string) {
    loaded in v && exists x :: (x in SplitList(if field in v then v[field] else "")) != (x in SplitList(v[loaded]))
  }

  predicate AsksForAttributes(v: Form) {
    || IsAnswered(v, "login") || IsAnswered(v, "superuser") || IsAnswered(v, "createdb") || IsAnswered(v, "createrole")
    || IsAnswered(v, "inherit") || IsAnswered(v, "replication")
    || ("password" in v && v["password"] != "") || IsFilled(v, "validuntil")
    || IsFilled(v, "connlimit")
  }

  lemma FilledField(v: Form, field: string)
    ensures IsFilled(v, field) <==> Field(v, field) != ""
  {
    BlankIsNoNumber();
    hide Trim;
  }

  lemma FlagAsked(v: Form, f: Flag)
    ensures FlagPart(v, f) != [] <==>
              match f
              case Login => IsAnswered(v, "login")
              case Superuser => IsAnswered(v, "superuser")
              case CreateDb => IsAnswered(v, "createdb")
              case CreateRole => IsAnswered(v, "createrole")
              case Inherit => IsAnswered(v, "inherit")
              case Replication => IsAnswered(v, "replication")
  {
  }

  lemma AttributesAsked(v: Form)
    requires LimitIsValid(v)
    ensures ActsOf(v) != [] <==> AsksForAttributes(v)
  {
    FlagAsked(v, Login);
    FlagAsked(v, Superuser);
    FlagAsked(v, CreateDb);
    FlagAsked(v, CreateRole);
    FlagAsked(v, Inherit);
    FlagAsked(v, Replication);
    FilledField(v, "validuntil");
    FilledField(v, "connlimit");
    hide FlagPart, Field, Atoi, IsFilled, IsAnswered;
  }

  lemma EditedMeansChange(v: Form, field: string, loaded: string)
    requires loaded in v
    ensures var cur, orig := SplitList(Value(v, field)), SplitList(v[loaded]);
            IsEdited(v, field, loaded) <==> Without(cur, orig) != [] || Without(orig, cur) != []
  {
    hide SplitList, Without;
    var cur, orig := SplitList(Value(v, field)), SplitList(v[loaded]);
    if Without(cur, orig) != [] {
      assert Without(cur, orig)[0] in Without(cur, orig);
    }
    if Without(orig, cur) != [] {
      assert Without(orig, cur)[0] in Without(orig, cur);
    }
    assert forall x :: (x in cur) != (x in orig) ==> x in Without(cur, orig) || x in Without(orig, cur);
  }

  lemma MembershipsAsked(name: string, v: Form)
    ensures GroupPlan(name, v) != [] <==> IsEdited(v, "memberof", "memberof_orig")
    ensures MemberPlan(name, v) != [] <==> IsEdited(v, "members", "members_orig")
  {
    if "memberof_orig" in v {
      EditedMeansChange(v, "memberof", "memberof_orig");
    }
    if "members_orig" in v {
      EditedMeansChange(v, "members", "members_orig");
    }
    hide SplitList, Without, IsEdited;
    assert !IsEdited(v, "memberof", "memberof_orig") || "memberof_orig" in v by { NeverLoaded(v, "memberof", "memberof_orig"); }
    assert !IsEdited(v, "members", "members_orig") || "members_orig" in v by { NeverLoaded(v, "members", "members_orig"); }
  }

  lemma NeverLoaded(v: Form, field: string, loaded: string)
    ensures IsEdited(v, field, loaded) ==> loaded in v
  {
  }

  /** A form is accepted exactly if it names the role, its connection limit is blank or a number from
  -1 up, and it asks for an attribute, a change of a list or a new name. */
  lemma RoleFormIsAccepted(v: Form)
    ensures RoleScript(v).Ok? <==>
              && IsFilled(v, "name")
              && (IsFilled(v, "connlimit") ==> Atoi(Trim(v["connlimit"])).Some? && Atoi(Trim(v["connlimit"])).value >= -1)
              && (AsksForAttributes(v) || IsEdited(v, "memberof", "memberof_orig") || IsEdited(v, "members", "members_orig") || IsFilled(v, "newname"))
  {
    FilledField(v, "name");
    FilledField(v, "connlimit");
    FilledField(v, "newname");
    assert IsFilled(v, "connlimit") ==> Field(v, "connlimit") == Trim(v["connlimit"]);
    MembershipsAsked(Field(v, "name"), v);
    if LimitIsValid(v) {
      AttributesAsked(v);
    }
    hide ActsOf, GroupPlan, MemberPlan, Field, Atoi, IsFilled, IsEdited, AsksForAttributes, RenderRoles, JoinStatements;
  }

  // ---- The script as text -----------------------------------------------------------------------------

  predicate Mentions(st: RoleStmt, role: string) {
    match st
    case Attributes(r, _) => r == role
    case Grant(g, m) => g == role || m == role
    case Revoke(g, m) => g == role || m == role
    case Rename(r, _) => r == role
  }

  /** Every statement is about the role under its old name, and the one that ends that
  name is the last. */
  lemma StatementsNameTheRole(v: Form)
    ensures forall st | st in RolePlan(v) :: Mentions(st, Field(v, "name"))
    ensures forall i | 0 <= i < |RolePlan(v)| - 1 :: !RolePlan(v)[i].Rename?
  {
    var name := Field(v, "name");
    hide Field, SplitList, Without, ActsOf;
    var a, b, c := AttributePart(name, v), GroupPlan(name, v) + MemberPlan(name, v), RenameRolePart(name, v);
    assert forall st | st in a + b :: Mentions(st, name) && !st.Rename?;
    assert RolePlan(v) == a + b + c && |c| <= 1;
    assert forall i | 0 <= i < |a + b| :: RolePlan(v)[i] == (a + b)[i] && (a + b)[i] in a + b;
  }

  lemma ItoaIsBalanced(n: int)
    ensures Balanced(Itoa(n)) && Itoa(n) != "" && !IsSpace(Itoa(n)[|Itoa(n)| - 1])
  {
    if n < 0 {
      BalancedNegative(Digits(-n));
    } else {
      BalancedPlain(Digits(n));
    }
  }

  /** Text that is balanced and ends in no blank. */
  ghost predicate Ends(s: string) {
    Balanced(s) && s != "" && !IsSpace(s[|s| - 1])
  }

  lemma EndsConcat(a: string, b: string)
    requires Balanced(a) && Ends(b)
    ensures Ends(a + b)
  {
    hide Balanced;
    BalancedConcat(a, b);
  }

  lemma FlagTextEnds(f: Flag, on: bool)
    ensures Ends(ActText(SetFlag(f, on)))
  {
    hide Balanced;
    BalancedPlain("NO");
    assert Ends(WordOf(f)) by { WordEnds(f); }
    hide WordOf;
    EndsConcat("NO", WordOf(f));
  }

  lemma WordEnds(f: Flag)
    ensures Ends(WordOf(f))
  {
    hide Balanced;
    BalancedPlain(WordOf(f));
  }

  lemma ActTextEnds(a: Act)
    ensures Ends(ActText(a))
  {
    hide Balanced, WordOf, Itoa, QuoteLiteral;
    match a {
      case SetFlag(f, on) => FlagTextEnds(f, on);
      case Password(p) =>
        BalancedPlain("PASSWORD ");
        LiteralEnds(p);
        EndsConcat("PASSWORD ", QuoteLiteral(p));
      case ConnLimit(n) =>
        BalancedPlain("CONNECTION LIMIT ");
        ItoaIsBalanced(n);
        EndsConcat("CONNECTION LIMIT ", Itoa(n));
      case ValidUntil(t) =>
        BalancedPlain("VALID UNTIL ");
        LiteralEnds(t);
        EndsConcat("VALID UNTIL ", QuoteLiteral(t));
    }
  }

  lemma {:induction false} JoinEnds(parts: seq<string>)
    requires |parts| > 0 && forall i | 0 <= i < |parts| :: Ends(parts[i])
    ensures Ends(Join(parts, " "))
  {
    hide Ends;
    if |parts| > 1 {
      JoinEnds(parts[1..]);
      BalancedPlain(" ");
      assert Ends(parts[0]);
      assert Balanced(parts[0]) by { EndsIsBalanced(parts[0]); }
      BalancedConcat(parts[0], " ");
      EndsConcat(parts[0] + " ", Join(parts[1..], " "));
    }
  }

  lemma EndsIsBalanced(s: string)
    requires Ends(s)
    ensures Balanced(s)
  {
  }

  lemma QuotedEnds(x: string)
    ensures Ends(QuoteIdent(x)) && Balanced(QuoteIdent(x))
  {
    BalancedQuoteIdent(x);
  }

  lemma LiteralEnds(x: string)
    ensures Ends(QuoteLiteral(x))
  {
    BalancedQuoteLiteral(x);
  }

  /** verb, name, preposition, rest */
  lemma FourPartsClosed(verb: string, name: string, prep: string, tail: string)
    requires IsPlain(verb) && verb != "" && !IsSpace(verb[0]) && IsPlain(prep) && Ends(tail)
    ensures Closed(verb + QuoteIdent(name) + prep + tail)
  {
    hide Balanced, QuoteIdent;
    BalancedPlain(verb);
    BalancedPlain(prep);
    BalancedQuoteIdent(name);
    BalancedConcat(verb, QuoteIdent(name));
    BalancedConcat(verb + QuoteIdent(name), prep);
    EndsConcat(verb + QuoteIdent(name) + prep, tail);
  }

  /** Every statement of the script is closed, whatever the names, the password and the
  date: a negative connection limit starts no comment. */
  lemma RenderRoleIsClosed(st: RoleStmt)
    requires st.Attributes? ==> st.acts != []
    ensures Closed(RenderRole(st))
  {
    hide Closed, Ends, QuoteIdent, Join, ActText;
    match st {
      case Attributes(role, acts) =>
        forall i | 0 <= i < |acts| ensures Ends(ActTexts(acts)[i]) {
          ActTextEnds(acts[i]);
        }
        JoinEnds(ActTexts(acts));
        FourPartsClosed("ALTER ROLE ", role, " WITH ", Join(ActTexts(acts), " "));
      case Grant(group, member) =>
        QuotedEnds(member);
        FourPartsClosed("GRANT ", group, " TO ", QuoteIdent(member));
      case Revoke(group, member) =>
        QuotedEnds(member);
        FourPartsClosed("REVOKE ", group, " FROM ", QuoteIdent(member));
      case Rename(role, newName) =>
        QuotedEnds(newName);
        FourPartsClosed("ALTER ROLE ", role, " RENAME TO ", QuoteIdent(newName));
    }
  }

  lemma NoEmptyAttributes(v: Form)
    ensures forall i | 0 <= i < |RolePlan(v)| :: RolePlan(v)[i].Attributes? ==> RolePlan(v)[i].acts != []
  {
    hide Field, SplitList, Without, ActsOf;
  }

  /** An accepted form's script splits back into its statements, exactly when they are ASCII. */
  lemma RoleScriptSplitsBack(v: Form)
    requires RoleScript(v).Ok?
    ensures var stmts := RenderRoles(RolePlan(v));
            Split(RoleScript(v).value) == stmts <==> forall i | 0 <= i < |stmts| :: IsAscii(stmts[i])
  {
    NoEmptyAttributes(v);
    hide RolePlan, RenderRole, Closed, Split, JoinStatements, LimitIsValid, Field;
    forall i | 0 <= i < |RolePlan(v)| ensures Closed(RenderRoles(RolePlan(v))[i]) {
      RenderRoleIsClosed(RolePlan(v)[i]);
    }
    SplitJoinRoundTrip(RenderRoles(RolePlan(v)));
  }
}
