/** What the statements of the privilege editor do to an access control list. */
module PrivilegeLaws {
  import opened Wrappers
  import opened Privileges

  // ---- Access control lists ------------------------------------------------------------

  /** What each grantee holds on the one object the form is about. */
  type Acl = map<string, Grants>

  function Held(acl: Acl, g: string): Grants {
    if g in acl then acl[g] else map[]
  }

  /** None: not held.  Some(b): held, with the grant option if b. */
  function StateOf(g: Grants, p: string): Option<bool> {
    if p in g then Some(g[p]) else None
  }

  /** The meaning of a verb for one privilege.  A plain GRANT never takes an option away. */
  function Effect(verb: Verb, s: Option<bool>): Option<bool> {
    match verb
    case Revoke => None
    case RevokeOption => if s.Some? then Some(false) else None
    case Grant => if s.Some? then s else Some(false)
    case GrantWithOption => Some(true)
  }

  function ApplyTo(g: Grants, c: Change): (r: Grants)
    ensures forall p :: StateOf(r, p) == if p in c.privs then Effect(c.verb, StateOf(g, p)) else StateOf(g, p)
  {
    match c.verb
    case Revoke => map p | p in g && p !in c.privs :: g[p]
    case RevokeOption => map p | p in g :: p !in c.privs && g[p]
    case Grant => g + map p | p in c.privs && p !in g :: false
    case GrantWithOption => g + map p | p in c.privs :: true
  }

  function RunOn(g: Grants, cs: seq<Change>): Grants
    decreases |cs|
  {
    if |cs| == 0 then g else RunOn(ApplyTo(g, cs[0]), cs[1..])
  }

  lemma {:induction false} RunOnConcat(g: Grants, a: seq<Change>, b: seq<Change>)
    ensures RunOn(g, a + b) == RunOn(RunOn(g, a), b)
    decreases |a|
  {
    if |a| == 0 {
      assert a + b == b;
    } else {
      assert (a + b)[1..] == a[1..] + b;
      RunOnConcat(ApplyTo(g, a[0]), a[1..], b);
    }
  }

  lemma RunOnGroup(g: Grants, verb: Verb, privs: seq<string>, p: string)
    ensures StateOf(RunOn(g, Group(verb, privs)), p) == if p in privs then Effect(verb, StateOf(g, p)) else StateOf(g, p)
  {
    if privs != [] {
      var c := Change(verb, privs);
      assert [c][1..] == [];
      assert RunOn(g, [c]) == ApplyTo(g, c);
    }
  }

  /** The effect of a whole diff on one privilege is the effect of its one verb. */
  lemma RunOnDiff(privs: seq<string>, orig: Grants, cur: Grants, g: Grants, p: string)
    ensures StateOf(RunOn(g, Diff(privs, orig, cur)), p)
         == match VerbFor(orig, cur, p)
            case None => StateOf(g, p)
            case Some(verb) => if p in privs then Effect(verb, StateOf(g, p)) else StateOf(g, p)
  {
    var a, b := PrivsFor(privs, orig, cur, Revoke), PrivsFor(privs, orig, cur, RevokeOption);
    var c, d := PrivsFor(privs, orig, cur, Grant), PrivsFor(privs, orig, cur, GrantWithOption);
    var ga, gb, gc, gd := Group(Revoke, a), Group(RevokeOption, b), Group(Grant, c), Group(GrantWithOption, d);
    hide RunOn, Group, PrivsFor;
    RunOnConcat(g, ga + gb + gc, gd);
    RunOnConcat(g, ga + gb, gc);
    RunOnConcat(g, ga, gb);
    var g1 := RunOn(g, ga);
    var g2 := RunOn(g1, gb);
    var g3 := RunOn(g2, gc);
    RunOnGroup(g, Revoke, a, p);
    RunOnGroup(g1, RevokeOption, b, p);
    RunOnGroup(g2, Grant, c, p);
    RunOnGroup(g3, GrantWithOption, d, p);
  }

  ghost predicate AgreeOn(privs: seq<string>, a: Grants, b: Grants) {
    forall p | p in privs :: StateOf(a, p) == StateOf(b, p)
  }

  /** A privilege whose state is the original one ends in the submitted one. */
  lemma VerbReachesSubmitted(orig: Grants, cur: Grants, p: string)
    ensures VerbFor(orig, cur, p) == None <==> StateOf(orig, p) == StateOf(cur, p)
    ensures VerbFor(orig, cur, p).Some? ==> Effect(VerbFor(orig, cur, p).value, StateOf(orig, p)) == StateOf(cur, p)
  {
  }

  /** Running a diff on grants that are as they were loaded gives the submitted
  grants on the kind's privileges and touches no other privilege. */
  lemma DiffReachesSubmitted(privs: seq<string>, orig: Grants, cur: Grants, g: Grants)
    requires AgreeOn(privs, g, orig)
    ensures AgreeOn(privs, RunOn(g, Diff(privs, orig, cur)), cur)
    ensures forall p | p !in privs :: StateOf(RunOn(g, Diff(privs, orig, cur)), p) == StateOf(g, p)
  {
    hide RunOn, Diff, StateOf, VerbFor, Effect;
    forall p ensures p in privs ==> StateOf(RunOn(g, Diff(privs, orig, cur)), p) == StateOf(cur, p)
             ensures p !in privs ==> StateOf(RunOn(g, Diff(privs, orig, cur)), p) == StateOf(g, p)
    {
      RunOnDiff(privs, orig, cur, g, p);
      VerbReachesSubmitted(orig, cur, p);
    }
  }

  lemma NoneForVerb(privs: seq<string>, orig: Grants, cur: Grants, verb: Verb)
    ensures PrivsFor(privs, orig, cur, verb) == [] <==> forall p | p in privs :: VerbFor(orig, cur, p) != Some(verb)
  {
    hide VerbFor, PrivsFor;
    var ps := PrivsFor(privs, orig, cur, verb);
    if ps != [] {
      assert ps[0] in ps;
    }
    assert (forall p | p in privs :: VerbFor(orig, cur, p) != Some(verb)) ==> forall p :: p !in ps;
  }

  /** Nothing is emitted exactly when the two agree. */
  lemma DiffIsEmptyIffAgree(privs: seq<string>, orig: Grants, cur: Grants)
    ensures Diff(privs, orig, cur) == [] <==> AgreeOn(privs, orig, cur)
  {
    hide PrivsFor, StateOf, VerbFor;
    NoneForVerb(privs, orig, cur, Revoke);
    NoneForVerb(privs, orig, cur, RevokeOption);
    NoneForVerb(privs, orig, cur, Grant);
    NoneForVerb(privs, orig, cur, GrantWithOption);
    forall p ensures VerbFor(orig, cur, p) == None <==> StateOf(orig, p) == StateOf(cur, p) {
      VerbReachesSubmitted(orig, cur, p);
    }
    var a, b := ChangeFor(privs, orig, cur, Revoke), ChangeFor(privs, orig, cur, RevokeOption);
    var c, d := ChangeFor(privs, orig, cur, Grant), ChangeFor(privs, orig, cur, GrantWithOption);
    assert |Diff(privs, orig, cur)| == |a| + |b| + |c| + |d|;
    assert Diff(privs, orig, cur) == [] <==> forall p | p in privs :: VerbFor(orig, cur, p) == None by {
      forall p ensures VerbFor(orig, cur, p) in [None, Some(Revoke), Some(RevokeOption), Some(Grant), Some(GrantWithOption)] {
        match VerbFor(orig, cur, p) {
          case None =>
          case Some(verb) => assert verb.Revoke? || verb.RevokeOption? || verb.Grant? || verb.GrantWithOption?;
        }
      }
    }
  }

  function Rank(v: Verb): nat {
    match v
    case Revoke => 0
    case RevokeOption => 1
    case Grant => 2
    case GrantWithOption => 3
  }

  /** Ranks below `limit`, rising; every statement about privileges that need its verb. */
  ghost predicate Shaped(cs: seq<Change>, limit: nat, privs: seq<string>, orig: Grants, cur: Grants) {
    && (forall i, j | 0 <= i < j < |cs| :: Rank(cs[i].verb) < Rank(cs[j].verb))
    && (forall i | 0 <= i < |cs| :: Rank(cs[i].verb) < limit && cs[i].privs != [])
    && (forall i, p | 0 <= i < |cs| && p in cs[i].privs :: p in privs && VerbFor(orig, cur, p) == Some(cs[i].verb))
  }

  lemma ShapedStep(cs: seq<Change>, verb: Verb, privs: seq<string>, orig: Grants, cur: Grants)
    requires Shaped(cs, Rank(verb), privs, orig, cur)
    ensures Shaped(cs + ChangeFor(privs, orig, cur, verb), Rank(verb) + 1, privs, orig, cur)
  {
    hide PrivsFor, VerbFor;
  }

  /** Revokes come first, no statement is empty, every statement is about privileges of
  the kind, and a privilege is in at most one of them. */
  lemma DiffShape(privs: seq<string>, orig: Grants, cur: Grants)
    ensures var d := Diff(privs, orig, cur);
            && (forall i, j | 0 <= i < j < |d| :: Rank(d[i].verb) < Rank(d[j].verb))
            && (forall i | 0 <= i < |d| :: d[i].privs != [] && forall p | p in d[i].privs :: p in privs)
            && (forall i, j, p | 0 <= i < |d| && 0 <= j < |d| && p in d[i].privs && p in d[j].privs :: i == j)
  {
    hide Diff, VerbFor;
    DiffIsShaped(privs, orig, cur);
    ShapedIsApart(Diff(privs, orig, cur), 4, privs, orig, cur);
  }

  lemma NothingIsShaped(privs: seq<string>, orig: Grants, cur: Grants)
    ensures Shaped([], 0, privs, orig, cur)
  {
  }

  lemma DiffIsShaped(privs: seq<string>, orig: Grants, cur: Grants)
    ensures Shaped(Diff(privs, orig, cur), 4, privs, orig, cur)
  {
    hide ChangeFor, Shaped;
    var a, b := ChangeFor(privs, orig, cur, Revoke), ChangeFor(privs, orig, cur, RevokeOption);
    var c := ChangeFor(privs, orig, cur, Grant);
    assert [] + a == a;
    NothingIsShaped(privs, orig, cur);
    ShapedStep([], Revoke, privs, orig, cur);
    ShapedStep(a, RevokeOption, privs, orig, cur);
    ShapedStep(a + b, Grant, privs, orig, cur);
    ShapedStep(a + b + c, GrantWithOption, privs, orig, cur);
  }

  lemma ShapedIsApart(d: seq<Change>, limit: nat, privs: seq<string>, orig: Grants, cur: Grants)
    requires Shaped(d, limit, privs, orig, cur)
    ensures forall i, j, p | 0 <= i < |d| && 0 <= j < |d| && p in d[i].privs && p in d[j].privs :: i == j
  {
    hide VerbFor;
    forall i, j, p | 0 <= i < |d| && 0 <= j < |d| && p in d[i].privs && p in d[j].privs ensures i == j {
      assert Some(d[i].verb) == VerbFor(orig, cur, p) == Some(d[j].verb);
    }
  }

  // ---- The whole form ------------------------------------------------------------------

  /** A statement with the grantee it names. */
  datatype Statement = Statement(grantee: string, change: Change)

  function For(g: string, cs: seq<Change>): (r: seq<Statement>)
    ensures |r| == |cs| && forall i :: 0 <= i < |r| ==> r[i] == Statement(g, cs[i])
  {
    if |cs| == 0 then [] else [Statement(g, cs[0])] + For(g, cs[1..])
  }

  function FormStatements(pk: PrivKind, rows: seq<FormRow>): seq<Statement> {
    if |rows| == 0 then []
    else
      var row := rows[|rows| - 1];
      FormStatements(pk, rows[..|rows| - 1]) + For(row.grantee, RowChanges(pk, row))
  }

  function Render(st: Statement, target: string): string {
    RenderChange(st.change, target, GranteeSql(st.grantee))
  }

  /** The text of the form's script is the text of these statements, in order. */
  lemma {:induction false} RowsToSqlRenders(pk: PrivKind, target: string, rows: seq<FormRow>)
    ensures var sts := FormStatements(pk, rows);
            && |RowsToSql(pk, target, rows)| == |sts|
            && forall i | 0 <= i < |sts| :: RowsToSql(pk, target, rows)[i] == Render(sts[i], target)
  {
    hide RenderChange, GranteeSql, RowChanges;
    if |rows| > 0 {
      RowsToSqlRenders(pk, target, rows[..|rows| - 1]);
    }
  }

  function Exec(acl: Acl, sts: seq<Statement>): Acl
    decreases |sts|
  {
    if |sts| == 0 then acl
    else Exec(acl[sts[0].grantee := ApplyTo(Held(acl, sts[0].grantee), sts[0].change)], sts[1..])
  }

  lemma {:induction false} ExecConcat(acl: Acl, a: seq<Statement>, b: seq<Statement>)
    ensures Exec(acl, a + b) == Exec(Exec(acl, a), b)
    decreases |a|
  {
    if |a| == 0 {
      assert a + b == b;
    } else {
      assert (a + b)[1..] == a[1..] + b;
      ExecConcat(acl[a[0].grantee := ApplyTo(Held(acl, a[0].grantee), a[0].change)], a[1..], b);
    }
  }

  lemma {:induction false} ExecFor(acl: Acl, g: string, cs: seq<Change>)
    ensures forall h :: Held(Exec(acl, For(g, cs)), h) == if h == g then RunOn(Held(acl, g), cs) else Held(acl, h)
    decreases |cs|
  {
    if |cs| > 0 {
      ExecFor(acl[g := ApplyTo(Held(acl, g), cs[0])], g, cs[1..]);
    }
  }

  predicate HasGrantee(rows: seq<FormRow>, g: string) {
    exists i :: 0 <= i < |rows| && rows[i].grantee == g
  }

  predicate DistinctGrantees(rows: seq<FormRow>) {
    forall i, j | 0 <= i < j < |rows| :: rows[i].grantee != rows[j].grantee || rows[i].grantee == ""
  }

  /** The object's ACL is still what each row was loaded with. */
  ghost predicate AsLoaded(pk: PrivKind, rows: seq<FormRow>, acl: Acl) {
    forall i | 0 <= i < |rows| && rows[i].grantee != "" ::
      AgreeOn(pk.privs, Held(acl, rows[i].grantee), ParsePrivState(rows[i].orig))
  }

  /** The ticked boxes, and no others of the kind, are held, with the option where its box is ticked too. */
  ghost predicate HoldsTicked(pk: PrivKind, g: Grants, row: FormRow) {
    forall p | p in pk.privs :: StateOf(g, p) == if p in row.privs then Some(p in row.opts) else None
  }

  lemma TickedIsHeld(pk: PrivKind, g: Grants, row: FormRow)
    ensures HoldsTicked(pk, g, row) <==> AgreeOn(pk.privs, g, Ticked(pk, row))
  {
    assert forall p | p in pk.privs :: StateOf(Ticked(pk, row), p) == if p in row.privs then Some(p in row.opts) else None;
    hide StateOf, Ticked;
  }

  /** Every named row's grantee now holds what is ticked; everything else is as before. */
  ghost predicate AsSubmitted(pk: PrivKind, rows: seq<FormRow>, before: Acl, after: Acl) {
    && (forall i | 0 <= i < |rows| && rows[i].grantee != "" ::
          HoldsTicked(pk, Held(after, rows[i].grantee), rows[i]))
    && (forall g, p {:trigger StateOf(Held(after, g), p)} | p !in pk.privs || g == "" || !HasGrantee(rows, g) ::
          StateOf(Held(after, g), p) == StateOf(Held(before, g), p))
  }

  /** Where the last row stands: its statements change its own grantee only. */
  ghost predicate LastRowRuns(pk: PrivKind, row: FormRow, mid: Acl, after: Acl) {
    forall h :: Held(after, h) == if h == row.grantee then RunOn(Held(mid, row.grantee), RowChanges(pk, row)) else Held(mid, h)
  }

  lemma RunLastRow(pk: PrivKind, rows: seq<FormRow>, acl: Acl)
    requires |rows| > 0
    ensures LastRowRuns(pk, rows[|rows| - 1], Exec(acl, FormStatements(pk, rows[..|rows| - 1])), Exec(acl, FormStatements(pk, rows)))
  {
    hide Exec, Held, RunOn, RowChanges;
    var n := |rows| - 1;
    var row := rows[n];
    ExecConcat(acl, FormStatements(pk, rows[..n]), For(row.grantee, RowChanges(pk, row)));
    ExecFor(Exec(acl, FormStatements(pk, rows[..n])), row.grantee, RowChanges(pk, row));
  }

  lemma NoRowsSubmitted(pk: PrivKind, rows: seq<FormRow>, acl: Acl)
    requires rows == []
    ensures AsSubmitted(pk, rows, acl, Exec(acl, FormStatements(pk, rows)))
  {
  }

  lemma {:induction false} RowsReachSubmitted(pk: PrivKind, rows: seq<FormRow>, acl: Acl)
    requires DistinctGrantees(rows) && AsLoaded(pk, rows, acl)
    ensures AsSubmitted(pk, rows, acl, Exec(acl, FormStatements(pk, rows)))
  {
    hide AsSubmitted, Exec, FormStatements, LastRowRuns, AgreeOn, Held, ParsePrivState;
    if |rows| == 0 {
      NoRowsSubmitted(pk, rows, acl);
    } else {
      var n := |rows| - 1;
      assert forall i | 0 <= i < n :: rows[..n][i] == rows[i];
      RowsReachSubmitted(pk, rows[..n], acl);
      RunLastRow(pk, rows, acl);
      LastRowReachesSubmitted(pk, rows, acl, Exec(acl, FormStatements(pk, rows[..n])), Exec(acl, FormStatements(pk, rows)));
    }
  }

  /** The last row's grantee was in no earlier row. */
  lemma LastRowReachesSubmitted(pk: PrivKind, rows: seq<FormRow>, acl: Acl, mid: Acl, after: Acl)
    requires |rows| > 0 && DistinctGrantees(rows) && AsLoaded(pk, rows, acl)
    requires AsSubmitted(pk, rows[..|rows| - 1], acl, mid)
    requires LastRowRuns(pk, rows[|rows| - 1], mid, after)
    ensures AsSubmitted(pk, rows, acl, after)
  {
    var row := rows[|rows| - 1];
    EarlierGrantees(rows);
    LastRowIsReady(pk, rows, acl, mid);
    hide StateOf, Held, HoldsTicked, RunOn, AgreeOn, ParsePrivState, RowChanges, AsLoaded, DistinctGrantees;
    if row.grantee != "" {
      LastRowItself(pk, row, Held(acl, row.grantee), Held(mid, row.grantee));
    } else {
      LastRowUnnamed(pk, row, Held(mid, row.grantee));
    }
    AllNamedRows(pk, rows, acl, mid, after);
    AllOtherGrants(pk, rows, acl, mid, after);
  }

  lemma LastRowIsReady(pk: PrivKind, rows: seq<FormRow>, acl: Acl, mid: Acl)
    requires |rows| > 0 && DistinctGrantees(rows) && AsLoaded(pk, rows, acl)
    requires AsSubmitted(pk, rows[..|rows| - 1], acl, mid)
    ensures var row := rows[|rows| - 1];
            row.grantee != "" ==>
              && AgreeOn(pk.privs, Held(acl, row.grantee), ParsePrivState(row.orig))
              && forall p :: StateOf(Held(mid, row.grantee), p) == StateOf(Held(acl, row.grantee), p)
  {
    hide StateOf, Held, HoldsTicked, AgreeOn, ParsePrivState, HasGrantee;
    EarlierGrantees(rows);
  }

  lemma AllNamedRows(pk: PrivKind, rows: seq<FormRow>, acl: Acl, mid: Acl, after: Acl)
    requires |rows| > 0
    requires rows[|rows| - 1].grantee != "" ==> !HasGrantee(rows[..|rows| - 1], rows[|rows| - 1].grantee)
    requires AsSubmitted(pk, rows[..|rows| - 1], acl, mid) && LastRowRuns(pk, rows[|rows| - 1], mid, after)
    requires var row := rows[|rows| - 1];
             row.grantee != "" ==> HoldsTicked(pk, Held(after, row.grantee), row)
    ensures forall i | 0 <= i < |rows| && rows[i].grantee != "" :: HoldsTicked(pk, Held(after, rows[i].grantee), rows[i])
  {
    hide StateOf, Held, HoldsTicked, RunOn, RowChanges;
    var n := |rows| - 1;
    forall i | 0 <= i < |rows| && rows[i].grantee != ""
      ensures HoldsTicked(pk, Held(after, rows[i].grantee), rows[i])
    {
      if i < n {
        assert rows[..n][i] == rows[i];
        assert HasGrantee(rows[..n], rows[i].grantee);
      }
    }
  }

  lemma AllOtherGrants(pk: PrivKind, rows: seq<FormRow>, acl: Acl, mid: Acl, after: Acl)
    requires |rows| > 0 && AsSubmitted(pk, rows[..|rows| - 1], acl, mid) && LastRowRuns(pk, rows[|rows| - 1], mid, after)
    requires forall h :: HasGrantee(rows, h) <==> HasGrantee(rows[..|rows| - 1], h) || h == rows[|rows| - 1].grantee
    requires var g := rows[|rows| - 1].grantee;
             forall p {:trigger StateOf(Held(after, g), p)} | p !in pk.privs || g == "" ::
               StateOf(Held(after, g), p) == StateOf(Held(acl, g), p)
    ensures forall h, p {:trigger StateOf(Held(after, h), p)} | p !in pk.privs || h == "" || !HasGrantee(rows, h) ::
      StateOf(Held(after, h), p) == StateOf(Held(acl, h), p)
  {
    hide StateOf, Held, HoldsTicked, RunOn, RowChanges, HasGrantee;
  }

  lemma EarlierGrantees(rows: seq<FormRow>)
    requires |rows| > 0 && DistinctGrantees(rows)
    ensures var n, g := |rows| - 1, rows[|rows| - 1].grantee;
            && (g != "" ==> !HasGrantee(rows[..n], g))
            && (forall h :: HasGrantee(rows, h) <==> HasGrantee(rows[..n], h) || h == g)
  {
    var n := |rows| - 1;
    assert forall i | 0 <= i < n :: rows[..n][i] == rows[i];
  }

  lemma LastRowItself(pk: PrivKind, row: FormRow, before: Grants, held: Grants)
    requires row.grantee != "" && AgreeOn(pk.privs, before, ParsePrivState(row.orig))
    requires forall p :: StateOf(held, p) == StateOf(before, p)
    ensures HoldsTicked(pk, RunOn(held, RowChanges(pk, row)), row)
    ensures forall p | p !in pk.privs :: StateOf(RunOn(held, RowChanges(pk, row)), p) == StateOf(before, p)
  {
    TickedIsHeld(pk, RunOn(held, RowChanges(pk, row)), row);
    hide RunOn, Diff, Ticked, ParsePrivState, StateOf, HoldsTicked;
    DiffReachesSubmitted(pk.privs, ParsePrivState(row.orig), Ticked(pk, row), held);
  }

  lemma LastRowUnnamed(pk: PrivKind, row: FormRow, held: Grants)
    requires row.grantee == ""
    ensures RunOn(held, RowChanges(pk, row)) == held
  {
  }
}
