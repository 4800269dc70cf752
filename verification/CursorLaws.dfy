/** The transactions declareCursor opens: each is on record with the tab's cursor,
so whatever else the tab runs ends it first. */
module CursorLaws {
  import opened Wrappers
  import opened Sessions
  import opened SessionMachine
  import opened SessionLaws

  // ---- The hypotheses ------------------------------------------------------------------

  predicate InFlight(run: Run) {
    run.req.tab != "" && !run.phase.Releasing?
  }

  ghost predicate OneRunPerTab(s: State) {
    forall r, q | r in s.runs && q in s.runs && InFlight(s.runs[r]) && InFlight(s.runs[q])
                  && s.runs[r].req.tab == s.runs[q].req.tab :: r == q
  }

  /** Nothing runs in a tab while endSessions is still at work on a session of it. */
  ghost predicate EndingIsAtomic(s: State) {
    forall r, b | r in s.runs && InFlight(s.runs[r]) && b in s.batches :: s.runs[r].req.tab !in s.batches[b]
  }

  // ---- The law -------------------------------------------------------------------------

  /** The tab's cursor is on this connection and will end its transaction. */
  predicate HasOwner(s: State, t: Tab, c: ConnId) {
    t in s.cursors && s.cursors[t].conn == c && s.cursors[t].ownsTx
  }

  predicate SessionHasOwner(s: State, t: Tab)
    requires t in s.sessions
  {
    !s.sessions[t].busy && s.sessions[t].conn in s.cursorTx ==> HasOwner(s, t, s.sessions[t].conn)
  }

  /** Every transaction declareCursor opened on a registered session has its cursor entry. */
  ghost predicate SessionsHaveOwners(s: State) {
    forall t :: t in s.sessions ==> SessionHasOwner(s, t)
  }

  /** How a run stands to the transaction of its connection when declareCursor opened it. */
  predicate TxHasOwner(s: State, run: Run) {
    run.conn.Some? && run.conn.value in s.cursorTx ==>
      var c, t := run.conn.value, run.req.tab;
      match run.phase
      case Waiting => true
      case Checking => t != "" && HasOwner(s, t, c)
      case ClosingCursor(cs) => cs.ownsTx
      case Paging => t != "" && HasOwner(s, t, c) && s.cursors[t].query == run.req.query
      case Declaring(_) => false
      case Opening(_) => false
      case Fetching(cs, _) => cs.ownsTx && cs.conn == c && cs.query == run.req.query
                           && (t != "" ==> t in s.cursors && s.cursors[t] == cs)
      case Executing => false
      case Finishing => t != "" ==> HasOwner(s, t, c)
      case Releasing(_) => true
  }

  /** While a run works on a cursor, its tab has that one on record or none. */
  predicate RecordMatches(s: State, run: Run) {
    run.req.tab != "" && run.req.tab in s.cursors ==>
      match run.phase
      case ClosingCursor(cs) => s.cursors[run.req.tab] == cs
      case Declaring(_) => false
      case Opening(_) => false
      case Fetching(cs, _) => s.cursors[run.req.tab] == cs
      case _ => true
  }

  predicate RunHasOwner(s: State, run: Run) {
    TxHasOwner(s, run) && RecordMatches(s, run)
  }

  ghost predicate RunsHaveOwners(s: State) {
    forall r :: r in s.runs ==> RunHasOwner(s, s.runs[r])
  }

  /** A tab with a run in flight has no session, or that run's own. */
  predicate OwnsItsTab(s: State, run: Run) {
    InFlight(run) && run.req.tab in s.sessions ==> run.sess == Some(s.sessions[run.req.tab].id)
  }

  ghost predicate TabsAreTheirs(s: State) {
    && (forall r :: r in s.runs ==> OwnsItsTab(s, s.runs[r]))
    && (forall c :: c in s.cursorTx ==> c in s.tx)
  }

  ghost predicate CursorInv(s: State) {
    SessionsHaveOwners(s) && RunsHaveOwners(s) && TabsAreTheirs(s)
  }

  // ---- The steps that break it -----------------------------------------------------------

  /** The run relies on its tab's entry for the transaction it is in. */
  predicate ReliesOnRecord(s: State, r: RunId, t: Tab)
    requires t in s.cursors
  {
    && r in s.runs && t != "" && s.runs[r].req.tab == t && s.runs[r].conn == Some(s.cursors[t].conn)
    && (s.runs[r].phase.Checking? || s.runs[r].phase.Paging? || s.runs[r].phase.Fetching? || s.runs[r].phase.Finishing?)
  }

  /** The tab's entry is the owner on record of a transaction that declareCursor opened, for
  the tab's idle session or for a run in flight. */
  ghost predicate IsOwnerOnRecord(s: State, t: Tab) {
    && t in s.cursors && s.cursors[t].ownsTx && s.cursors[t].conn in s.cursorTx
    && ((t in s.sessions && !s.sessions[t].busy && s.sessions[t].conn == s.cursors[t].conn)
        || exists r :: ReliesOnRecord(s, r, t))
  }

  /** The steps after which a transaction of a cursor is left without an owner: one whose end
  was not sent, and the late delete of an entry that is the owner on record. */
  ghost predicate LeavesUnowned(s: State, e: Event)
    requires Enabled(s, e)
  {
    match e
    case Declare(r, _, _) => EndNotSent(s, e) && s.runs[r].req.tab != ""
    case CloseCursor(r, _) => EndNotSent(s, e) && ConnOf(s, r) in s.cursorTx
    case FetchInvalid(r, _, _) => EndNotSent(s, e) && ConnOf(s, r) in s.cursorTx
    case ForgetTaken(b, t) => IsOwnerOnRecord(s, t)
    case _ => false
  }

  // ---- Steps ---------------------------------------------------------------------------

  /** A step of run r changes the cursors of its own tab at most. */
  ghost predicate OnlyOwnCursor(before: CursorMap, after: CursorMap, t: Tab) {
    forall u | u != t :: (u in before <==> u in after) && (u in before ==> before[u] == after[u])
  }

  /** A run whose tab keeps its entry and whose transaction is no newer stands as before. */
  lemma SameOwner(s: State, s': State, run: Run)
    requires RunHasOwner(s, run)
    requires run.conn.Some? && run.conn.value in s'.cursorTx ==> run.conn.value in s.cursorTx
    requires InFlight(run) ==> (run.req.tab in s'.cursors <==> run.req.tab in s.cursors)
    requires InFlight(run) && run.req.tab in s.cursors ==> s'.cursors[run.req.tab] == s.cursors[run.req.tab]
    ensures RunHasOwner(s', run)
  {
  }

  /** Nobody else depends on the cursor of a tab with a run in flight. */
  lemma MoveKeepsOthers(s: State, r: RunId, phase: Phase, status: TxStatus, cursors: CursorMap, ownsTx: bool)
    requires Inv(s) && CursorInv(s) && OneRunPerTab(s) && RunAt(s, r)
    requires s.runs[r].phase != Waiting && !s.runs[r].phase.Releasing? && !phase.Releasing?
    requires OnlyOwnCursor(s.cursors, cursors, s.runs[r].req.tab)
    requires var s' := Move(s, r, phase, status, cursors, ownsTx); RunHasOwner(s', s'.runs[r])
    ensures CursorInv(Move(s, r, phase, status, cursors, ownsTx))
  {
    var s', t := Move(s, r, phase, status, cursors, ownsTx), s.runs[r].req.tab;
    RunHoldsAlone(s, r);
    assert RunOwnsItsSession(s, s.runs[r]) && OwnsItsTab(s, s.runs[r]);
    assert "" !in s.sessions;
    hide Inv, RunHasOwner;
    forall u | u in s'.sessions ensures SessionHasOwner(s', u) {
      assert SessionHasOwner(s, u);
    }
    forall q | q in s'.runs ensures RunHasOwner(s', s'.runs[q]) && OwnsItsTab(s', s'.runs[q]) {
      assert OwnsItsTab(s, s.runs[q]);
      if q != r {
        SameOwner(s, s', s.runs[q]);
      }
    }
  }

  lemma NumberingKeepsCursorInv(s: State, n: nat)
    requires CursorInv(s)
    ensures CursorInv(s.(nextCursor := n))
  {
    var s' := s.(nextCursor := n);
    forall u | u in s'.sessions ensures SessionHasOwner(s', u) { assert SessionHasOwner(s, u); }
    forall q | q in s'.runs ensures RunHasOwner(s', s'.runs[q]) && OwnsItsTab(s', s'.runs[q]) {
      assert RunHasOwner(s, s.runs[q]) && OwnsItsTab(s, s.runs[q]);
    }
  }

  lemma CheckKeepsOwn(s: State, r: RunId)
    requires RunAt(s, r) && s.runs[r].phase == Checking && RunHasOwner(s, s.runs[r])
    ensures var s' := AfterCheckCursor(s, r);
            RunHasOwner(s', s'.runs[r]) && OnlyOwnCursor(s.cursors, s'.cursors, s.runs[r].req.tab)
  {
  }

  lemma FindKeepsOwn(s: State, r: RunId)
    requires RunAt(s, r) && s.runs[r].phase == Paging && RunHasOwner(s, s.runs[r])
    ensures var s' := AfterFindCursor(s, r);
            RunHasOwner(s', s'.runs[r]) && OnlyOwnCursor(s.cursors, s'.cursors, s.runs[r].req.tab)
  {
  }

  lemma DeclareKeepsOwn(s: State, r: RunId, ok: bool, status: TxStatus)
    requires Enabled(s, Declare(r, ok, status)) && RunHasOwner(s, s.runs[r])
    ensures var s' := AfterDeclare(s, r, ok, status);
            && (RunHasOwner(s', s'.runs[r]) <==> !LeavesUnowned(s, Declare(r, ok, status)))
            && OnlyOwnCursor(s.cursors, s'.cursors, s.runs[r].req.tab)
  {
  }

  lemma CloseKeepsOwn(s: State, e: Event)
    requires Enabled(s, e) && (e.CloseCursor? || e.FetchInvalid?) && RunHasOwner(s, s.runs[e.r])
    ensures RunHasOwner(After(s, e), After(s, e).runs[e.r]) <==> !LeavesUnowned(s, e)
    ensures OnlyOwnCursor(s.cursors, After(s, e).cursors, s.runs[e.r].req.tab)
  {
  }

  /** After each step of its own, a run still has its transaction on record, but for the
  steps that leave it without an owner. */
  lemma MoveKeepsOwn(s: State, e: Event)
    requires Enabled(s, e) && IsMove(e) && RunHasOwner(s, s.runs[e.r])
    ensures RunHasOwner(After(s, e), After(s, e).runs[e.r]) <==> !LeavesUnowned(s, e)
    ensures OnlyOwnCursor(s.cursors, After(s, e).cursors, s.runs[e.r].req.tab)
  {
    hide PinnedCount, MaxPinned, AfterCheckCursor, AfterFindCursor, AfterDeclare;
    if e.CheckCursor? {
      CheckKeepsOwn(s, e.r);
    } else if e.FindCursor? {
      FindKeepsOwn(s, e.r);
    } else if e.Declare? {
      DeclareKeepsOwn(s, e.r, e.ok, e.status);
    } else if e.CloseCursor? || e.FetchInvalid? {
      CloseKeepsOwn(s, e);
    }
  }

  /** The moving run after the step, in the state of the step and in its Move. */
  lemma NumbersOwnNothing(s: State, n: nat, run: Run)
    ensures RunHasOwner(s.(nextCursor := n), run) <==> RunHasOwner(s, run)
  {
  }

  lemma MovedRun(s: State, e: Event, r: RunId, phase: Phase, status: TxStatus, cursors: CursorMap, ownsTx: bool)
    requires Enabled(s, e) && IsMove(e) && CursorInv(s) && RunAt(s, r) && r == e.r
    requires After(s, e) == Move(s, r, phase, status, cursors, ownsTx).(nextCursor := After(s, e).nextCursor)
    ensures var s' := Move(s, r, phase, status, cursors, ownsTx);
            && r in s.runs && r in s'.runs && r in After(s, e).runs && RunHasOwner(s, s.runs[r])
            && (RunHasOwner(After(s, e), After(s, e).runs[r]) <==> RunHasOwner(s', s'.runs[r]))
            && (CursorInv(After(s, e)) ==> RunHasOwner(s', s'.runs[r]))
            && After(s, e).cursors == cursors
  {
    var s', n := Move(s, r, phase, status, cursors, ownsTx), After(s, e).nextCursor;
    hide After, Enabled, RunHasOwner, SessionsHaveOwners, TabsAreTheirs;
    NumbersOwnNothing(s', n, s'.runs[r]);
  }

  lemma MoveStepKeepsCursorInv(s: State, e: Event)
    requires Inv(s) && CursorInv(s) && OneRunPerTab(s) && Enabled(s, e) && IsMove(e)
    ensures CursorInv(After(s, e)) <==> !LeavesUnowned(s, e)
  {
    hide *;
    var r, phase, status, cursors, ownsTx := MovedBy(s, e);
    MovedRun(s, e, r, phase, status, cursors, ownsTx);
    MoveKeepsOwn(s, e);
    var s' := Move(s, r, phase, status, cursors, ownsTx);
    if RunHasOwner(s', s'.runs[r]) {
      MoveKeepsOthers(s, r, phase, status, cursors, ownsTx);
      NumberingKeepsCursorInv(s', After(s, e).nextCursor);
    }
  }

  lemma ReuseKeepsCursorInv(s: State, r: RunId, req: Request, sess: Session)
    requires CursorInv(s) && r !in s.runs && req.tab != "" && req.tab in s.sessions && !s.sessions[req.tab].busy
    requires sess == s.sessions[req.tab].(busy := true)
    ensures CursorInv(s.(sessions := s.sessions[req.tab := sess],
                         runs := s.runs[r := Run(req, Some(sess.id), Some(sess.conn), Checking)]))
  {
    var s' := s.(sessions := s.sessions[req.tab := sess], runs := s.runs[r := Run(req, Some(sess.id), Some(sess.conn), Checking)]);
    assert SessionHasOwner(s, req.tab);
    SameRuns(s, s', r);
    assert RunHasOwner(s', s'.runs[r]) && OwnsItsTab(s', s'.runs[r]);
    forall u | u in s'.sessions ensures SessionHasOwner(s', u) { assert SessionHasOwner(s, u); }
  }

  /** Runs other than r do not notice a session being marked busy. */
  lemma SameRuns(s: State, s': State, r: RunId)
    requires CursorInv(s) && s'.cursors == s.cursors && s'.cursorTx == s.cursorTx && s'.sessions.Keys == s.sessions.Keys
    requires forall t :: t in s.sessions ==> s'.sessions[t].id == s.sessions[t].id
    requires forall q :: q in s'.runs && q != r ==> q in s.runs && s'.runs[q] == s.runs[q]
    ensures forall q :: q in s'.runs && q != r ==> RunHasOwner(s', s'.runs[q]) && OwnsItsTab(s', s'.runs[q])
  {
    forall q | q in s'.runs && q != r ensures RunHasOwner(s', s'.runs[q]) && OwnsItsTab(s', s'.runs[q]) {
      assert RunHasOwner(s, s.runs[q]) && OwnsItsTab(s, s.runs[q]);
    }
  }

  lemma StartKeepsCursorInv(s: State, r: RunId, req: Request)
    requires CursorInv(s) && r !in s.runs
    ensures CursorInv(AfterStart(s, r, req))
  {
    hide PinnedCount, MaxPinned;
    var s' := AfterStart(s, r, req);
    var found := LookupResult(s.sessions, req.tab, req.pool, req.autocommit);
    if found.Reuse? {
      hide CursorInv;
      ReuseKeepsCursorInv(s, r, req, found.sess);
    } else if found.NoSession? {
      SameRuns(s, s', r);
      forall u | u in s'.sessions ensures SessionHasOwner(s', u) { assert SessionHasOwner(s, u); }
      assert RunHasOwner(s', s'.runs[r]) && OwnsItsTab(s', s'.runs[r]);
      }
  }

  lemma AcquireKeepsCursorInv(s: State, r: RunId, outcome: AcquireOutcome)
    requires CursorInv(s) && r in s.runs && s.runs[r].phase == Waiting && s.nextConn !in s.tx
    requires forall q :: q in s.runs ==> s.runs[q].conn != Some(s.nextConn)
    ensures CursorInv(AfterAcquire(s, r, outcome))
  {
    var s' := AfterAcquire(s, r, outcome);
    forall u | u in s'.sessions ensures SessionHasOwner(s', u) { assert SessionHasOwner(s, u); }
    forall q | q in s'.runs ensures RunHasOwner(s', s'.runs[q]) && OwnsItsTab(s', s'.runs[q]) {
      assert RunHasOwner(s, s.runs[q]) && OwnsItsTab(s, s.runs[q]);
    }
  }

  /** A finishing run hands its transaction and the record of it to its tab. */
  lemma KeepingKeepsCursorInv(s: State, r: RunId, x: Session, n: nat)
    requires CursorInv(s) && OneRunPerTab(s)
    requires RunAt(s, r) && s.runs[r].phase == Finishing && s.runs[r].req.tab != "" && x.conn == ConnOf(s, r)
    ensures CursorInv(s.(sessions := s.sessions[s.runs[r].req.tab := x], runs := s.runs - {r}, nextSession := n))
  {
    var t := s.runs[r].req.tab;
    var s' := s.(sessions := s.sessions[t := x], runs := s.runs - {r}, nextSession := n);
    assert RunHasOwner(s, s.runs[r]);
    forall u | u in s'.sessions ensures SessionHasOwner(s', u) {
      if u != t { assert SessionHasOwner(s, u); }
    }
    forall q | q in s'.runs ensures RunHasOwner(s', s'.runs[q]) && OwnsItsTab(s', s'.runs[q]) {
      assert RunHasOwner(s, s.runs[q]) && OwnsItsTab(s, s.runs[q]);
    }
  }

  lemma LettingGoKeepsCursorInv(s: State, r: RunId, now: int)
    requires CursorInv(s) && RunAt(s, r) && s.runs[r].phase == Finishing && !Keeps(s.sessions, TicketOf(s, r), StatusOf(s, r))
    requires RunOwnsItsSession(s, s.runs[r])
    ensures CursorInv(AfterFinishing(s, r, now))
  {
    hide PinnedCount, MaxPinned;
    var s' := AfterFinishing(s, r, now);
    forall u | u in s'.sessions ensures SessionHasOwner(s', u) { assert SessionHasOwner(s, u); }
    forall q | q in s'.runs ensures RunHasOwner(s', s'.runs[q]) && OwnsItsTab(s', s'.runs[q]) {
      assert RunHasOwner(s, s.runs[q]) && OwnsItsTab(s, s.runs[q]);
    }
  }

  lemma FinishKeepsCursorInv(s: State, r: RunId, now: int)
    requires CursorInv(s) && OneRunPerTab(s) && RunAt(s, r) && s.runs[r].phase == Finishing
    requires RunOwnsItsSession(s, s.runs[r])
    ensures CursorInv(AfterFinishing(s, r, now))
  {
    hide PinnedCount, MaxPinned, CursorInv, OneRunPerTab;
    var s' := AfterFinishing(s, r, now);
    if Keeps(s.sessions, TicketOf(s, r), StatusOf(s, r)) {
      KeepingKeepsCursorInv(s, r, s'.sessions[s.runs[r].req.tab], s'.nextSession);
    } else {
      LettingGoKeepsCursorInv(s, r, now);
    }
  }

  /** Steps that touch neither the cursors nor any run in flight. */
  lemma ReturnKeepsCursorInv(s: State, s': State)
    requires CursorInv(s) && s'.cursors == s.cursors && s'.cursorTx <= s.cursorTx && s'.tx == s.tx
    requires s'.sessions.Keys <= s.sessions.Keys && forall t :: t in s'.sessions ==> s'.sessions[t] == s.sessions[t]
    requires s'.runs.Keys <= s.runs.Keys && forall r :: r in s'.runs ==> s'.runs[r] == s.runs[r]
    ensures CursorInv(s')
  {
    forall u | u in s'.sessions ensures SessionHasOwner(s', u) { assert SessionHasOwner(s, u); }
    forall q | q in s'.runs ensures RunHasOwner(s', s'.runs[q]) && OwnsItsTab(s', s'.runs[q]) {
      assert RunHasOwner(s, s.runs[q]) && OwnsItsTab(s, s.runs[q]);
    }
  }

  /** Why ending should be atomic: the late delete of endSessions takes a transaction's owner
  off the record exactly when the tab's entry is by then the owner on record, for a session
  pinned since or for a run in flight. */
  lemma LateDeleteBreaksTheLaw(s: State, b: nat, t: Tab)
    requires SessionsHaveOwners(s) && RunsHaveOwners(s) && IsPending(s, b, t)
    ensures SessionsHaveOwners(AfterForget(s, b, t)) && RunsHaveOwners(AfterForget(s, b, t)) <==> !IsOwnerOnRecord(s, t)
  {
    var s' := AfterForget(s, b, t);
    if t in s.sessions {
      assert SessionHasOwner(s, t);
    }
    if IsOwnerOnRecord(s, t) {
      if t in s.sessions && !s.sessions[t].busy && s.sessions[t].conn == s.cursors[t].conn {
        assert !SessionHasOwner(s', t);
      } else {
        var r :| ReliesOnRecord(s, r, t);
        assert RunHasOwner(s, s.runs[r]) && !RunHasOwner(s', s'.runs[r]);
      }
    } else {
      forall u | u in s'.sessions ensures SessionHasOwner(s', u) { assert SessionHasOwner(s, u); }
      forall q | q in s'.runs ensures RunHasOwner(s', s'.runs[q]) {
        assert RunHasOwner(s, s.runs[q]);
        if s.runs[q].req.tab == t && t in s.cursors {
          assert !ReliesOnRecord(s, q, t) || !s.cursors[t].ownsTx || s.cursors[t].conn !in s.cursorTx;
        }
      }
    }
  }

  lemma ForgetKeepsCursorInv(s: State, b: nat, t: Tab)
    requires CursorInv(s) && IsPending(s, b, t)
    ensures CursorInv(AfterForget(s, b, t)) <==> !IsOwnerOnRecord(s, t)
  {
    LateDeleteBreaksTheLaw(s, b, t);
    hide SessionsHaveOwners, RunsHaveOwners, IsOwnerOnRecord;
    var s' := AfterForget(s, b, t);
    forall q | q in s'.runs ensures OwnsItsTab(s', s'.runs[q]) {
      assert OwnsItsTab(s, s.runs[q]);
    }
  }

  lemma FactsForCursors(s: State)
    requires Inv(s)
    ensures s.nextConn !in s.tx && forall r :: r in s.runs ==> RunOwnsItsSession(s, s.runs[r])
    ensures forall q :: q in s.runs ==> s.runs[q].conn != Some(s.nextConn)
  {
    FreshHandle(s);
  }

  /** The law, step by step and exactly: of the steps with one run a tab, those that leave a
  transaction without an owner break it, and no others. */
  lemma StepKeepsCursorInv(s: State, e: Event)
    requires Inv(s) && CursorInv(s) && OneRunPerTab(s) && Enabled(s, e)
    ensures CursorInv(After(s, e)) <==> !LeavesUnowned(s, e)
  {
    hide *;
    if IsMove(e) {
      MoveStepKeepsCursorInv(s, e);
    } else {
      OtherStepKeepsCursorInv(s, e);
    }
  }

  lemma OtherStepKeepsCursorInv(s: State, e: Event)
    requires Inv(s) && CursorInv(s) && OneRunPerTab(s) && Enabled(s, e) && !IsMove(e)
    ensures CursorInv(After(s, e)) <==> !LeavesUnowned(s, e)
  {
    hide Inv;
    FactsForCursors(s);
    hide CursorInv, OneRunPerTab, AfterStart, AfterAcquire, AfterFinishing, AfterForget, PinnedCount, MaxPinned, IsOwnerOnRecord;
    match e {
      case Start(r, req) => StartKeepsCursorInv(s, r, req);
      case Acquire(r, outcome) => AcquireKeepsCursorInv(s, r, outcome);
      case Finish(r, now) => FinishKeepsCursorInv(s, r, now);
      case Release(r) => ReturnKeepsCursorInv(s, AfterRelease(s, r));
      case Take(matching, dropBusy) => ReturnKeepsCursorInv(s, AfterTaking(s, matching, dropBusy));
      case EndTaken(b, t) => ReturnKeepsCursorInv(s, AfterEndTaken(s, b, t));
      case ForgetTaken(b, t) => ForgetKeepsCursorInv(s, b, t);
    }
  }

  // ---- Over whole runs -------------------------------------------------------------------

  /** One run a tab, and none of the steps that leave a transaction without an owner. */
  ghost predicate IsOrderly(states: seq<State>, events: seq<Event>, i: nat)
    requires IsTrace(states, events) && i < |states|
  {
    forall j :: 0 <= j < i ==> OneRunPerTab(states[j]) && !(Steps(states[j], events[j], states[j + 1]) && LeavesUnowned(states[j], events[j]))
  }

  lemma {:induction false} CursorInvAlways(states: seq<State>, events: seq<Event>, i: nat)
    requires IsTrace(states, events) && i < |states| && IsOrderly(states, events, i)
    ensures CursorInv(states[i])
  {
    hide Inv, Enabled, After, OneRunPerTab, LeavesUnowned;
    if i > 0 {
      CursorInvAlways(states, events, i - 1);
      Safety(states, events, i - 1);
      assert Steps(states[i - 1], events[i - 1], states[i]);
      StepKeepsCursorInv(states[i - 1], events[i - 1]);
    }
  }

  /** What the law says about a state: a transaction that declareCursor opened is on record
  with its tab's cursor, no statement executes inside it, and only pages of the cursor's own
  query read from it. */
  ghost predicate TransactionsOwned(s: State) {
    && (forall t | t in s.sessions && !s.sessions[t].busy && s.sessions[t].conn in s.cursorTx ::
          t in s.cursors && s.cursors[t].conn == s.sessions[t].conn && s.cursors[t].ownsTx)
    && (forall r | r in s.runs && s.runs[r].phase == Executing && s.runs[r].conn.Some? ::
          s.runs[r].conn.value !in s.cursorTx)
    && (forall r | r in s.runs && s.runs[r].phase.Fetching? && s.runs[r].conn.Some? && s.runs[r].conn.value in s.cursorTx ::
          s.runs[r].phase.cur.ownsTx && s.runs[r].phase.cur.query == s.runs[r].req.query)
  }

  lemma OrderlyTransactionsAreOwned(states: seq<State>, events: seq<Event>, i: nat)
    requires IsTrace(states, events) && i < |states| && IsOrderly(states, events, i)
    ensures TransactionsOwned(states[i])
  {
    CursorInvAlways(states, events, i);
    var s := states[i];
    hide IsTrace, IsOrderly;
    forall t | t in s.sessions ensures SessionHasOwner(s, t) {}
    forall r | r in s.runs ensures RunHasOwner(s, s.runs[r]) {}
  }

  // ---- When ending is atomic ----------------------------------------------------------------

  ghost predicate Hypotheses(s: State, e: Event) {
    OneRunPerTab(s) && EndingIsAtomic(s) && !EndNotSent(s, e)
  }

  /** A tab being ended has no session. */
  ghost predicate EndingsApart(s: State) {
    forall b, t :: IsPending(s, b, t) ==> t !in s.sessions
  }

  lemma StepKeepsEndingsApart(s: State, e: Event)
    requires EndingsApart(s) && EndingIsAtomic(s) && Enabled(s, e)
    ensures EndingsApart(After(s, e))
  {
    hide PinnedCount, MaxPinned, EndingIsAtomic;
    if e.Finish? {
      FinishKeepsEndingsApart(s, e.r, e.now);
    } else if e.Take? {
      TakeKeepsEndingsApart(s, e.matching, e.dropBusy);
    } else {
      SessionsStay(s, e);
      hide After, Enabled;
    }
  }

  lemma StartKeepsTabs(s: State, r: RunId, req: Request)
    requires r !in s.runs
    ensures AfterStart(s, r, req).sessions.Keys == s.sessions.Keys && AfterStart(s, r, req).batches == s.batches
  {
    hide PinnedCount, MaxPinned;
  }

  lemma SessionsStay(s: State, e: Event)
    requires Enabled(s, e) && !e.Finish? && !e.Take?
    ensures After(s, e).sessions.Keys == s.sessions.Keys
    ensures forall b, t :: IsPending(After(s, e), b, t) ==> IsPending(s, b, t)
  {
    if IsMove(e) {
      hide After, Enabled;
      MoveKeepsTheRest(s, e);
    } else {
      hide PinnedCount, MaxPinned, Move;
      match e {
        case Start(r, req) => StartKeepsTabs(s, r, req);
        case _ =>
      }
    }
  }

  lemma FinishKeepsEndingsApart(s: State, r: RunId, now: int)
    requires EndingsApart(s) && EndingIsAtomic(s) && RunAt(s, r) && s.runs[r].phase == Finishing
    ensures EndingsApart(AfterFinishing(s, r, now))
  {
    hide PinnedCount, MaxPinned;
    var s' := AfterFinishing(s, r, now);
    forall b, t | IsPending(s', b, t) ensures t !in s'.sessions {
      assert IsPending(s, b, t);
      assert InFlight(s.runs[r]) ==> s.runs[r].req.tab !in s.batches[b];
    }
  }

  lemma TakeKeepsEndingsApart(s: State, matching: (Tab, Session) -> bool, dropBusy: bool)
    requires EndingsApart(s)
    ensures EndingsApart(AfterTaking(s, matching, dropBusy))
  {
    var s' := AfterTaking(s, matching, dropBusy);
    forall b, t | IsPending(s', b, t) ensures t !in s'.sessions {
      if b != s.nextBatch {
        assert IsPending(s, b, t);
      }
    }
  }

  lemma {:induction false} EndingsStayApart(states: seq<State>, events: seq<Event>, i: nat)
    requires IsTrace(states, events) && i < |states| && forall j :: 0 <= j < i ==> EndingIsAtomic(states[j])
    ensures EndingsApart(states[i])
  {
    hide Enabled, After, EndingIsAtomic, EndingsApart;
    if i == 0 {
      assert EndingsApart(START) by { NobodyEnds(); }
    } else {
      EndingsStayApart(states, events, i - 1);
      assert Steps(states[i - 1], events[i - 1], states[i]);
      StepKeepsEndingsApart(states[i - 1], events[i - 1]);
    }
  }

  lemma NobodyEnds()
    ensures EndingsApart(START)
  {
  }

  /** With the hypotheses no step leaves a transaction without an owner. */
  lemma AtomicEndingIsOrderly(s: State, e: Event)
    requires EndingsApart(s) && Hypotheses(s, e) && Enabled(s, e)
    ensures !LeavesUnowned(s, e)
  {
    if e.ForgetTaken? {
      NobodyReliesOnEnding(s, e.b, e.t);
    }
  }

  lemma NobodyReliesOnEnding(s: State, b: nat, t: Tab)
    requires EndingsApart(s) && EndingIsAtomic(s) && IsPending(s, b, t)
    ensures !IsOwnerOnRecord(s, t)
  {
    assert t !in s.sessions;
    forall r | t in s.cursors ensures !ReliesOnRecord(s, r, t) {
      assert r in s.runs && InFlight(s.runs[r]) ==> s.runs[r].req.tab !in s.batches[b];
    }
  }

  /** Over whole runs: with one run a tab, atomic ending and every COMMIT and ROLLBACK sent, a
  transaction opened for a cursor has its owner on record and nothing else runs in it. */
  lemma OwnedTransactionsStayOnRecord(states: seq<State>, events: seq<Event>, i: nat)
    requires IsTrace(states, events) && i < |states| && forall j :: 0 <= j < i ==> Hypotheses(states[j], events[j])
    ensures TransactionsOwned(states[i])
  {
    hide EndingsApart, LeavesUnowned, OneRunPerTab, EndingIsAtomic, EndNotSent, TransactionsOwned, Enabled, After;
    forall j | 0 <= j < i
      ensures OneRunPerTab(states[j]) && !(Steps(states[j], events[j], states[j + 1]) && LeavesUnowned(states[j], events[j]))
    {
      assert Hypotheses(states[j], events[j]) && Steps(states[j], events[j], states[j + 1]);
      assert forall k :: 0 <= k < j ==> EndingIsAtomic(states[k]) by {
        assert forall k :: 0 <= k < j ==> Hypotheses(states[k], events[k]);
      }
      EndingsStayApart(states, events, j);
      AtomicEndingIsOrderly(states[j], events[j]);
    }
    OrderlyTransactionsAreOwned(states, events, i);
  }
}
