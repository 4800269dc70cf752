/** What every step of the session machine keeps: who holds a connection, when it
is pinned, and that none gets lost. */
module SessionLaws {
  import opened Wrappers
  import opened Sessions
  import opened SessionMachine

  // ---- Ownership -----------------------------------------------------------------

  datatype Holder = ByRun(r: RunId) | ByTab(t: Tab) | ByBatch(b: nat, bt: Tab)

  /** The connection a running request, an idle registered session or a taken
  session holds. */
  function HeldBy(s: State, h: Holder): Option<ConnId> {
    match h
    case ByRun(r) => if r in s.runs then s.runs[r].conn else None
    case ByTab(t) => if t in s.sessions && !s.sessions[t].busy then Some(s.sessions[t].conn) else None
    case ByBatch(b, t) =>
      if IsPending(s, b, t) && !s.batches[b][t].released then Some(s.batches[b][t].conn) else None
  }

  ghost predicate OneHolder(s: State) {
    forall h, k :: HeldBy(s, h).Some? && HeldBy(s, h) == HeldBy(s, k) ==> h == k
  }

  /** A held connection was handed out and has not gone back. */
  ghost predicate HeldIsOut(s: State) {
    forall h :: HeldBy(s, h).Some? ==> HeldBy(s, h).value in s.tx && HeldBy(s, h).value !in s.returned
  }

  ghost predicate HandlesNumbered(s: State) {
    && (forall c :: c in s.tx ==> c < s.nextConn)
    && (forall c :: c in s.returned ==> c in s.tx)
    && (forall b :: b in s.batches ==> b < s.nextBatch)
  }

  /** Registered sessions have identities of their own, already handed out. */
  ghost predicate SessionsNumbered(s: State) {
    && (forall t :: t in s.sessions ==> s.sessions[t].id < s.nextSession && t != "")
    && (forall t, u :: t in s.sessions && u in s.sessions && s.sessions[t].id == s.sessions[u].id ==> t == u)
    && (forall r :: r in s.runs && s.runs[r].sess.Some? ==> s.runs[r].sess.value < s.nextSession)
  }

  /** A run whose session is still registered has it marked busy, on its own connection. */
  ghost predicate RunsOwnTheirSession(s: State) {
    forall r {:trigger s.runs[r]} :: r in s.runs ==> RunOwnsItsSession(s, s.runs[r])
  }

  predicate RunOwnsItsSession(s: State, run: Run) {
    && (run.conn.None? <==> run.phase == Waiting)
    && (run.phase == Waiting ==> run.sess.None?)
    && (run.sess.Some? && IsRegistered(s.sessions, run.req.tab, run.sess.value) ==>
          && s.sessions[run.req.tab].busy
          && run.conn == Some(s.sessions[run.req.tab].conn)
          && !run.phase.Releasing?)
  }

  // ---- Transaction status ------------------------------------------------------------

  /** A registered session nobody is using is inside a transaction, with its state
  on record. */
  ghost predicate IdleSessionsPinned(s: State) {
    forall t :: t in s.sessions && !s.sessions[t].busy ==>
      && s.sessions[t].conn in s.tx
      && IsOpenTx(s.tx[s.sessions[t].conn])
      && s.sessions[t].state == StateFromStatus(s.tx[s.sessions[t].conn])
  }

  ghost predicate ReleasesRollBack(s: State) {
    && (forall r :: r in s.runs && s.runs[r].phase.Releasing? && RunAt(s, r) ==>
          (s.runs[r].phase.mustRollBack <==> IsOpenTx(StatusOf(s, r))))
    && (forall c :: c in s.returned && IsOpenTx(s.returned[c].status) ==> s.returned[c].rolledBack)
  }

  /** Never more than MaxPinned sessions of a pool. */
  ghost predicate PinsBounded(s: State) {
    forall pool :: PinnedCount(s.sessions, pool) <= MaxPinned(pool)
  }

  ghost predicate Inv(s: State) {
    && OneHolder(s) && HeldIsOut(s) && HandlesNumbered(s) && SessionsNumbered(s)
    && RunsOwnTheirSession(s) && IdleSessionsPinned(s) && ReleasesRollBack(s) && PinsBounded(s)
  }

  lemma HoldersDiffer(s: State, h: Holder, k: Holder)
    requires OneHolder(s) && h != k && HeldBy(s, h).Some?
    ensures HeldBy(s, h) != HeldBy(s, k)
  {
  }

  /** What run r holds, nobody else does. */
  lemma RunHoldsAlone(s: State, r: RunId)
    requires OneHolder(s) && RunAt(s, r)
    ensures forall t :: t in s.sessions && !s.sessions[t].busy ==> s.sessions[t].conn != ConnOf(s, r)
    ensures forall q :: q in s.runs && q != r ==> s.runs[q].conn != Some(ConnOf(s, r))
    ensures forall b, t :: IsPending(s, b, t) && !s.batches[b][t].released ==> s.batches[b][t].conn != ConnOf(s, r)
  {
    forall t | t in s.sessions && !s.sessions[t].busy ensures s.sessions[t].conn != ConnOf(s, r) {
      HoldersDiffer(s, ByRun(r), ByTab(t));
    }
    forall q | q in s.runs && q != r ensures s.runs[q].conn != Some(ConnOf(s, r)) {
      HoldersDiffer(s, ByRun(r), ByRun(q));
    }
    forall b, t | IsPending(s, b, t) && !s.batches[b][t].released ensures s.batches[b][t].conn != ConnOf(s, r) {
      HoldersDiffer(s, ByRun(r), ByBatch(b, t));
    }
  }

  // ---- How holders change ------------------------------------------------------------

  lemma NobodyMoves(s: State, s': State)
    requires OneHolder(s) && forall h :: HeldBy(s', h) == HeldBy(s, h)
    ensures OneHolder(s')
  {
  }

  lemma HandedOver(s: State, s': State, from: Holder, to: Holder)
    requires OneHolder(s) && HeldBy(s', from) == None && HeldBy(s', to) == HeldBy(s, from)
    requires forall h :: h != from && h != to ==> HeldBy(s', h) == HeldBy(s, h)
    ensures OneHolder(s')
  {
  }

  lemma LetGo(s: State, s': State, from: Holder)
    requires OneHolder(s) && HeldBy(s', from) == None
    requires forall h :: h != from ==> HeldBy(s', h) == HeldBy(s, h)
    ensures OneHolder(s')
  {
  }

  lemma HandedOut(s: State, s': State, to: Holder)
    requires OneHolder(s) && HeldBy(s', to).Some? && forall h :: HeldBy(s, h) != HeldBy(s', to)
    requires forall h :: h != to ==> HeldBy(s', h) == HeldBy(s, h)
    ensures OneHolder(s')
  {
  }

  // ---- Every step keeps the invariant ---------------------------------------------------

  lemma InvAtStart()
    ensures Inv(START)
  {
    forall pool ensures PinnedCount(map[], pool) == 0 {
      assert PinnedTabs(map[], pool) == {};
    }
  }

  /** A run moving on with its own connection. */
  lemma MoveKeepsInv(s: State, r: RunId, phase: Phase, status: TxStatus, cursors: CursorMap, ownsTx: bool)
    requires Inv(s) && RunAt(s, r)
    requires s.runs[r].phase != Waiting && !s.runs[r].phase.Releasing?
    requires phase != Waiting && !phase.Releasing?
    ensures Inv(Move(s, r, phase, status, cursors, ownsTx))
  {
    var s' := Move(s, r, phase, status, cursors, ownsTx);
    RunHoldsAlone(s, r);
    assert HeldBy(s, ByRun(r)) == Some(ConnOf(s, r));
    assert forall h :: HeldBy(s', h) == HeldBy(s, h);
    NobodyMoves(s, s');
    assert HeldIsOut(s');
    hide OneHolder, HeldIsOut, HeldBy, PinnedCount, MaxPinned;
    assert s'.runs[r].sess == s.runs[r].sess && s'.runs[r].conn == s.runs[r].conn;
  }

  lemma CursorNumbersDoNotMatter(s: State, n: nat)
    requires Inv(s)
    ensures Inv(s.(nextCursor := n))
  {
    var s' := s.(nextCursor := n);
    assert forall h :: HeldBy(s', h) == HeldBy(s, h);
    assert forall r :: RunAt(s', r) <==> RunAt(s, r);
  }

  lemma PinnedCountOfUpdate(sessions: SessionMap, t: Tab, x: Session, pool: Pool)
    ensures PinnedCount(sessions[t := x], pool) <= PinnedCount(sessions, pool) + (if x.pool == pool then 1 else 0)
    ensures t in sessions && x.pool == sessions[t].pool ==> PinnedCount(sessions[t := x], pool) <= PinnedCount(sessions, pool)
  {
    var before, after := PinnedTabs(sessions, pool), PinnedTabs(sessions[t := x], pool);
    if x.pool == pool {
      assert after == before + {t};
    } else {
      assert after == before - {t};
    }
  }

  lemma PinnedCountOfSubmap(sessions: SessionMap, fewer: SessionMap, pool: Pool)
    requires fewer.Keys <= sessions.Keys && forall t :: t in fewer ==> fewer[t] == sessions[t]
    ensures PinnedCount(fewer, pool) <= PinnedCount(sessions, pool)
  {
    SubsetSize(PinnedTabs(fewer, pool), PinnedTabs(sessions, pool));
  }

  lemma SubsetSize<T>(a: set<T>, b: set<T>)
    requires a <= b
    ensures |a| <= |b|
  {
    assert b == a + (b - a);
  }

  /** A run that takes over the session of its tab. */
  function Reused(s: State, r: RunId, req: Request, sess: Session): State {
    s.(sessions := s.sessions[req.tab := sess], runs := s.runs[r := Run(req, Some(sess.id), Some(sess.conn), Checking)])
  }

  lemma ReuseKeepsHolders(s: State, r: RunId, req: Request, sess: Session)
    requires OneHolder(s) && HeldIsOut(s) && r !in s.runs && req.tab in s.sessions && !s.sessions[req.tab].busy
    requires sess == s.sessions[req.tab].(busy := true)
    ensures OneHolder(Reused(s, r, req, sess)) && HeldIsOut(Reused(s, r, req, sess))
  {
    var t, s' := req.tab, Reused(s, r, req, sess);
    assert HeldBy(s, ByTab(t)) == Some(sess.conn) == HeldBy(s', ByRun(r));
    assert HeldBy(s', ByTab(t)) == None && HeldBy(s, ByRun(r)) == None;
    assert forall h :: h != ByRun(r) && h != ByTab(t) ==> HeldBy(s', h) == HeldBy(s, h);
    HandedOver(s, s', ByTab(t), ByRun(r));
  }

  lemma ReuseKeepsNumbers(s: State, r: RunId, req: Request, sess: Session)
    requires HandlesNumbered(s) && SessionsNumbered(s) && req.tab in s.sessions && sess == s.sessions[req.tab].(busy := true)
    ensures HandlesNumbered(Reused(s, r, req, sess)) && SessionsNumbered(Reused(s, r, req, sess))
  {
  }

  lemma ReuseKeepsRecords(s: State, r: RunId, req: Request, sess: Session)
    requires SessionsNumbered(s) && RunsOwnTheirSession(s) && IdleSessionsPinned(s) && ReleasesRollBack(s)
    requires r !in s.runs && req.tab in s.sessions && !s.sessions[req.tab].busy && sess == s.sessions[req.tab].(busy := true)
    ensures var s' := Reused(s, r, req, sess); RunsOwnTheirSession(s') && IdleSessionsPinned(s') && ReleasesRollBack(s')
  {
    var s' := Reused(s, r, req, sess);
    forall q | q in s'.runs ensures RunOwnsItsSession(s', s'.runs[q]) {
      if q != r { assert RunOwnsItsSession(s, s.runs[q]); }
    }
  }

  lemma ReuseKeepsPins(s: State, r: RunId, req: Request, sess: Session)
    requires PinsBounded(s) && req.tab in s.sessions && sess == s.sessions[req.tab].(busy := true)
    ensures PinsBounded(Reused(s, r, req, sess))
  {
    hide PinnedCount, MaxPinned;
    forall pool ensures PinnedCount(s.sessions[req.tab := sess], pool) <= MaxPinned(pool) {
      assert PinnedCount(s.sessions, pool) <= MaxPinned(pool);
      PinnedCountOfUpdate(s.sessions, req.tab, sess, pool);
    }
  }

  lemma ReuseKeepsInv(s: State, r: RunId, req: Request, sess: Session)
    requires Inv(s) && r !in s.runs && req.tab in s.sessions && !s.sessions[req.tab].busy
    requires sess == s.sessions[req.tab].(busy := true)
    ensures Inv(Reused(s, r, req, sess))
  {
    hide OneHolder, HeldIsOut, HandlesNumbered, SessionsNumbered, RunsOwnTheirSession, IdleSessionsPinned, ReleasesRollBack, PinsBounded, Reused;
    ReuseKeepsHolders(s, r, req, sess);
    ReuseKeepsNumbers(s, r, req, sess);
    ReuseKeepsRecords(s, r, req, sess);
    ReuseKeepsPins(s, r, req, sess);
  }

  lemma StartKeepsInv(s: State, r: RunId, req: Request)
    requires Inv(s) && r !in s.runs
    ensures Inv(AfterStart(s, r, req))
  {
    hide Inv;
    var found := LookupResult(s.sessions, req.tab, req.pool, req.autocommit);
    if found.Reuse? {
      ReuseKeepsInv(s, r, req, found.sess);
    } else if found.NoSession? {
      WaitingKeepsInv(s, r, req);
    }
  }

  lemma WaitingKeepsInv(s: State, r: RunId, req: Request)
    requires Inv(s) && r !in s.runs
    ensures Inv(s.(runs := s.runs[r := Run(req, None, None, Waiting)]))
  {
    hide PinnedCount, MaxPinned;
    var s' := s.(runs := s.runs[r := Run(req, None, None, Waiting)]);
    assert forall h :: HeldBy(s', h) == HeldBy(s, h);
    NobodyMoves(s, s');
    assert HeldIsOut(s');
    hide OneHolder, HeldIsOut, HeldBy;
    forall q | q in s'.runs ensures RunOwnsItsSession(s', s'.runs[q]) {
      if q != r { assert RunOwnsItsSession(s, s.runs[q]); }
    }
  }

  lemma RunEndsKeepsInv(s: State, r: RunId)
    requires Inv(s) && r in s.runs && s.runs[r].phase == Waiting
    ensures Inv(s.(runs := s.runs - {r}))
  {
    hide PinnedCount, MaxPinned;
    var s' := s.(runs := s.runs - {r});
    assert RunOwnsItsSession(s, s.runs[r]) && HeldBy(s, ByRun(r)) == None;
    assert forall h :: HeldBy(s', h) == HeldBy(s, h);
    NobodyMoves(s, s');
    forall q | q in s'.runs ensures RunOwnsItsSession(s', s'.runs[q]) {
      assert RunOwnsItsSession(s, s.runs[q]);
    }
  }

  /** A handle that comes fresh from the pool is nobody's yet. */
  lemma FreshHandle(s: State)
    requires Inv(s)
    ensures forall h :: HeldBy(s, h) != Some(s.nextConn)
    ensures forall q :: q in s.runs ==> s.runs[q].conn != Some(s.nextConn)
    ensures forall t :: t in s.sessions && !s.sessions[t].busy ==> s.sessions[t].conn != s.nextConn
  {
    forall q | q in s.runs ensures s.runs[q].conn != Some(s.nextConn) {
      assert HeldBy(s, ByRun(q)) == s.runs[q].conn;
    }
  }

  function WithFailedBegin(s: State, status: TxStatus): State {
    s.(tx := s.tx[s.nextConn := status], nextConn := s.nextConn + 1,
       returned := s.returned[s.nextConn := Return(status, false)])
  }

  lemma FailedBeginKeepsHolders(s: State, status: TxStatus)
    requires OneHolder(s) && HeldIsOut(s) && forall h :: HeldBy(s, h) != Some(s.nextConn)
    ensures OneHolder(WithFailedBegin(s, status)) && HeldIsOut(WithFailedBegin(s, status))
  {
    var s' := WithFailedBegin(s, status);
    assert forall h :: HeldBy(s', h) == HeldBy(s, h);
    NobodyMoves(s, s');
  }

  lemma FailedBeginKeepsRecords(s: State, status: TxStatus)
    requires HandlesNumbered(s) && RunsOwnTheirSession(s) && IdleSessionsPinned(s) && ReleasesRollBack(s) && IsEnded(status)
    requires forall q :: q in s.runs ==> s.runs[q].conn != Some(s.nextConn)
    ensures var s' := WithFailedBegin(s, status);
            HandlesNumbered(s') && RunsOwnTheirSession(s') && IdleSessionsPinned(s') && ReleasesRollBack(s')
  {
    var s' := WithFailedBegin(s, status);
    forall q | q in s'.runs ensures RunOwnsItsSession(s', s'.runs[q]) {
      assert RunOwnsItsSession(s, s.runs[q]);
    }
    assert forall q :: RunAt(s', q) <==> RunAt(s, q);
  }

  lemma FailedBeginKeepsInv(s: State, status: TxStatus)
    requires Inv(s) && IsEnded(status)
    ensures Inv(WithFailedBegin(s, status))
  {
    FreshHandle(s);
    hide OneHolder, HeldIsOut, HandlesNumbered, RunsOwnTheirSession, IdleSessionsPinned, ReleasesRollBack, PinnedCount, MaxPinned;
    FailedBeginKeepsHolders(s, status);
    FailedBeginKeepsRecords(s, status);
  }

  lemma AcquiredKeepsHolders(s: State, r: RunId)
    requires Inv(s) && r in s.runs && s.runs[r].phase == Waiting
    ensures OneHolder(AfterAcquire(s, r, Acquired)) && HeldIsOut(AfterAcquire(s, r, Acquired))
  {
    hide PinnedCount, MaxPinned, PinsBounded, SessionsNumbered, IdleSessionsPinned, ReleasesRollBack;
    var s' := AfterAcquire(s, r, Acquired);
    FreshHandle(s);
    assert RunOwnsItsSession(s, s.runs[r]) && HeldBy(s, ByRun(r)) == None;
    assert forall h :: h != ByRun(r) ==> HeldBy(s', h) == HeldBy(s, h);
    HandedOut(s, s', ByRun(r));
  }

  lemma AcquiredKeepsInv(s: State, r: RunId)
    requires Inv(s) && r in s.runs && s.runs[r].phase == Waiting
    ensures Inv(AfterAcquire(s, r, Acquired))
  {
    hide PinnedCount, MaxPinned;
    var s' := AfterAcquire(s, r, Acquired);
    FreshHandle(s);
    assert RunOwnsItsSession(s, s.runs[r]);
    AcquiredKeepsHolders(s, r);
    hide OneHolder, HeldIsOut, HeldBy;
    forall q | q in s'.runs ensures RunOwnsItsSession(s', s'.runs[q]) {
      assert RunOwnsItsSession(s, s.runs[q]);
    }
  }

  lemma AcquireKeepsInv(s: State, r: RunId, outcome: AcquireOutcome)
    requires Inv(s) && r in s.runs && s.runs[r].phase == Waiting
    requires outcome.BeginFailed? ==> IsEnded(outcome.status)
    ensures Inv(AfterAcquire(s, r, outcome))
  {
    hide Inv;
    match outcome {
      case NoConnection => RunEndsKeepsInv(s, r);
      case BeginFailed(status) =>
        RunEndsKeepsInv(s, r);
        FailedBeginKeepsInv(s.(runs := s.runs - {r}), status);
      case Acquired => AcquiredKeepsInv(s, r);
    }
  }

  /** The bound is checked again in the critical section that pins. */
  lemma PinsBoundedAfterFinish(s: State, k: Ticket, st: TxStatus, now: int)
    requires PinsBounded(s)
    ensures PinsBounded(s.(sessions := AfterFinish(s.sessions, k, st, now, s.nextSession)))
  {
    var after := AfterFinish(s.sessions, k, st, now, s.nextSession);
    var keeps := Keeps(s.sessions, k, st);
    forall pool ensures PinnedCount(after, pool) <= MaxPinned(pool) {
      assert PinnedCount(s.sessions, pool) <= MaxPinned(pool);
      if keeps {
        PinnedCountOfUpdate(s.sessions, k.tab, after[k.tab], pool);
      } else {
        PinnedCountOfSubmap(s.sessions, after, pool);
      }
    }
  }

  lemma PinsBoundedAfterTake(s: State, matching: (Tab, Session) -> bool, dropBusy: bool)
    requires PinsBounded(s)
    ensures PinsBounded(AfterTaking(s, matching, dropBusy))
  {
    var after := AfterTake(s.sessions, matching, dropBusy);
    forall pool ensures PinnedCount(after, pool) <= MaxPinned(pool) {
      assert PinnedCount(s.sessions, pool) <= MaxPinned(pool);
      PinnedCountOfSubmap(s.sessions, after, pool);
    }
  }

  lemma KeepingKeepsHolders(s: State, r: RunId, now: int)
    requires OneHolder(s) && HeldIsOut(s) && RunsOwnTheirSession(s)
    requires RunAt(s, r) && s.runs[r].phase == Finishing && Keeps(s.sessions, TicketOf(s, r), StatusOf(s, r))
    ensures OneHolder(AfterFinishing(s, r, now)) && HeldIsOut(AfterFinishing(s, r, now))
  {
    hide PinnedCount, MaxPinned;
    var s', t, c := AfterFinishing(s, r, now), s.runs[r].req.tab, ConnOf(s, r);
    RunHoldsAlone(s, r);
    assert HeldBy(s, ByRun(r)) == Some(c) && HeldBy(s', ByRun(r)) == None;
    assert RunOwnsItsSession(s, s.runs[r]);
    assert HeldBy(s', ByTab(t)) == Some(c);
    assert forall h :: h != ByRun(r) && h != ByTab(t) ==> HeldBy(s', h) == HeldBy(s, h);
    HandedOver(s, s', ByRun(r), ByTab(t));
  }

  lemma KeepingKeepsNumbers(s: State, r: RunId, now: int)
    requires HandlesNumbered(s) && SessionsNumbered(s)
    requires RunAt(s, r) && s.runs[r].phase == Finishing && Keeps(s.sessions, TicketOf(s, r), StatusOf(s, r))
    ensures HandlesNumbered(AfterFinishing(s, r, now)) && SessionsNumbered(AfterFinishing(s, r, now))
  {
    hide PinnedCount, MaxPinned;
  }

  lemma KeepingKeepsRecords(s: State, r: RunId, now: int)
    requires OneHolder(s) && SessionsNumbered(s) && RunsOwnTheirSession(s) && IdleSessionsPinned(s) && ReleasesRollBack(s)
    requires RunAt(s, r) && s.runs[r].phase == Finishing && Keeps(s.sessions, TicketOf(s, r), StatusOf(s, r))
    ensures var s' := AfterFinishing(s, r, now); RunsOwnTheirSession(s') && IdleSessionsPinned(s') && ReleasesRollBack(s')
  {
    RunHoldsAlone(s, r);
    hide PinnedCount, MaxPinned, OneHolder;
    var s' := AfterFinishing(s, r, now);
    assert RunOwnsItsSession(s, s.runs[r]);
    forall q | q in s'.runs ensures RunOwnsItsSession(s', s'.runs[q]) {
      assert RunOwnsItsSession(s, s.runs[q]);
    }
  }

  lemma KeepingKeepsInv(s: State, r: RunId, now: int)
    requires Inv(s) && RunAt(s, r) && s.runs[r].phase == Finishing && Keeps(s.sessions, TicketOf(s, r), StatusOf(s, r))
    ensures Inv(AfterFinishing(s, r, now))
  {
    hide OneHolder, HeldIsOut, HandlesNumbered, SessionsNumbered, RunsOwnTheirSession, IdleSessionsPinned, ReleasesRollBack, AfterFinish, Keeps;
    KeepingKeepsHolders(s, r, now);
    KeepingKeepsNumbers(s, r, now);
    KeepingKeepsRecords(s, r, now);
    PinsBoundedAfterFinish(s, TicketOf(s, r), StatusOf(s, r), now);
    hide PinnedCount, MaxPinned;
  }

  lemma LettingGoKeepsHolders(s: State, r: RunId, now: int)
    requires OneHolder(s) && HeldIsOut(s) && RunsOwnTheirSession(s)
    requires RunAt(s, r) && s.runs[r].phase == Finishing && !Keeps(s.sessions, TicketOf(s, r), StatusOf(s, r))
    ensures OneHolder(AfterFinishing(s, r, now)) && HeldIsOut(AfterFinishing(s, r, now))
  {
    hide PinnedCount, MaxPinned;
    var s' := AfterFinishing(s, r, now);
    assert RunOwnsItsSession(s, s.runs[r]);
    assert forall h :: HeldBy(s', h) == HeldBy(s, h);
    NobodyMoves(s, s');
  }

  lemma LettingGoKeepsRecords(s: State, r: RunId, now: int)
    requires OneHolder(s) && HandlesNumbered(s) && SessionsNumbered(s) && RunsOwnTheirSession(s) && IdleSessionsPinned(s) && ReleasesRollBack(s)
    requires RunAt(s, r) && s.runs[r].phase == Finishing && !Keeps(s.sessions, TicketOf(s, r), StatusOf(s, r))
    ensures var s' := AfterFinishing(s, r, now);
            HandlesNumbered(s') && SessionsNumbered(s') && RunsOwnTheirSession(s') && IdleSessionsPinned(s') && ReleasesRollBack(s')
  {
    RunHoldsAlone(s, r);
    hide PinnedCount, MaxPinned, OneHolder;
    var s' := AfterFinishing(s, r, now);
    assert RunOwnsItsSession(s, s.runs[r]);
    forall q | q in s'.runs ensures RunOwnsItsSession(s', s'.runs[q]) {
      assert RunOwnsItsSession(s, s.runs[q]);
    }
  }

  lemma LettingGoKeepsInv(s: State, r: RunId, now: int)
    requires Inv(s) && RunAt(s, r) && s.runs[r].phase == Finishing && !Keeps(s.sessions, TicketOf(s, r), StatusOf(s, r))
    ensures Inv(AfterFinishing(s, r, now))
  {
    hide OneHolder, HeldIsOut, HandlesNumbered, SessionsNumbered, RunsOwnTheirSession, IdleSessionsPinned, ReleasesRollBack, AfterFinish, Keeps;
    LettingGoKeepsHolders(s, r, now);
    LettingGoKeepsRecords(s, r, now);
    PinsBoundedAfterFinish(s, TicketOf(s, r), StatusOf(s, r), now);
    hide PinnedCount, MaxPinned;
  }

  lemma ReleaseKeepsInv(s: State, r: RunId)
    requires Inv(s) && RunAt(s, r) && s.runs[r].phase.Releasing?
    ensures Inv(AfterRelease(s, r))
  {
    hide PinnedCount, MaxPinned;
    var s' := AfterRelease(s, r);
    RunHoldsAlone(s, r);
    assert HeldBy(s, ByRun(r)) == Some(ConnOf(s, r)) && HeldBy(s', ByRun(r)) == None;
    assert forall h :: h != ByRun(r) ==> HeldBy(s', h) == HeldBy(s, h);
    LetGo(s, s', ByRun(r));
    forall h | HeldBy(s', h).Some? ensures HeldBy(s', h) != Some(ConnOf(s, r)) {
      HoldersDiffer(s, ByRun(r), h);
    }
    assert HeldIsOut(s');
    hide OneHolder, HeldIsOut, HeldBy;
    forall q | q in s'.runs ensures RunOwnsItsSession(s', s'.runs[q]) {
      assert RunOwnsItsSession(s, s.runs[q]);
    }
  }

  /** Who holds what after a take: taken sessions change hands, nothing else does. */
  function HolderBefore(s: State, h: Holder): Holder {
    if h.ByBatch? && h.b == s.nextBatch then ByTab(h.bt) else h
  }

  lemma TakeMovesHolders(s: State, matching: (Tab, Session) -> bool, dropBusy: bool, h: Holder)
    requires HandlesNumbered(s)
    ensures var s' := AfterTaking(s, matching, dropBusy);
            HeldBy(s', h).Some? ==> HeldBy(s', h) == HeldBy(s, HolderBefore(s, h))
    ensures forall k | k != h && HeldBy(AfterTaking(s, matching, dropBusy), h).Some?
                       && HeldBy(AfterTaking(s, matching, dropBusy), k).Some? :: HolderBefore(s, k) != HolderBefore(s, h)
  {
  }

  lemma TakeKeepsHolders(s: State, matching: (Tab, Session) -> bool, dropBusy: bool)
    requires Inv(s)
    ensures OneHolder(AfterTaking(s, matching, dropBusy)) && HeldIsOut(AfterTaking(s, matching, dropBusy))
  {
    var s' := AfterTaking(s, matching, dropBusy);
    forall h ensures HeldBy(s', h).Some? ==> HeldBy(s', h) == HeldBy(s, HolderBefore(s, h)) {
      TakeMovesHolders(s, matching, dropBusy, h);
    }
    forall h, k | HeldBy(s', h).Some? && HeldBy(s', h) == HeldBy(s', k) ensures h == k {
      TakeMovesHolders(s, matching, dropBusy, h);
      TakeMovesHolders(s, matching, dropBusy, k);
    }
    hide Inv, HolderBefore, PinsBounded;
  }

  lemma TakeKeepsRecords(s: State, matching: (Tab, Session) -> bool, dropBusy: bool)
    requires HandlesNumbered(s) && SessionsNumbered(s) && RunsOwnTheirSession(s) && IdleSessionsPinned(s) && ReleasesRollBack(s)
    ensures var s' := AfterTaking(s, matching, dropBusy);
            HandlesNumbered(s') && SessionsNumbered(s') && RunsOwnTheirSession(s') && IdleSessionsPinned(s') && ReleasesRollBack(s')
  {
    var s' := AfterTaking(s, matching, dropBusy);
    forall q | q in s'.runs ensures RunOwnsItsSession(s', s'.runs[q]) {
      assert RunOwnsItsSession(s, s.runs[q]);
    }
    assert forall q :: RunAt(s', q) <==> RunAt(s, q);
  }

  lemma TakeKeepsInv(s: State, matching: (Tab, Session) -> bool, dropBusy: bool)
    requires Inv(s)
    ensures Inv(AfterTaking(s, matching, dropBusy))
  {
    TakeKeepsHolders(s, matching, dropBusy);
    hide OneHolder, HeldIsOut, HandlesNumbered, SessionsNumbered, RunsOwnTheirSession, IdleSessionsPinned, ReleasesRollBack, AfterTaking;
    TakeKeepsRecords(s, matching, dropBusy);
    PinsBoundedAfterTake(s, matching, dropBusy);
    hide PinnedCount, MaxPinned;
  }

  lemma EndTakenKeepsInv(s: State, b: nat, t: Tab)
    requires Inv(s) && IsPending(s, b, t) && !s.batches[b][t].released && s.batches[b][t].conn in s.tx
    ensures Inv(AfterEndTaken(s, b, t))
  {
    hide PinnedCount, MaxPinned;
    var s', c := AfterEndTaken(s, b, t), s.batches[b][t].conn;
    assert HeldBy(s, ByBatch(b, t)) == Some(c) && HeldBy(s', ByBatch(b, t)) == None;
    assert forall h :: h != ByBatch(b, t) ==> HeldBy(s', h) == HeldBy(s, h);
    LetGo(s, s', ByBatch(b, t));
    forall h | HeldBy(s', h).Some? ensures HeldBy(s', h) != Some(c) {
      HoldersDiffer(s, ByBatch(b, t), h);
    }
    assert HeldIsOut(s');
    hide OneHolder, HeldIsOut, HeldBy;
    forall q | q in s'.runs ensures RunOwnsItsSession(s', s'.runs[q]) {
      assert RunOwnsItsSession(s, s.runs[q]);
    }
    assert forall q :: RunAt(s', q) <==> RunAt(s, q);
  }

  lemma ForgetTakenKeepsInv(s: State, b: nat, t: Tab)
    requires Inv(s) && IsPending(s, b, t) && s.batches[b][t].released
    ensures Inv(AfterForget(s, b, t))
  {
    hide PinnedCount, MaxPinned;
    var s' := AfterForget(s, b, t);
    assert forall h :: HeldBy(s', h) == HeldBy(s, h);
    NobodyMoves(s, s');
    assert HeldIsOut(s');
    hide OneHolder, HeldIsOut, HeldBy;
    forall q | q in s'.runs ensures RunOwnsItsSession(s', s'.runs[q]) {
      assert RunOwnsItsSession(s, s.runs[q]);
    }
    assert forall q :: RunAt(s', q) <==> RunAt(s, q);
  }

  /** Any step, of any request or of any task, keeps the invariant. */
  lemma StepKeepsInv(s: State, e: Event)
    requires Inv(s) && Enabled(s, e)
    ensures Inv(After(s, e))
  {
    hide Inv, Move, AfterRelease, AfterEndTaken, AfterForget, AfterTaking, AfterAcquire, AfterStart;
    match e {
      case Start(r, req) => StartKeepsInv(s, r, req);
      case Acquire(r, outcome) => AcquireKeepsInv(s, r, outcome);
      case Finish(r, now) =>
        if Keeps(s.sessions, TicketOf(s, r), StatusOf(s, r)) {
          KeepingKeepsInv(s, r, now);
        } else {
          LettingGoKeepsInv(s, r, now);
        }
      case Release(r) => ReleaseKeepsInv(s, r);
      case Take(matching, dropBusy) => TakeKeepsInv(s, matching, dropBusy);
      case EndTaken(b, t) => EndTakenKeepsInv(s, b, t);
      case ForgetTaken(b, t) => ForgetTakenKeepsInv(s, b, t);
      case _ =>
        var r, phase, status, cursors, ownsTx := MovedBy(s, e);
        MoveKeepsInv(s, r, phase, status, cursors, ownsTx);
        CursorNumbersDoNotMatter(Move(s, r, phase, status, cursors, ownsTx), After(s, e).nextCursor);
    }
  }

  /** In every state of every interleaving the invariant holds. */
  lemma {:induction false} Safety(states: seq<State>, events: seq<Event>, i: nat)
    requires IsTrace(states, events) && i < |states|
    ensures Inv(states[i])
  {
    hide Inv, Enabled;
    if i == 0 {
      InvAtStart();
    } else {
      Safety(states, events, i - 1);
      assert Steps(states[i - 1], events[i - 1], states[i]);
      StepKeepsInv(states[i - 1], events[i - 1]);
    }
  }
}
