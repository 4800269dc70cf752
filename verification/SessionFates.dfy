/** Where connections end up: which step can lose one, when none is lost, and what
becomes of a busy session that a disconnect drops. */
module SessionFates {
  import opened Wrappers
  import opened Sessions
  import opened SessionMachine
  import opened SessionLaws

  // ---- Pinned exactly while in a transaction -------------------------------------------

  /** No registered session is on this connection. */
  ghost predicate Unregistered(s: State, c: ConnId) {
    forall t :: t in s.sessions ==> s.sessions[t].conn != c
  }

  /** A session marked busy is in use by a run that started with it. */
  ghost predicate BusyIsInUse(s: State) {
    forall t :: t in s.sessions && s.sessions[t].busy ==> exists r :: Uses(s, r, t)
  }

  predicate Uses(s: State, r: RunId, t: Tab) {
    && r in s.runs && t in s.sessions
    && s.runs[r].req.tab == t && s.runs[r].sess == Some(s.sessions[t].id) && s.runs[r].conn == Some(s.sessions[t].conn)
  }

  /** Two registered sessions never share a connection, busy or not. */
  lemma SessionsApart(s: State, t: Tab, u: Tab)
    requires Inv(s) && BusyIsInUse(s) && t in s.sessions && u in s.sessions && t != u
    ensures s.sessions[t].conn != s.sessions[u].conn
  {
    var h := HolderOf(s, t);
    var k := HolderOf(s, u);
    assert h != k;
    HoldersDiffer(s, h, k);
  }

  /** Who holds the connection of a registered session: the tab, or the run that uses it. */
  lemma HolderOf(s: State, t: Tab) returns (h: Holder)
    requires BusyIsInUse(s) && t in s.sessions
    ensures HeldBy(s, h) == Some(s.sessions[t].conn)
    ensures h == ByTab(t) || (h.ByRun? && Uses(s, h.r, t))
  {
    if s.sessions[t].busy {
      var r :| Uses(s, r, t);
      h := ByRun(r);
    } else {
      h := ByTab(t);
    }
  }

  /** Busy sessions and the runs that use them are as they were. */
  ghost predicate UsesCarryOver(s: State, s': State) {
    && (forall t :: t in s'.sessions && s'.sessions[t].busy ==> t in s.sessions && s'.sessions[t] == s.sessions[t])
    && (forall r, t :: Uses(s, r, t) && t in s'.sessions && s'.sessions[t].busy ==>
          r in s'.runs && s'.runs[r].req == s.runs[r].req && s'.runs[r].sess == s.runs[r].sess && s'.runs[r].conn == s.runs[r].conn)
  }

  lemma CarriedOver(s: State, s': State)
    requires BusyIsInUse(s) && UsesCarryOver(s, s')
    ensures BusyIsInUse(s')
  {
    forall t | t in s'.sessions && s'.sessions[t].busy ensures exists r :: Uses(s', r, t) {
      var r :| Uses(s, r, t);
      assert Uses(s', r, t);
    }
  }

  lemma MoveKeepsBusyInUse(s: State, r: RunId, phase: Phase, status: TxStatus, cursors: CursorMap, ownsTx: bool)
    requires BusyIsInUse(s) && RunAt(s, r)
    ensures BusyIsInUse(Move(s, r, phase, status, cursors, ownsTx))
  {
    CarriedOver(s, Move(s, r, phase, status, cursors, ownsTx));
  }

  lemma StartKeepsBusyInUse(s: State, r: RunId, req: Request)
    requires BusyIsInUse(s) && r !in s.runs
    ensures BusyIsInUse(AfterStart(s, r, req))
  {
    hide PinnedCount, MaxPinned;
    var s' := AfterStart(s, r, req);
    forall t | t in s'.sessions && s'.sessions[t].busy ensures exists q :: Uses(s', q, t) {
      if t in s.sessions && s.sessions[t].busy {
        var q :| Uses(s, q, t);
        assert Uses(s', q, t);
      } else {
        assert Uses(s', r, t);
      }
    }
  }

  /** The session a run used is idle or gone when the run finishes; the others are as they were. */
  lemma FinishFreesItsTab(s: State, r: RunId, now: int)
    requires RunAt(s, r) && RunOwnsItsSession(s, s.runs[r])
    ensures var s' := AfterFinishing(s, r, now);
            && (forall t :: t in s'.sessions && s'.sessions[t].busy ==> t in s.sessions && s'.sessions[t] == s.sessions[t])
            && (forall t :: Uses(s, r, t) ==> t !in s'.sessions || !s'.sessions[t].busy)
            && (forall q | q in s.runs && q != r :: q in s'.runs && s'.runs[q] == s.runs[q])
  {
    hide PinnedCount, MaxPinned;
  }

  lemma FinishKeepsBusyInUse(s: State, r: RunId, now: int)
    requires Inv(s) && BusyIsInUse(s) && RunAt(s, r)
    ensures BusyIsInUse(AfterFinishing(s, r, now))
  {
    assert RunOwnsItsSession(s, s.runs[r]);
    FinishFreesItsTab(s, r, now);
    hide Inv, AfterFinishing, RunOwnsItsSession, BusyIsInUse;
    CarriedOver(s, AfterFinishing(s, r, now));
  }

  lemma StepKeepsBusyInUse(s: State, e: Event)
    requires Inv(s) && BusyIsInUse(s) && Enabled(s, e)
    ensures BusyIsInUse(After(s, e))
  {
    hide Inv, BusyIsInUse, Move, PinnedCount, MaxPinned, AfterStart, AfterFinishing, AfterAcquire, AfterRelease, AfterTaking;
    match e {
      case Start(r, req) => StartKeepsBusyInUse(s, r, req);
      case Acquire(r, outcome) => AcquireKeepsBusyInUse(s, r, outcome);
      case Finish(r, now) => FinishKeepsBusyInUse(s, r, now);
      case Release(r) => ReleaseKeepsBusyInUse(s, r);
      case Take(matching, dropBusy) => TakeKeepsBusyInUse(s, matching, dropBusy);
      case EndTaken(b, t) => CarriedOver(s, AfterEndTaken(s, b, t));
      case ForgetTaken(b, t) => CarriedOver(s, AfterForget(s, b, t));
      case _ => MovingKeepsBusyInUse(s, e);
    }
  }

  lemma MovingKeepsBusyInUse(s: State, e: Event)
    requires Inv(s) && BusyIsInUse(s) && Enabled(s, e) && IsMove(e)
    ensures BusyIsInUse(After(s, e))
  {
    hide Inv, BusyIsInUse, Enabled, After, IsMove, Move;
    var r, phase, status, cursors, ownsTx := MovedBy(s, e);
    MoveKeepsBusyInUse(s, r, phase, status, cursors, ownsTx);
    CarriedOver(Move(s, r, phase, status, cursors, ownsTx), After(s, e));
  }

  lemma AcquireKeepsBusyInUse(s: State, r: RunId, outcome: AcquireOutcome)
    requires Inv(s) && BusyIsInUse(s) && r in s.runs && s.runs[r].phase == Waiting
    ensures BusyIsInUse(AfterAcquire(s, r, outcome))
  {
    assert RunOwnsItsSession(s, s.runs[r]);
    hide Inv, PinnedCount, MaxPinned;
    CarriedOver(s, AfterAcquire(s, r, outcome));
  }

  lemma ReleaseKeepsBusyInUse(s: State, r: RunId)
    requires Inv(s) && BusyIsInUse(s) && RunAt(s, r) && s.runs[r].phase.Releasing?
    ensures BusyIsInUse(AfterRelease(s, r))
  {
    assert RunOwnsItsSession(s, s.runs[r]);
    hide Inv, PinnedCount, MaxPinned;
    CarriedOver(s, AfterRelease(s, r));
  }

  lemma TakeKeepsBusyInUse(s: State, matching: (Tab, Session) -> bool, dropBusy: bool)
    requires BusyIsInUse(s)
    ensures BusyIsInUse(AfterTaking(s, matching, dropBusy))
  {
    CarriedOver(s, AfterTaking(s, matching, dropBusy));
  }

  // ---- Lost connections ------------------------------------------------------------------

  /** Handed out, not returned, and in nobody's hands. */
  ghost predicate IsLost(s: State, c: ConnId) {
    c in s.tx && c !in s.returned && forall h :: HeldBy(s, h) != Some(c)
  }

  /** The one way to lose a connection: a run that started without a session pins its
  own over an idle session of its tab. */
  predicate Overwrites(s: State, e: Event, c: ConnId)
    requires Enabled(s, e)
  {
    && e.Finish? && s.runs[e.r].sess.None? && Keeps(s.sessions, TicketOf(s, e.r), StatusOf(s, e.r))
    && s.runs[e.r].req.tab in s.sessions
    && !s.sessions[s.runs[e.r].req.tab].busy && s.sessions[s.runs[e.r].req.tab].conn == c
  }

  /** Nobody else's hands changed between the two states. */
  lemma LossOfNobody(s: State, s': State, c: ConnId)
    requires forall h :: HeldBy(s', h) == HeldBy(s, h)
    requires (c in s'.tx && c !in s'.returned) <==> (c in s.tx && c !in s.returned)
    ensures IsLost(s', c) <==> IsLost(s, c)
  {
  }

  lemma LossAtHandOver(s: State, s': State, c: ConnId, from: Holder, to: Holder)
    requires HeldBy(s', from) == None && HeldBy(s', to) == HeldBy(s, from)
    requires forall h :: h != from && h != to ==> HeldBy(s', h) == HeldBy(s, h)
    requires s'.tx == s.tx && s'.returned == s.returned && OneHolder(s) && HeldIsOut(s) && from != to && HeldBy(s, from).Some?
    ensures IsLost(s', c) <==> IsLost(s, c) || HeldBy(s, to) == Some(c)
  {
    if HeldBy(s, to) == Some(c) {
      forall h ensures HeldBy(s', h) != Some(c) {
        if h != to { HoldersDiffer(s, to, h); } else { HoldersDiffer(s, to, from); }
      }
    }
    if IsLost(s', c) && HeldBy(s, to) != Some(c) {
      forall h ensures HeldBy(s, h) != Some(c) {
        if h == from { assert HeldBy(s', to) != Some(c); } else if h != to { assert HeldBy(s', h) != Some(c); }
      }
    }
    if IsLost(s, c) {
      forall h ensures HeldBy(s', h) != Some(c) {
        assert HeldBy(s, from) != Some(c) && HeldBy(s, h) != Some(c);
      }
    }
  }

  lemma LossAtReturn(s: State, s': State, c: ConnId, from: Holder)
    requires OneHolder(s) && HeldBy(s, from).Some? && HeldBy(s', from) == None
    requires forall h :: h != from ==> HeldBy(s', h) == HeldBy(s, h)
    requires s'.tx == s.tx && s'.returned.Keys == s.returned.Keys + {HeldBy(s, from).value}
    ensures IsLost(s', c) <==> IsLost(s, c)
  {
    if IsLost(s', c) {
      forall h ensures HeldBy(s, h) != Some(c) {
        if h != from { assert HeldBy(s', h) != Some(c); }
      }
    }
    if IsLost(s, c) {
      assert HeldBy(s, from) != Some(c);
      forall h ensures HeldBy(s', h) != Some(c) { assert HeldBy(s, h) != Some(c); }
    }
  }

  lemma ReuseIsOfAnIdleSession(s: State, req: Request)
    ensures var found := LookupResult(s.sessions, req.tab, req.pool, req.autocommit);
            found.Reuse? ==> req.tab in s.sessions && !s.sessions[req.tab].busy && found.sess == s.sessions[req.tab].(busy := true)
  {
    hide PinnedCount, MaxPinned;
  }

  lemma LossAtStart(s: State, r: RunId, req: Request, c: ConnId)
    requires Inv(s) && r !in s.runs
    ensures IsLost(AfterStart(s, r, req), c) <==> IsLost(s, c)
  {
    ReuseIsOfAnIdleSession(s, req);
    hide LookupResult, HandlesNumbered, SessionsNumbered, RunsOwnTheirSession, IdleSessionsPinned, ReleasesRollBack, PinsBounded, IsLost;
    var s' := AfterStart(s, r, req);
    assert HeldBy(s, ByRun(r)) == None;
    hide OneHolder, HeldIsOut;
    if LookupResult(s.sessions, req.tab, req.pool, req.autocommit).Reuse? {
      assert forall h :: h != ByTab(req.tab) && h != ByRun(r) ==> HeldBy(s', h) == HeldBy(s, h);
      LossAtHandOver(s, s', c, ByTab(req.tab), ByRun(r));
    } else {
      assert forall h :: HeldBy(s', h) == HeldBy(s, h);
      LossOfNobody(s, s', c);
    }
  }

  lemma LossAtAcquire(s: State, r: RunId, outcome: AcquireOutcome, c: ConnId)
    requires Inv(s) && r in s.runs && s.runs[r].phase == Waiting
    ensures IsLost(AfterAcquire(s, r, outcome), c) <==> IsLost(s, c)
  {
    var s' := AfterAcquire(s, r, outcome);
    assert RunOwnsItsSession(s, s.runs[r]) && HeldBy(s, ByRun(r)) == None;
    assert forall h :: h != ByRun(r) ==> HeldBy(s', h) == HeldBy(s, h);
    if outcome.Acquired? {
      assert HeldBy(s', ByRun(r)) == Some(s.nextConn);
      assert c != s.nextConn ==> (IsLost(s', c) <==> IsLost(s, c));
    } else {
      LossOfNobody(s, s', c);
    }
  }

  lemma LossAtFinish(s: State, r: RunId, now: int, c: ConnId)
    requires Inv(s) && Enabled(s, Finish(r, now))
    ensures IsLost(AfterFinishing(s, r, now), c) <==> IsLost(s, c) || Overwrites(s, Finish(r, now), c)
  {
    hide PinnedCount, MaxPinned;
    var s' := AfterFinishing(s, r, now);
    assert RunOwnsItsSession(s, s.runs[r]);
    if Keeps(s.sessions, TicketOf(s, r), StatusOf(s, r)) {
      var t := s.runs[r].req.tab;
      FinishHandsOver(s, r, now);
      LossAtHandOver(s, s', c, ByRun(r), ByTab(t));
    } else {
      FinishLetsGo(s, r, now);
      LossOfNobody(s, s', c);
    }
  }

  lemma FinishHandsOver(s: State, r: RunId, now: int)
    requires RunAt(s, r) && RunOwnsItsSession(s, s.runs[r]) && Keeps(s.sessions, TicketOf(s, r), StatusOf(s, r))
    ensures var s', t := AfterFinishing(s, r, now), s.runs[r].req.tab;
            && HeldBy(s, ByRun(r)) == HeldBy(s', ByTab(t)) == Some(ConnOf(s, r)) && HeldBy(s', ByRun(r)) == None
            && s'.tx == s.tx && s'.returned == s.returned
            && forall h :: h != ByTab(t) && h != ByRun(r) ==> HeldBy(s', h) == HeldBy(s, h)
  {
  }

  lemma FinishLetsGo(s: State, r: RunId, now: int)
    requires RunAt(s, r) && RunOwnsItsSession(s, s.runs[r]) && s.runs[r].phase == Finishing
    requires !Keeps(s.sessions, TicketOf(s, r), StatusOf(s, r))
    ensures var s' := AfterFinishing(s, r, now);
            s'.tx == s.tx && s'.returned == s.returned && forall h :: HeldBy(s', h) == HeldBy(s, h)
  {
  }

  lemma LossAtTake(s: State, matching: (Tab, Session) -> bool, dropBusy: bool, c: ConnId)
    requires Inv(s)
    ensures IsLost(AfterTaking(s, matching, dropBusy), c) <==> IsLost(s, c)
  {
    hide SessionsNumbered, RunsOwnTheirSession, IdleSessionsPinned, ReleasesRollBack, PinsBounded, OneHolder, HeldIsOut;
    var s' := AfterTaking(s, matching, dropBusy);
    forall h ensures HeldBy(s', h).Some? ==> HeldBy(s', h) == HeldBy(s, HolderBefore(s, h)) {
      TakeMovesHolders(s, matching, dropBusy, h);
    }
    if IsLost(s', c) {
      NobodyHeldBeforeTake(s, matching, dropBusy, c);
    }
    if IsLost(s, c) {
      forall h ensures HeldBy(s', h) != Some(c) { assert HeldBy(s, HolderBefore(s, h)) != Some(c); }
    }
  }

  lemma NobodyHeldBeforeTake(s: State, matching: (Tab, Session) -> bool, dropBusy: bool, c: ConnId)
    requires HandlesNumbered(s) && forall h :: HeldBy(AfterTaking(s, matching, dropBusy), h) != Some(c)
    ensures forall h :: HeldBy(s, h) != Some(c)
  {
    var s' := AfterTaking(s, matching, dropBusy);
    forall h ensures HeldBy(s, h) != Some(c) {
      assert HeldBy(s', h) != Some(c);
      if h.ByTab? { assert HeldBy(s', ByBatch(s.nextBatch, h.t)) != Some(c); }
    }
  }

  /** Conservation, step by step: the connections lost after a step are those lost
  before it and the one it overwrites, if any. */
  lemma StepLoses(s: State, e: Event, c: ConnId)
    requires Inv(s) && Enabled(s, e)
    ensures IsLost(After(s, e), c) <==> IsLost(s, c) || Overwrites(s, e, c)
  {
    hide IsLost, PinnedCount, MaxPinned, AfterStart, AfterFinishing, AfterAcquire;
    var s' := After(s, e);
    match e {
      case Start(r, req) => LossAtStart(s, r, req, c);
      case Acquire(r, outcome) => LossAtAcquire(s, r, outcome, c);
      case Finish(r, now) => LossAtFinish(s, r, now, c);
      case Release(r) => LossAtRelease(s, r, c);
      case Take(matching, dropBusy) => LossAtTake(s, matching, dropBusy, c);
      case EndTaken(b, t) => LossAtEndTaken(s, b, t, c);
      case ForgetTaken(b, t) => LossAtForget(s, b, t, c);
      case _ => LossAtMove(s, e, c);
    }
  }

  lemma LossAtRelease(s: State, r: RunId, c: ConnId)
    requires Inv(s) && RunAt(s, r) && s.runs[r].phase.Releasing?
    ensures IsLost(AfterRelease(s, r), c) <==> IsLost(s, c)
  {
    var s' := AfterRelease(s, r);
    assert forall h :: h != ByRun(r) ==> HeldBy(s', h) == HeldBy(s, h);
    LossAtReturn(s, s', c, ByRun(r));
  }

  lemma LossAtEndTaken(s: State, b: nat, t: Tab, c: ConnId)
    requires Inv(s) && IsPending(s, b, t) && !s.batches[b][t].released && s.batches[b][t].conn in s.tx
    ensures IsLost(AfterEndTaken(s, b, t), c) <==> IsLost(s, c)
  {
    var s' := AfterEndTaken(s, b, t);
    assert forall h :: h != ByBatch(b, t) ==> HeldBy(s', h) == HeldBy(s, h);
    LossAtReturn(s, s', c, ByBatch(b, t));
  }

  lemma LossAtForget(s: State, b: nat, t: Tab, c: ConnId)
    requires IsPending(s, b, t) && s.batches[b][t].released
    ensures IsLost(AfterForget(s, b, t), c) <==> IsLost(s, c)
  {
    assert forall h :: HeldBy(AfterForget(s, b, t), h) == HeldBy(s, h);
    LossOfNobody(s, AfterForget(s, b, t), c);
  }

  lemma CursorNumbersHoldNothing(s: State, n: nat)
    ensures forall h :: HeldBy(s.(nextCursor := n), h) == HeldBy(s, h)
  {
  }

  lemma LossAtMove(s: State, e: Event, c: ConnId)
    requires Inv(s) && Enabled(s, e) && IsMove(e)
    ensures IsLost(After(s, e), c) <==> IsLost(s, c)
  {
    var r, phase, status, cursors, ownsTx := MovedBy(s, e);
    var s' := After(s, e);
    hide Move, Inv, After, Enabled, IsLost;
    var m := Move(s, r, phase, status, cursors, ownsTx);
    MoveHolders(s, r, phase, status, cursors, ownsTx);
    CursorNumbersHoldNothing(m, s'.nextCursor);
    hide HeldBy;
    LossOfNobody(s, s', c);
  }

  lemma MoveHolders(s: State, r: RunId, phase: Phase, status: TxStatus, cursors: CursorMap, ownsTx: bool)
    requires RunAt(s, r)
    ensures forall h :: HeldBy(Move(s, r, phase, status, cursors, ownsTx), h) == HeldBy(s, h)
    ensures Move(s, r, phase, status, cursors, ownsTx).tx.Keys == s.tx.Keys
    ensures Move(s, r, phase, status, cursors, ownsTx).returned == s.returned
  {
  }

  // ---- One sessionless run per tab: nothing is lost ------------------------------------------

  /** A run that started without a session and has not finished yet. */
  predicate IsSessionless(run: Run) {
    run.sess.None? && run.req.tab != "" && !run.phase.Releasing?
  }

  ghost predicate OneSessionless(s: State) {
    forall r, q | r in s.runs && q in s.runs && IsSessionless(s.runs[r]) && IsSessionless(s.runs[q])
                  && s.runs[r].req.tab == s.runs[q].req.tab :: r == q
  }

  /** While a sessionless run is in flight, its tab has no session. */
  ghost predicate SessionlessTabsFree(s: State) {
    forall r :: r in s.runs && IsSessionless(s.runs[r]) ==> s.runs[r].req.tab !in s.sessions
  }

  /** No new sessionless run and no new registration. */
  ghost predicate NothingNew(s: State, s': State) {
    && s'.sessions.Keys <= s.sessions.Keys
    && forall q | q in s'.runs && IsSessionless(s'.runs[q]) ::
         q in s.runs && IsSessionless(s.runs[q]) && s.runs[q].req == s'.runs[q].req
  }

  lemma NothingNewKeepsTabsFree(s: State, s': State)
    requires SessionlessTabsFree(s) && NothingNew(s, s')
    ensures SessionlessTabsFree(s')
  {
  }

  lemma StartKeepsTabsFree(s: State, r: RunId, req: Request)
    requires SessionlessTabsFree(s) && r !in s.runs
    ensures SessionlessTabsFree(AfterStart(s, r, req))
  {
    hide PinnedCount, MaxPinned;
    var s' := AfterStart(s, r, req);
    forall q | q in s'.runs && IsSessionless(s'.runs[q]) ensures s'.runs[q].req.tab !in s'.sessions {
      if q != r { assert IsSessionless(s.runs[q]); }
    }
  }

  /** Only a finishing run registers a session for a tab that had none. */
  lemma StepKeepsTabsFree(s: State, e: Event)
    requires SessionlessTabsFree(s) && OneSessionless(s) && Enabled(s, e)
    ensures SessionlessTabsFree(After(s, e))
  {
    hide SessionlessTabsFree, OneSessionless, PinnedCount, MaxPinned, AfterStart, AfterFinishing, Move, AfterTake, Taken;
    match e {
      case Start(r, req) => StartKeepsTabsFree(s, r, req);
      case Acquire(r, outcome) => NothingNewKeepsTabsFree(s, AfterAcquire(s, r, outcome));
      case Finish(r, now) => FinishKeepsTabsFree(s, r, now);
      case Release(r) => NothingNewKeepsTabsFree(s, AfterRelease(s, r));
      case Take(_, _) => TakingKeepsTabsFree(s, e);
      case EndTaken(_, _) => TakingKeepsTabsFree(s, e);
      case ForgetTaken(_, _) => TakingKeepsTabsFree(s, e);
      case _ => MovingKeepsTabsFree(s, e);
    }
  }

  lemma MovingKeepsTabsFree(s: State, e: Event)
    requires SessionlessTabsFree(s) && Enabled(s, e) && IsMove(e)
    ensures SessionlessTabsFree(After(s, e))
  {
    hide SessionlessTabsFree, Enabled, After, IsMove, Move;
    var r, phase, status, cursors, ownsTx := MovedBy(s, e);
    MoveIsNothingNew(s, r, phase, status, cursors, ownsTx);
    NothingNewKeepsTabsFree(s, After(s, e));
  }

  lemma TakingKeepsTabsFree(s: State, e: Event)
    requires SessionlessTabsFree(s) && OneSessionless(s) && Enabled(s, e)
    requires e.Take? || e.EndTaken? || e.ForgetTaken?
    ensures SessionlessTabsFree(After(s, e))
  {
    hide SessionlessTabsFree, OneSessionless, PinnedCount, MaxPinned;
    NothingNewKeepsTabsFree(s, After(s, e));
  }

  lemma MoveIsNothingNew(s: State, r: RunId, phase: Phase, status: TxStatus, cursors: CursorMap, ownsTx: bool)
    requires RunAt(s, r) && !s.runs[r].phase.Releasing?
    ensures NothingNew(s, Move(s, r, phase, status, cursors, ownsTx))
  {
  }

  lemma FinishKeepsTabsFree(s: State, r: RunId, now: int)
    requires SessionlessTabsFree(s) && OneSessionless(s) && RunAt(s, r) && s.runs[r].phase == Finishing
    ensures SessionlessTabsFree(AfterFinishing(s, r, now))
  {
    hide PinnedCount, MaxPinned;
    var s' := AfterFinishing(s, r, now);
    forall q | q in s'.runs && IsSessionless(s'.runs[q]) ensures s'.runs[q].req.tab !in s'.sessions {
      assert q != r && s'.runs[q] == s.runs[q];
      if s.runs[r].sess.Some? && s.runs[q].req.tab == s.runs[r].req.tab {
        assert s.runs[q].req.tab !in s.sessions;
      }
    }
  }

  lemma {:induction false} TabsStayFree(states: seq<State>, events: seq<Event>, i: nat)
    requires IsTrace(states, events) && i < |states| && forall j :: 0 <= j < i ==> OneSessionless(states[j])
    ensures SessionlessTabsFree(states[i])
  {
    hide Enabled, After, OneSessionless;
    if i > 0 {
      TabsStayFree(states, events, i - 1);
      assert Steps(states[i - 1], events[i - 1], states[i]);
      StepKeepsTabsFree(states[i - 1], events[i - 1]);
    }
  }

  /** Conservation over whole runs: while each tab has at most one sessionless run in
  flight, every connection handed out is in somebody's hands or back in the pool. */
  lemma {:induction false} NothingIsLost(states: seq<State>, events: seq<Event>, i: nat, c: ConnId)
    requires IsTrace(states, events) && i < |states| && forall j :: 0 <= j < i ==> OneSessionless(states[j])
    ensures !IsLost(states[i], c)
  {
    hide Inv, Enabled, After, OneSessionless;
    if i > 0 {
      var s, e := states[i - 1], events[i - 1];
      NothingIsLost(states, events, i - 1, c);
      Safety(states, events, i - 1);
      TabsStayFree(states, events, i - 1);
      assert Steps(s, e, states[i]);
      StepLoses(s, e, c);
      if Overwrites(s, e, c) {
        FreeTabsAreNotOverwritten(s, e, c);
      }
    }
  }

  lemma FreeTabsAreNotOverwritten(s: State, e: Event, c: ConnId)
    requires SessionlessTabsFree(s) && Enabled(s, e)
    ensures !Overwrites(s, e, c)
  {
    hide PinnedCount, MaxPinned;
    if e.Finish? {
      var run := s.runs[e.r];
      assert IsSessionless(run) ==> run.req.tab !in s.sessions;
    }
  }

  // ---- Two sessionless runs of one tab can lose a connection -----------------------------------

  const POOL := Pool(0, 10)
  const REQUEST := Request("t", POOL, 1, "db", false, "select 1", false, false)

  function RunsAt(sess0: Phase, sess1: Phase): map<RunId, Run> {
    map[0 := Run(REQUEST, None, Some(0), sess0), 1 := Run(REQUEST, None, Some(1), sess1)]
  }

  /** Two runs, each with its own connection inside a transaction. */
  function TwoRuns(phase0: Phase, phase1: Phase): State {
    START.(runs := RunsAt(phase0, phase1), tx := map[0 := InTx, 1 := InTx], nextConn := 2)
  }

  function PinnedBy(conn: ConnId, id: nat): SessionMap {
    map["t" := Session(id, conn, POOL, 1, "db", Active, 0, false)]
  }

  lemma NothingPinned()
    ensures PinnedCount(map[], POOL) == 0
  {
    assert PinnedTabs(map[], POOL) == {};
  }

  lemma OnePinned()
    ensures PinnedCount(PinnedBy(0, 0), POOL) == 1
  {
    assert PinnedTabs(PinnedBy(0, 0), POOL) == {"t"};
  }

  /** Both runs start before either has pinned a session. */
  lemma BothStart()
    ensures exists s1, s2, s3 ::
              && Steps(START, Event.Start(0, REQUEST), s1) && Steps(s1, Event.Start(1, REQUEST), s2)
              && Steps(s2, Event.Acquire(0, Acquired), s3) && Steps(s3, Event.Acquire(1, Acquired), TwoRuns(Checking, Checking))
  {
    NothingPinned();
    hide PinnedCount;
    var waiting := Run(REQUEST, None, None, Waiting);
    var s1 := START.(runs := map[0 := waiting]);
    var s2 := START.(runs := map[0 := waiting, 1 := waiting]);
    var s3 := START.(runs := map[0 := waiting.(conn := Some(0), phase := Checking), 1 := waiting],
                     tx := map[0 := InTx], nextConn := 1);
    assert Steps(START, Event.Start(0, REQUEST), s1);
    assert Steps(s1, Event.Start(1, REQUEST), s2);
    assert Steps(s2, Event.Acquire(0, Acquired), s3);
    assert Steps(s3, Event.Acquire(1, Acquired), TwoRuns(Checking, Checking));
  }

  lemma BothExecute()
    ensures Steps(TwoRuns(Checking, Checking), CheckCursor(0), TwoRuns(Executing, Checking))
    ensures Steps(TwoRuns(Executing, Checking), CheckCursor(1), TwoRuns(Executing, Executing))
    ensures Steps(TwoRuns(Executing, Executing), Done(0), TwoRuns(Finishing, Executing))
    ensures Steps(TwoRuns(Finishing, Executing), Done(1), TwoRuns(Finishing, Finishing))
  {
    assert RunsAt(Executing, Checking) == RunsAt(Checking, Checking)[0 := RunsAt(Checking, Checking)[0].(phase := Executing)];
    assert RunsAt(Executing, Executing) == RunsAt(Executing, Checking)[1 := RunsAt(Executing, Checking)[1].(phase := Executing)];
    assert RunsAt(Finishing, Executing) == RunsAt(Executing, Executing)[0 := RunsAt(Executing, Executing)[0].(phase := Finishing)];
    assert RunsAt(Finishing, Finishing) == RunsAt(Finishing, Executing)[1 := RunsAt(Finishing, Executing)[1].(phase := Finishing)];
  }

  function OneLeft(): State {
    TwoRuns(Finishing, Finishing).(runs := map[1 := Run(REQUEST, None, Some(1), Finishing)],
                                   sessions := PinnedBy(0, 0), nextSession := 1)
  }

  function NoneLeft(): State {
    OneLeft().(runs := map[], sessions := PinnedBy(1, 1), nextSession := 2)
  }

  /** The second finish pins over the session of the first, whose connection nobody has
  any more. */
  lemma BothFinish()
    ensures Steps(TwoRuns(Finishing, Finishing), Finish(0, 0), OneLeft())
    ensures Steps(OneLeft(), Finish(1, 0), NoneLeft())
    ensures IsLost(NoneLeft(), 0)
  {
    NothingPinned();
    OnePinned();
    hide PinnedCount;
    assert OneLeft().runs == RunsAt(Finishing, Finishing) - {0};
    assert NoneLeft().runs == OneLeft().runs - {1};
  }

  /** Without the hypothesis of NothingIsLost its conclusion is false. */
  lemma TwoSessionlessRunsLoseAConnection()
    ensures exists states, events :: IsTrace(states, events) && IsLost(states[|states| - 1], 0)
  {
    BothStart();
    BothExecute();
    BothFinish();
    hide Enabled, After, TwoRuns, OneLeft, NoneLeft, IsLost;
    var s1, s2, s3 :|
      && Steps(START, Event.Start(0, REQUEST), s1) && Steps(s1, Event.Start(1, REQUEST), s2)
      && Steps(s2, Event.Acquire(0, Acquired), s3) && Steps(s3, Event.Acquire(1, Acquired), TwoRuns(Checking, Checking));
    var states := [START, s1, s2, s3, TwoRuns(Checking, Checking), TwoRuns(Executing, Checking), TwoRuns(Executing, Executing),
                   TwoRuns(Finishing, Executing), TwoRuns(Finishing, Finishing), OneLeft(), NoneLeft()];
    var events := [Event.Start(0, REQUEST), Event.Start(1, REQUEST), Event.Acquire(0, Acquired), Event.Acquire(1, Acquired),
                   CheckCursor(0), CheckCursor(1), Done(0), Done(1), Finish(0, 0), Finish(1, 0)];
    assert IsTrace(states, events);
    assert states[|states| - 1] == NoneLeft();
  }
}
