/** What the session machine guarantees over every interleaving. */
module SessionTheorems {
  import opened Wrappers
  import opened Sessions
  import opened SessionMachine
  import opened SessionLaws
  import opened SessionFates
  import opened SessionSteps

  /** No two of the runs, the registered sessions and the taken sessions share a connection,
  but for a busy session and the run that uses it. */
  ghost predicate HoldersApart(s: State) {
    && (forall r, q | r in s.runs && q in s.runs && r != q && s.runs[r].conn.Some? ::
          s.runs[r].conn != s.runs[q].conn)
    && (forall t, u | t in s.sessions && u in s.sessions && t != u ::
          s.sessions[t].conn != s.sessions[u].conn)
    && (forall r, t | r in s.runs && t in s.sessions && s.runs[r].conn == Some(s.sessions[t].conn) ::
          s.sessions[t].busy && Uses(s, r, t))
    && (forall t, b, u | t in s.sessions && IsHeld(s, b, u) ::
          s.sessions[t].conn != s.batches[b][u].conn)
    && (forall r, b, u | r in s.runs && IsHeld(s, b, u) ::
          s.runs[r].conn != Some(s.batches[b][u].conn))
    && (forall b, t, d, u | IsHeld(s, b, t) && IsHeld(s, d, u) && (b, t) != (d, u) ::
          s.batches[b][t].conn != s.batches[d][u].conn)
  }

  /** A taken session that is not released yet. */
  predicate IsHeld(s: State, b: nat, t: Tab) {
    IsPending(s, b, t) && !s.batches[b][t].released
  }

  /** Nobody has a connection that went back. */
  ghost predicate NoneHeldAfterReturn(s: State) {
    && (forall r | r in s.runs && s.runs[r].conn.Some? :: s.runs[r].conn.value !in s.returned)
    && (forall t | t in s.sessions :: s.sessions[t].conn !in s.returned)
    && (forall b, t | IsHeld(s, b, t) :: s.batches[b][t].conn !in s.returned)
  }

  /** In every reachable state each connection has at most one holder, and none once it went back. */
  lemma OwnershipAlways(states: seq<State>, events: seq<Event>, i: nat)
    requires IsTrace(states, events) && i < |states|
    ensures HoldersApart(states[i]) && NoneHeldAfterReturn(states[i])
  {
    Safety(states, events, i);
    BusyInUseAlways(states, events, i);
    InvParts(states[i]);
    hide Inv, IsTrace;
    RunsApart(states[i]);
    SessionsAndRunsApart(states[i]);
    TakenApart(states[i]);
    HeldAreOut(states[i]);
  }

  lemma RunsApart(s: State)
    requires OneHolder(s)
    ensures forall r, q | r in s.runs && q in s.runs && r != q && s.runs[r].conn.Some? :: s.runs[r].conn != s.runs[q].conn
  {
    forall r, q | r in s.runs && q in s.runs && r != q && s.runs[r].conn.Some? ensures s.runs[r].conn != s.runs[q].conn {
      HoldersDiffer(s, ByRun(r), ByRun(q));
    }
  }

  lemma SessionsAndRunsApart(s: State)
    requires Inv(s) && OneHolder(s) && BusyIsInUse(s)
    ensures forall t, u | t in s.sessions && u in s.sessions && t != u :: s.sessions[t].conn != s.sessions[u].conn
    ensures forall r, t | r in s.runs && t in s.sessions && s.runs[r].conn == Some(s.sessions[t].conn) ::
              s.sessions[t].busy && Uses(s, r, t)
  {
    hide Inv;
    forall t, u | t in s.sessions && u in s.sessions && t != u ensures s.sessions[t].conn != s.sessions[u].conn {
      SessionsApart(s, t, u);
    }
    forall r, t | r in s.runs && t in s.sessions && s.runs[r].conn == Some(s.sessions[t].conn)
      ensures s.sessions[t].busy && Uses(s, r, t)
    {
      var h := HolderOf(s, t);
      assert HeldBy(s, ByRun(r)) == HeldBy(s, h);
      assert h == ByRun(r);
      assert !s.sessions[t].busy ==> HeldBy(s, ByTab(t)) == HeldBy(s, ByRun(r));
    }
  }

  lemma TakenApart(s: State)
    requires OneHolder(s) && BusyIsInUse(s)
    ensures forall t, b, u | t in s.sessions && IsHeld(s, b, u) :: s.sessions[t].conn != s.batches[b][u].conn
    ensures forall r, b, u | r in s.runs && IsHeld(s, b, u) :: s.runs[r].conn != Some(s.batches[b][u].conn)
    ensures forall b, t, d, u | IsHeld(s, b, t) && IsHeld(s, d, u) && (b, t) != (d, u) ::
              s.batches[b][t].conn != s.batches[d][u].conn
  {
    forall t, b, u | t in s.sessions && IsHeld(s, b, u) ensures s.sessions[t].conn != s.batches[b][u].conn {
      var h := HolderOf(s, t);
      HoldersDiffer(s, h, ByBatch(b, u));
    }
    forall r, b, u | r in s.runs && IsHeld(s, b, u) ensures s.runs[r].conn != Some(s.batches[b][u].conn) {
      HoldersDiffer(s, ByBatch(b, u), ByRun(r));
    }
    forall b, t, d, u | IsHeld(s, b, t) && IsHeld(s, d, u) && (b, t) != (d, u)
      ensures s.batches[b][t].conn != s.batches[d][u].conn
    {
      HoldersDiffer(s, ByBatch(b, t), ByBatch(d, u));
    }
  }

  lemma HeldAreOut(s: State)
    requires HeldIsOut(s) && BusyIsInUse(s)
    ensures NoneHeldAfterReturn(s)
  {
    forall r | r in s.runs && s.runs[r].conn.Some? ensures s.runs[r].conn.value !in s.returned {
      assert HeldBy(s, ByRun(r)) == s.runs[r].conn;
    }
    forall t | t in s.sessions ensures s.sessions[t].conn !in s.returned {
      var h := HolderOf(s, t);
      assert HeldBy(s, h) == Some(s.sessions[t].conn);
    }
    forall b, t | IsHeld(s, b, t) ensures s.batches[b][t].conn !in s.returned {
      assert HeldBy(s, ByBatch(b, t)) == Some(s.batches[b][t].conn);
    }
  }

  lemma InvParts(s: State)
    requires Inv(s)
    ensures OneHolder(s) && HeldIsOut(s) && IdleSessionsPinned(s) && ReleasesRollBack(s) && PinsBounded(s)
  {
  }

  /** The steps that call Release on a connection. */
  predicate GivesBack(s: State, e: Event, c: ConnId)
    requires Enabled(s, e)
  {
    match e
    case Release(r) => ConnOf(s, r) == c
    case EndTaken(b, t) => s.batches[b][t].conn == c
    case Acquire(r, outcome) => outcome.BeginFailed? && s.nextConn == c
    case _ => false
  }

  /** A step gives back a connection that is still out, and what went back stays back: the
  connections returned after a step are those before it and the one it gives back. */
  lemma StepReturnsOnce(s: State, e: Event, c: ConnId)
    requires Inv(s) && Enabled(s, e)
    ensures GivesBack(s, e, c) ==> c !in s.returned
    ensures c in After(s, e).returned <==> c in s.returned || GivesBack(s, e, c)
    ensures c in s.returned ==> After(s, e).returned[c] == s.returned[c]
  {
    if IsMove(e) {
      hide After, Enabled, Inv;
      MoveKeepsTheRest(s, e);
    } else {
      OtherStepReturnsOnce(s, e, c);
    }
  }

  lemma OtherStepReturnsOnce(s: State, e: Event, c: ConnId)
    requires HeldIsOut(s) && HandlesNumbered(s) && Enabled(s, e) && !IsMove(e)
    ensures GivesBack(s, e, c) ==> c !in s.returned
    ensures c in After(s, e).returned <==> c in s.returned || GivesBack(s, e, c)
    ensures c in s.returned ==> After(s, e).returned[c] == s.returned[c]
  {
    hide PinnedCount, MaxPinned, AfterFinish, AfterTake, LookupResult, Taken;
    match e {
      case Release(r) => assert HeldBy(s, ByRun(r)) == Some(ConnOf(s, r));
      case EndTaken(b, t) => assert HeldBy(s, ByBatch(b, t)) == Some(s.batches[b][t].conn);
      case _ =>
    }
  }

  /** Step k of an interleaving gives back connection c. */
  ghost predicate GivesBackAt(states: seq<State>, events: seq<Event>, k: nat, c: ConnId)
    requires IsTrace(states, events) && k < |events|
  {
    Steps(states[k], events[k], states[k + 1]) && GivesBack(states[k], events[k], c)
  }

  lemma {:induction false} StaysReturned(states: seq<State>, events: seq<Event>, i: nat, j: nat, c: ConnId)
    requires IsTrace(states, events) && i <= j < |states| && c in states[i].returned
    ensures c in states[j].returned && states[j].returned[c] == states[i].returned[c]
    decreases j
  {
    hide Enabled, After, Inv, GivesBack;
    if i < j {
      StaysReturned(states, events, i, j - 1, c);
      Safety(states, events, j - 1);
      assert Steps(states[j - 1], events[j - 1], states[j]);
      StepReturnsOnce(states[j - 1], events[j - 1], c);
    }
  }

  /** No connection is released twice: of all steps of an interleaving at most one gives it back. */
  lemma NeverReturnedTwice(states: seq<State>, events: seq<Event>, i: nat, j: nat, c: ConnId)
    requires IsTrace(states, events) && i < |events| && j < |events|
    ensures GivesBackAt(states, events, i, c) && GivesBackAt(states, events, j, c) ==> i == j
  {
    if i < j {
      ReturnedOnceBefore(states, events, i, j, c);
    } else if j < i {
      ReturnedOnceBefore(states, events, j, i, c);
    }
  }

  lemma ReturnedOnceBefore(states: seq<State>, events: seq<Event>, i: nat, j: nat, c: ConnId)
    requires IsTrace(states, events) && i < j < |events|
    ensures GivesBackAt(states, events, i, c) ==> !GivesBackAt(states, events, j, c)
  {
    hide Enabled, After, Inv, GivesBack;
    Safety(states, events, i);
    Safety(states, events, j);
    assert Steps(states[i], events[i], states[i + 1]) && Steps(states[j], events[j], states[j + 1]);
    StepReturnsOnce(states[i], events[i], c);
    StepReturnsOnce(states[j], events[j], c);
    if GivesBackAt(states, events, i, c) {
      StaysReturned(states, events, i + 1, j, c);
    }
  }

  /** What counts as returned was given back by a step. */
  lemma {:induction false} ReturnedWasGivenBack(states: seq<State>, events: seq<Event>, i: nat, c: ConnId)
    requires IsTrace(states, events) && i < |states| && c in states[i].returned
    ensures exists k :: 0 <= k < i && GivesBackAt(states, events, k, c)
  {
    hide Enabled, After, Inv, GivesBack;
    if i > 0 {
      Safety(states, events, i - 1);
      assert Steps(states[i - 1], events[i - 1], states[i]);
      StepReturnsOnce(states[i - 1], events[i - 1], c);
      if c in states[i - 1].returned {
        ReturnedWasGivenBack(states, events, i - 1, c);
      } else {
        assert GivesBackAt(states, events, i - 1, c);
      }
    }
  }

  /** A pinned connection that no query is using is inside a transaction, and the tab's
  state says which kind; a connection inside a transaction goes back only after a
  ROLLBACK. */
  lemma PinnedMeansInTransaction(states: seq<State>, events: seq<Event>, i: nat)
    requires IsTrace(states, events) && i < |states|
    ensures var s := states[i];
            && (forall t | t in s.sessions && !s.sessions[t].busy :: s.sessions[t].conn in s.tx
                  && match s.tx[s.sessions[t].conn]
                     case InTx => s.sessions[t].state == Active
                     case Failed => s.sessions[t].state == Aborted
                     case Idle => false
                     case Closed => false)
            && (forall c | c in s.returned && !s.returned[c].rolledBack :: !IsOpenTx(s.returned[c].status))
  {
    Safety(states, events, i);
    InvParts(states[i]);
  }

  /** The finish hook pins exactly the connections that are inside a transaction, of a
  named tab, and whose session is still registered or finds room. */
  lemma FinishPinsExactly(s: State, r: RunId, now: int)
    requires Inv(s) && BusyIsInUse(s) && Enabled(s, Finish(r, now))
    ensures var s', c, t := After(s, Finish(r, now)), ConnOf(s, r), s.runs[r].req.tab;
            && ((exists u :: u in s'.sessions && s'.sessions[u].conn == c) <==> IsKept(s, r))
            && (IsKept(s, r) ==>
                  t in s'.sessions && s'.sessions[t].conn == c && !s'.sessions[t].busy && r !in s'.runs)
  {
    var s', c, t := After(s, Finish(r, now)), ConnOf(s, r), s.runs[r].req.tab;
    assert RunOwnsItsSession(s, s.runs[r]);
    KeptIsKeeps(s, r);
    hide IsKept;
    forall u | u in s.sessions && s.sessions[u].conn == c ensures u == t && s.runs[r].sess == Some(s.sessions[u].id) {
      var h := HolderOf(s, u);
      RunHoldsAlone(s, r);
      assert h == ByRun(r);
      assert !s.sessions[t].busy ==> HeldBy(s, ByTab(t)) == HeldBy(s, ByRun(r));
    }
    if Keeps(s.sessions, TicketOf(s, r), s.tx[c]) {
      assert t in s'.sessions && s'.sessions[t].conn == c;
    } else {
      assert forall u :: u in s'.sessions ==> s'.sessions[u].conn != c;
    }
  }

  /** Pinned sessions leave a connection of the pool for everyone else. */
  lemma PinsLeaveOneConnection(states: seq<State>, events: seq<Event>, i: nat, pool: Pool)
    requires IsTrace(states, events) && i < |states|
    ensures PinnedCount(states[i].sessions, pool) <= MaxPinned(pool)
    ensures pool.maxConns >= 2 ==> PinnedCount(states[i].sessions, pool) <= pool.maxConns - 1
  {
    Safety(states, events, i);
    InvParts(states[i]);
  }

  // ---- Busy sessions dropped by a disconnect ---------------------------------------------------

  /** The run on connection c can only give it back: its session is not registered any
  more, or it is past its finish hook. */
  predicate CanOnlyRelease(s: State, r: RunId, c: ConnId) {
    && r in s.runs && s.runs[r].conn == Some(c)
    && (s.runs[r].phase.Releasing?
        || (s.runs[r].sess.Some? && !IsRegistered(s.sessions, s.runs[r].req.tab, s.runs[r].sess.value)))
  }

  ghost predicate OnItsWayOut(s: State, c: ConnId) {
    && Unregistered(s, c)
    && (c in s.returned || exists r :: CanOnlyRelease(s, r, c))
  }

  /** Taking a busy session leaves its connection on its way out. */
  lemma DropStartsWayOut(s: State, matching: (Tab, Session) -> bool, t: Tab)
    requires Inv(s) && BusyIsInUse(s) && t in s.sessions && s.sessions[t].busy && matching(t, s.sessions[t])
    ensures OnItsWayOut(AfterTaking(s, matching, true), s.sessions[t].conn)
  {
    hide PinnedCount, MaxPinned;
    var s', c := AfterTaking(s, matching, true), s.sessions[t].conn;
    var r :| Uses(s, r, t);
    assert CanOnlyRelease(s', r, c);
    forall u | u in s'.sessions ensures s'.sessions[u].conn != c {
      SessionsApart(s, t, u);
    }
  }

  /** The only steps that touch the table of sessions. */
  function SessionsAfter(s: State, e: Event): SessionMap
    requires Enabled(s, e)
  {
    match e
    case Start(r, req) =>
      AfterLookup(s.sessions, req.tab, LookupResult(s.sessions, req.tab, req.pool, req.autocommit))
    case Finish(r, now) => AfterFinish(s.sessions, TicketOf(s, r), StatusOf(s, r), now, s.nextSession)
    case Take(matching, dropBusy) => AfterTake(s.sessions, matching, dropBusy)
    case _ => s.sessions
  }

  lemma SessionsOf(s: State, e: Event)
    requires Enabled(s, e)
    ensures After(s, e).sessions == SessionsAfter(s, e)
  {
    hide PinnedCount, MaxPinned, AfterFinish, AfterTake, LookupResult, Taken;
    if IsMove(e) {
      hide After, Enabled;
      MoveKeepsTheRest(s, e);
    }
  }

  /** No step registers connection c, if no session is on it and its run cannot pin. */
  lemma StaysUnregistered(s: State, e: Event, c: ConnId)
    requires Unregistered(s, c) && Enabled(s, e)
    requires e.Finish? && Keeps(s.sessions, TicketOf(s, e.r), StatusOf(s, e.r)) ==> ConnOf(s, e.r) != c
    ensures Unregistered(After(s, e), c)
  {
    SessionsOf(s, e);
    hide After, PinnedCount, MaxPinned;
  }

  /** An identity that is not registered never is again. */
  lemma StaysForgotten(s: State, e: Event, t: Tab, id: nat)
    requires Enabled(s, e) && !IsRegistered(s.sessions, t, id) && id < s.nextSession
    ensures !IsRegistered(After(s, e).sessions, t, id)
  {
    SessionsOf(s, e);
    hide After, PinnedCount, MaxPinned;
  }

  /** What a step does to a run that already has its connection. */
  lemma RunGoesOn(s: State, e: Event, r: RunId)
    requires Enabled(s, e) && r in s.runs && s.runs[r].phase != Waiting
    ensures ((e.Finish? || e.Release?) && e.r == r)
            || (r in After(s, e).runs && After(s, e).runs[r] == s.runs[r].(phase := After(s, e).runs[r].phase))
    ensures s.runs[r].phase.Releasing? && !(e.Release? && e.r == r) ==>
              r in After(s, e).runs && After(s, e).runs[r] == s.runs[r]
  {
    hide PinnedCount, MaxPinned, AfterFinish, AfterTake, LookupResult, Taken;
    if IsMove(e) {
      hide After, Enabled;
      MoveKeepsTheRest(s, e);
    }
  }

  /** A run that can only give its connection back goes on to do so, whatever step comes next. */
  lemma StepKeepsWayOutOfRun(s: State, e: Event, r: RunId, c: ConnId)
    requires Inv(s) && CanOnlyRelease(s, r, c) && Enabled(s, e)
    ensures CanOnlyRelease(After(s, e), r, c) || c in After(s, e).returned
  {
    var run := s.runs[r];
    assert RunOwnsItsSession(s, run) && (run.sess.Some? ==> run.sess.value < s.nextSession);
    hide Inv, PinnedCount, MaxPinned;
    RunGoesOn(s, e, r);
    if !run.phase.Releasing? {
      StaysForgotten(s, e, run.req.tab, run.sess.value);
    }
    if e.Finish? && e.r == r {
      assert !Keeps(s.sessions, TicketOf(s, r), StatusOf(s, r));
      assert After(s, e).runs[r] == run.(phase := Releasing(IsOpenTx(StatusOf(s, r))));
    } else if e.Release? && e.r == r {
      assert c in After(s, e).returned;
    } else {
      hide After, Enabled;
    }
  }

  lemma StepKeepsWayOut(s: State, e: Event, c: ConnId)
    requires Inv(s) && OnItsWayOut(s, c) && Enabled(s, e)
    ensures OnItsWayOut(After(s, e), c)
  {
    if c in s.returned {
      StepReturnsOnce(s, e, c);
      if e.Finish? { assert HeldBy(s, ByRun(e.r)) == Some(ConnOf(s, e.r)); }
    } else {
      var r :| CanOnlyRelease(s, r, c);
      StepKeepsWayOutOfRun(s, e, r, c);
      if e.Finish? {
        if e.r != r { RunHoldsAlone(s, e.r); }
      }
    }
    hide Inv, After, Enabled;
    StaysUnregistered(s, e, c);
  }

  lemma {:induction false} BusyInUseAlways(states: seq<State>, events: seq<Event>, i: nat)
    requires IsTrace(states, events) && i < |states|
    ensures BusyIsInUse(states[i])
  {
    hide Inv, Enabled, After;
    if i > 0 {
      BusyInUseAlways(states, events, i - 1);
      Safety(states, events, i - 1);
      assert Steps(states[i - 1], events[i - 1], states[i]);
      StepKeepsBusyInUse(states[i - 1], events[i - 1]);
    }
  }

  lemma {:induction false} WayOutLasts(states: seq<State>, events: seq<Event>, i: nat, j: nat, c: ConnId)
    requires IsTrace(states, events) && i <= j < |states| && OnItsWayOut(states[i], c)
    ensures OnItsWayOut(states[j], c)
    decreases j
  {
    hide Inv, Enabled, After, OnItsWayOut;
    if i < j {
      WayOutLasts(states, events, i, j - 1, c);
      Safety(states, events, j - 1);
      assert Steps(states[j - 1], events[j - 1], states[j]);
      StepKeepsWayOut(states[j - 1], events[j - 1], c);
    }
  }

  /** A busy session dropped by a disconnect: in every later state its connection is
  registered for no tab, and it is either back in the pool or with a run that will
  only hand it back. */
  lemma DroppedIsNeverPinnedAgain(states: seq<State>, events: seq<Event>, i: nat, j: nat, t: Tab)
    requires IsTrace(states, events) && i < j < |states|
    requires events[i].Take? && events[i].dropBusy
    requires t in states[i].sessions && states[i].sessions[t].busy && events[i].matching(t, states[i].sessions[t])
    ensures OnItsWayOut(states[j], states[i].sessions[t].conn)
  {
    Safety(states, events, i);
    BusyInUseAlways(states, events, i);
    assert Steps(states[i], events[i], states[i + 1]);
    DropStartsWayOut(states[i], events[i].matching, t);
    hide Inv, OnItsWayOut;
    WayOutLasts(states, events, i + 1, j, states[i].sessions[t].conn);
  }
}
