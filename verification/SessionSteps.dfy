/** What a caller sees of each step, told by the fields of the request and the tables. */
module SessionSteps {
  import opened Wrappers
  import opened Sessions
  import opened SessionMachine

  /** All connections of the pool that may be pinned are: all but one, or the only one. */
  predicate IsFull(sessions: SessionMap, pool: Pool) {
    |set t | t in sessions && sessions[t].pool == pool| >= if pool.maxConns >= 2 then pool.maxConns - 1 else 1
  }

  lemma FullIsCounted(sessions: SessionMap, pool: Pool)
    ensures IsFull(sessions, pool) <==> PinnedCount(sessions, pool) >= MaxPinned(pool)
  {
    assert PinnedTabs(sessions, pool) == set t | t in sessions && sessions[t].pool == pool;
  }

  predicate IsInTx(status: TxStatus) {
    status == InTx || status == Failed
  }

  // ---- Getting a connection --------------------------------------------------------------------

  /** A request is refused if its tab's session is busy, or if it has none, wants a transaction and
  all sessions are taken; otherwise it reuses the tab's session or waits for a connection. */
  lemma StartOutcome(s: State, r: RunId, req: Request)
    requires Enabled(s, Start(r, req))
    ensures var s', t := After(s, Start(r, req)), req.tab;
            var known := t != "" && t in s.sessions;
            var refused := if known then s.sessions[t].busy else t != "" && !req.autocommit && IsFull(s.sessions, req.pool);
            s' == if refused then s
                  else if known then
                    s.(sessions := s.sessions[t := s.sessions[t].(busy := true)],
                       runs := s.runs[r := Run(req, Some(s.sessions[t].id), Some(s.sessions[t].conn), Checking)])
                  else s.(runs := s.runs[r := Run(req, None, None, Waiting)])
  {
    FullIsCounted(s.sessions, req.pool);
    hide PinnedCount, MaxPinned, IsFull;
  }

  /** With auto-commit off the new connection is inside a transaction before the run goes on; a
  BEGIN that fails gives the connection back. */
  lemma AcquireOutcome(s: State, r: RunId, outcome: AcquireOutcome)
    requires Enabled(s, Acquire(r, outcome))
    ensures var s', c := After(s, Acquire(r, outcome)), s.nextConn;
            match outcome
            case NoConnection => s' == s.(runs := s.runs - {r})
            case BeginFailed(status) =>
              && !s.runs[r].req.autocommit && r !in s'.runs && s'.sessions == s.sessions
              && s'.returned == s.returned[c := Return(status, false)]
            case Acquired =>
              && s'.runs == s.runs[r := s.runs[r].(conn := Some(c), phase := Checking)] && s'.sessions == s.sessions
              && s'.tx == s.tx[c := if s.runs[r].req.autocommit then Idle else InTx] && s'.returned == s.returned
  {
  }

  // ---- After the run ---------------------------------------------------------------------------

  /** The finish hook keeps a connection that is inside a transaction for its named tab, if the
  session the run began with is still the tab's, or if it began with none and there is room. */
  predicate IsKept(s: State, r: RunId)
    requires RunAt(s, r)
  {
    var run, c := s.runs[r], s.runs[r].conn.value;
    && IsInTx(s.tx[c]) && run.req.tab != ""
    && match run.sess
       case Some(id) => run.req.tab in s.sessions && s.sessions[run.req.tab].id == id
       case None => !IsFull(s.sessions, run.req.pool)
  }

  lemma KeptIsKeeps(s: State, r: RunId)
    requires RunAt(s, r)
    ensures IsKept(s, r) <==> Keeps(s.sessions, TicketOf(s, r), StatusOf(s, r))
  {
    FullIsCounted(s.sessions, s.runs[r].req.pool);
    hide PinnedCount, MaxPinned, IsFull;
  }

  /** A kept connection is the tab's and not busy, with its state on record; any other run goes on to
  give its connection back, with a ROLLBACK if it is inside a transaction. */
  lemma FinishOutcome(s: State, r: RunId, now: int)
    requires Enabled(s, Finish(r, now))
    ensures var s', run, c := After(s, Finish(r, now)), s.runs[r], s.runs[r].conn.value;
            var t, state := run.req.tab, if s.tx[c] == Failed then Aborted else Active;
            if IsKept(s, r) then
              && s'.runs == s.runs - {r} && t in s'.sessions
              && s'.sessions == s.sessions[t := s'.sessions[t]]
              && s'.sessions[t].state == state && s'.sessions[t].lastUsed == now && !s'.sessions[t].busy
              && (run.sess.Some? ==> s'.sessions[t].conn == s.sessions[t].conn && s'.sessions[t].id == s.sessions[t].id)
              && (run.sess.None? ==> s'.sessions[t] == Session(s.nextSession, c, run.req.pool, run.req.server, run.req.db, state, now, false))
            else
              && s'.runs == s.runs[r := run.(phase := Releasing(IsInTx(s.tx[c])))]
              && s'.sessions == if run.sess.Some? && t in s.sessions && s.sessions[t].id == run.sess.value then s.sessions - {t} else s.sessions
  {
    KeptIsKeeps(s, r);
    hide IsKept, Keeps;
  }

  /** The tab is told of a refusal exactly if its open transaction was not kept for want of room. */
  lemma RefusedExactlyWhenFull(sessions: SessionMap, k: Ticket, st: TxStatus)
    ensures RefusedForRoom(sessions, k, st) <==> IsInTx(st) && k.tab != "" && k.sess.None? && IsFull(sessions, k.pool)
  {
    FullIsCounted(sessions, k.pool);
    hide PinnedCount, MaxPinned, IsFull;
  }

  lemma ReleaseOutcome(s: State, r: RunId)
    requires Enabled(s, Release(r))
    ensures var s', run, c := After(s, Release(r)), s.runs[r], s.runs[r].conn.value;
            s'.runs == s.runs - {r} && s'.sessions == s.sessions && s'.returned == s.returned[c := Return(s.tx[c], run.phase.mustRollBack)]
  {
  }

  // ---- Ending sessions ---------------------------------------------------------------------------

  /** Of the matching sessions the idle ones are taken to be ended, the busy ones only leave the table,
  and only if that is asked for; no other session is touched. */
  lemma TakeOutcome(s: State, matching: (Tab, Session) -> bool, dropBusy: bool, t: Tab)
    ensures var s', b := After(s, Take(matching, dropBusy)), s.nextBatch;
            var hit := t in s.sessions && matching(t, s.sessions[t]);
            && b in s'.batches
            && (t in s'.batches[b] <==> hit && !s.sessions[t].busy)
            && (t in s'.batches[b] ==> s'.batches[b][t] == Ending(s.sessions[t].conn, false))
            && (t in s'.sessions <==> t in s.sessions && !(hit && (!s.sessions[t].busy || dropBusy)))
            && (t in s'.sessions ==> s'.sessions[t] == s.sessions[t])
            && s'.runs == s.runs && s'.cursors == s.cursors
  {
  }

  /** A taken session is rolled back and given back, then its tab's cursor entry goes. */
  lemma EndingOutcome(s: State, b: nat, t: Tab)
    ensures Enabled(s, EndTaken(b, t)) ==>
              var s', c := After(s, EndTaken(b, t)), s.batches[b][t].conn;
              && s'.returned == s.returned[c := Return(s.tx[c], true)]
              && s'.batches == s.batches[b := s.batches[b][t := Ending(c, true)]] && s'.cursors == s.cursors
    ensures Enabled(s, ForgetTaken(b, t)) ==>
              var s' := After(s, ForgetTaken(b, t));
              s'.cursors == s.cursors - {t} && s'.batches == s.batches[b := s.batches[b] - {t}] && s'.returned == s.returned
  {
  }

  // ---- The cursor of the tab -----------------------------------------------------------------------

  /** The tab's cursor on this run's connection. */
  predicate HasCursor(s: State, r: RunId, cs: Cursor)
    requires RunAt(s, r)
  {
    var t := s.runs[r].req.tab;
    t in s.cursors && s.cursors[t] == cs && cs.conn == s.runs[r].conn.value
  }

  /** At its check a run that is a page of the open cursor's own query goes on with it; any other run
  that finds a cursor closes it first.  An entry on another connection goes. */
  lemma CheckOutcome(s: State, r: RunId)
    requires Enabled(s, CheckCursor(r))
    ensures var s', run, c := After(s, CheckCursor(r)), s.runs[r], s.runs[r].conn.value;
            var t, req := run.req.tab, run.req;
            && s'.tx == s.tx && s'.sessions == s.sessions
            && (forall cs | HasCursor(s, r, cs) ::
                  s'.runs[r].phase == if req.wantCursor && req.nav && cs.query == req.query then Paging else ClosingCursor(cs))
            && ((forall cs :: !HasCursor(s, r, cs)) ==> s'.runs[r].phase == if req.wantCursor then Paging else Executing)
            && s'.cursors == if t in s.cursors && s.cursors[t].conn != c then s.cursors - {t} else s.cursors
  {
    assert forall cs | HasCursor(s, r, cs) :: cs == s.cursors[s.runs[r].req.tab];
    if s.runs[r].req.tab in s.cursors {
      assert HasCursor(s, r, s.cursors[s.runs[r].req.tab]) <==> s.cursors[s.runs[r].req.tab].conn == s.runs[r].conn.value;
    }
  }

  /** Closing a cursor takes its own entry away and no other; then the run goes its way. */
  lemma CloseOutcome(s: State, r: RunId, status: TxStatus)
    requires Enabled(s, CloseCursor(r, status))
    ensures var s', run, c := After(s, CloseCursor(r, status)), s.runs[r], s.runs[r].conn.value;
            var t := run.req.tab;
            && s'.runs[r].phase == (if run.req.wantCursor then Paging else Executing) && s'.tx == s.tx[c := status]
            && s'.cursors == if t in s.cursors && s.cursors[t] == run.phase.cur then s.cursors - {t} else s.cursors
  {
  }

  /** A page is read from the cursor that is there, or one is declared. */
  lemma FindOutcome(s: State, r: RunId)
    requires Enabled(s, FindCursor(r))
    ensures var s' := After(s, FindCursor(r));
            && (forall cs | HasCursor(s, r, cs) :: s'.runs[r].phase == Fetching(cs, false))
            && ((forall cs :: !HasCursor(s, r, cs)) ==> s'.runs[r].phase == Declaring(false))
  {
    assert forall cs | HasCursor(s, r, cs) :: cs == s.cursors[s.runs[r].req.tab];
    if s.runs[r].req.tab in s.cursors {
      assert HasCursor(s, r, s.cursors[s.runs[r].req.tab]) <==> s.cursors[s.runs[r].req.tab].conn == s.runs[r].conn.value;
    }
  }

  /** Only a cursor that has to open a transaction needs room, and is refused if there is none. */
  lemma RoomOutcome(s: State, r: RunId)
    requires Enabled(s, CheckRoom(r))
    ensures var s', run, c := After(s, CheckRoom(r)), s.runs[r], s.runs[r].conn.value;
            s'.runs[r].phase == if s.tx[c] == Idle && IsFull(s.sessions, run.req.pool) then Finishing else Opening(run.phase.again)
  {
    FullIsCounted(s.sessions, s.runs[r].req.pool);
    hide PinnedCount, MaxPinned, IsFull;
  }

  /** A declared cursor is the tab's, for the query of the run on its connection, and owns the
  transaction exactly if none was open; a DECLARE that fails ends the run and leaves the cursors alone. */
  lemma DeclareOutcome(s: State, r: RunId, ok: bool, status: TxStatus)
    requires Enabled(s, Declare(r, ok, status))
    ensures var s', run, c := After(s, Declare(r, ok, status)), s.runs[r], s.runs[r].conn.value;
            var cs := Cursor(s.nextCursor, run.req.query, c, s.tx[c] == Idle);
            if ok then s'.cursors == s.cursors[run.req.tab := cs] && s'.runs[r].phase == Fetching(cs, run.phase.again) && s'.tx[c] == InTx
            else s'.cursors == s.cursors && s'.runs[r].phase == Finishing
  {
  }

  /** A cursor that turns out to be gone is closed and declared again, once. */
  lemma FetchOutcome(s: State, r: RunId, status: TxStatus, ended: TxStatus)
    ensures Enabled(s, Fetch(r, status)) ==>
              var s' := After(s, Fetch(r, status));
              s'.runs[r].phase == Finishing && s'.cursors == s.cursors && s'.tx == s.tx[s.runs[r].conn.value := status]
    ensures Enabled(s, FetchInvalid(r, status, ended)) ==>
              var s', run := After(s, FetchInvalid(r, status, ended)), s.runs[r];
              var t := run.req.tab;
              && !run.phase.again && s'.runs[r].phase == Declaring(true) && s'.tx == s.tx[run.conn.value := ended]
              && s'.cursors == if t in s.cursors && s.cursors[t] == run.phase.cur then s.cursors - {t} else s.cursors
  {
  }

  /** A run without a cursor executes any number of statements and then ends; the cursors stay. */
  lemma ExecuteOutcome(s: State, r: RunId, status: TxStatus)
    ensures Enabled(s, Execute(r, status)) ==>
              var s' := After(s, Execute(r, status));
              s'.runs == s.runs && s'.cursors == s.cursors && s'.sessions == s.sessions && s'.tx == s.tx[s.runs[r].conn.value := status]
    ensures Enabled(s, Done(r)) ==>
              var s' := After(s, Done(r));
              s'.runs == s.runs[r := s.runs[r].(phase := Finishing)] && s'.cursors == s.cursors && s'.tx == s.tx
  {
    if Enabled(s, Execute(r, status)) {
      assert s.runs[r := s.runs[r].(phase := Executing)] == s.runs;
    }
    if Enabled(s, Done(r)) {
      assert s.tx[s.runs[r].conn.value := s.tx[s.runs[r].conn.value]] == s.tx;
    }
  }
}
