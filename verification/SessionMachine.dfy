/** Requests, the janitor, tab close and disconnect racing on the session tables.

A step is one critical section of sessMu together with the database work its
request does on its own connection since the previous one; steps of different
requests interleave freely.  An Acquire hands out a connection handle that was
never handed out before. */
module SessionMachine {
  import opened Wrappers
  import opened Sessions

  type RunId = nat

  datatype Request = Request(
    tab: Tab, pool: Pool, server: int, db: string, autocommit: bool,
    query: string,
    wantCursor: bool,  // one row-returning statement, run with the cursor toggle on
    nav: bool)         // a page of an earlier run

  datatype Phase =
    | Waiting                                    // for a pooled connection
    | Checking                                   // about to look for an open cursor of the tab
    | ClosingCursor(cur: Cursor)                 // inside endCursor, before its critical section
    | Paging                                     // at the start of renderCursorPage
    | Declaring(again: bool)                     // at the start of declareCursor
    | Opening(again: bool)                       // past its check for room
    | Fetching(cur: Cursor, again: bool)         // reading a page of the cursor
    | Executing                                  // running statements of its own
    | Finishing                                  // about to run the finish hook
    | Releasing(mustRollBack: bool)              // past it, the connection goes back

  datatype Run = Run(req: Request, sess: Option<nat>, conn: Option<ConnId>, phase: Phase)

  /** A session that takeSessions removed and endSessions works on. */
  datatype Ending = Ending(conn: ConnId, released: bool)

  /** How a connection went back to the pool. */
  datatype Return = Return(status: TxStatus, rolledBack: bool)

  datatype State = State(
    sessions: SessionMap,
    cursors: CursorMap,
    runs: map<RunId, Run>,
    batches: map<nat, map<Tab, Ending>>,  // what each takeSessions call returned
    tx: map<ConnId, TxStatus>,       // every handle handed out so far
    returned: map<ConnId, Return>,
    cursorTx: set<ConnId>,           // connections whose open transaction declareCursor began
    nextConn: ConnId,
    nextSession: nat,
    nextCursor: nat,
    nextBatch: nat)

  const START := State(map[], map[], map[], map[], map[], map[], {}, 0, 0, 0, 0)

  datatype AcquireOutcome = NoConnection | BeginFailed(status: TxStatus) | Acquired

  datatype Event =
    | Start(r: RunId, req: Request)
    | Acquire(r: RunId, outcome: AcquireOutcome)
    | CheckCursor(r: RunId)
    | CloseCursor(r: RunId, status: TxStatus)
    | FindCursor(r: RunId)
    | CheckRoom(r: RunId)
    | Declare(r: RunId, ok: bool, status: TxStatus)
    | Fetch(r: RunId, status: TxStatus)
    | FetchInvalid(r: RunId, status: TxStatus, ended: TxStatus)
    | Execute(r: RunId, status: TxStatus)
    | Done(r: RunId)
    | Finish(r: RunId, now: int)
    | Release(r: RunId)
    | Take(matching: (Tab, Session) -> bool, dropBusy: bool)
    | EndTaken(b: nat, t: Tab)
    | ForgetTaken(b: nat, t: Tab)

  // ---- When a step can happen ------------------------------------------------------

  predicate RunAt(s: State, r: RunId) {
    r in s.runs && s.runs[r].conn.Some? && s.runs[r].conn.value in s.tx
  }

  function ConnOf(s: State, r: RunId): ConnId
    requires RunAt(s, r)
  {
    s.runs[r].conn.value
  }

  function StatusOf(s: State, r: RunId): TxStatus
    requires RunAt(s, r)
  {
    s.tx[ConnOf(s, r)]
  }

  /** endSessions has not finished with this taken session. */
  predicate IsPending(s: State, b: nat, t: Tab) {
    b in s.batches && t in s.batches[b]
  }

  /** What a statement other than BEGIN, COMMIT or ROLLBACK can do to the status. */
  predicate CanBecome(before: TxStatus, after: TxStatus) {
    after == before || after == Closed || (before == InTx && after == Failed)
  }

  /** COMMIT and ROLLBACK, once sent, leave no transaction; the connection may break. */
  predicate IsEnded(after: TxStatus) {
    after == Idle || after == Closed
  }

  predicate Enabled(s: State, e: Event) {
    match e
    case Start(r, req) => r !in s.runs
    case Acquire(r, outcome) =>
      && r in s.runs && s.runs[r].phase == Waiting
      && (outcome.BeginFailed? ==> !s.runs[r].req.autocommit && IsEnded(outcome.status))
    case CheckCursor(r) => RunAt(s, r) && s.runs[r].phase == Checking
    case CloseCursor(r, status) =>
      && RunAt(s, r) && s.runs[r].phase.ClosingCursor?
      && (CanBecome(StatusOf(s, r), status) || (s.runs[r].phase.cur.ownsTx && IsEnded(status)))
    case FindCursor(r) => RunAt(s, r) && s.runs[r].phase == Paging
    case CheckRoom(r) => RunAt(s, r) && s.runs[r].phase.Declaring?
    case Declare(r, ok, status) =>
      && RunAt(s, r) && s.runs[r].phase.Opening?
      && (if ok then (StatusOf(s, r) == Idle || StatusOf(s, r) == InTx) && status == InTx
          else StatusOf(s, r) == Idle || CanBecome(StatusOf(s, r), status))
    case Fetch(r, status) =>
      RunAt(s, r) && s.runs[r].phase.Fetching? && CanBecome(StatusOf(s, r), status)
    case FetchInvalid(r, status, ended) =>
      && RunAt(s, r) && s.runs[r].phase.Fetching? && !s.runs[r].phase.again
      && CanBecome(StatusOf(s, r), status)
      && (CanBecome(status, ended) || (s.runs[r].phase.cur.ownsTx && IsEnded(ended)))
    case Execute(r, status) =>
      RunAt(s, r) && s.runs[r].phase == Executing && (StatusOf(s, r) == Closed ==> status == Closed)
    case Done(r) => RunAt(s, r) && s.runs[r].phase == Executing
    case Finish(r, now) => RunAt(s, r) && s.runs[r].phase == Finishing
    case Release(r) => RunAt(s, r) && s.runs[r].phase.Releasing?
    case Take(matching, dropBusy) => true
    case EndTaken(b, t) => IsPending(s, b, t) && !s.batches[b][t].released && s.batches[b][t].conn in s.tx
    case ForgetTaken(b, t) => IsPending(s, b, t) && s.batches[b][t].released
  }

  /** The COMMIT or ROLLBACK by which a run was to end a transaction that it opened for a
  cursor did not go out: a statement is not sent once its context is done, and the
  connection then stays in the transaction. */
  predicate EndNotSent(s: State, e: Event) {
    Enabled(s, e)
    && match e
       case Declare(r, ok, status) => !ok && StatusOf(s, r) == Idle && IsOpenTx(status)
       case CloseCursor(r, status) => s.runs[r].phase.cur.ownsTx && IsOpenTx(status)
       case FetchInvalid(r, status, ended) => s.runs[r].phase.cur.ownsTx && IsOpenTx(ended)
       case _ => false
  }

  // ---- What a step does ----------------------------------------------------------

  /** The run moves on, its connection has a new status, and the cursors may change. */
  function Move(s: State, r: RunId, phase: Phase, status: TxStatus, cursors: CursorMap, ownsTx: bool): State
    requires RunAt(s, r)
  {
    var c := ConnOf(s, r);
    s.(runs := s.runs[r := s.runs[r].(phase := phase)],
       tx := s.tx[c := status],
       cursors := cursors,
       cursorTx := if ownsTx then s.cursorTx + {c} else if IsEnded(status) then s.cursorTx - {c} else s.cursorTx)
  }

  /** What follows the closing of a foreign cursor in handleExecuteQuery. */
  function AfterCheck(req: Request): Phase {
    if req.wantCursor then Paging else Executing
  }

  /** A page of the open cursor's own query. */
  predicate IsPageOf(req: Request, cs: Cursor) {
    req.wantCursor && req.nav && cs.query == req.query
  }

  function AfterStart(s: State, r: RunId, req: Request): State
    requires r !in s.runs
  {
    var found := LookupResult(s.sessions, req.tab, req.pool, req.autocommit);
    match found
    case Reuse(sess) =>
      s.(sessions := AfterLookup(s.sessions, req.tab, found),
         runs := s.runs[r := Run(req, Some(sess.id), Some(sess.conn), Checking)])
    case NoSession => s.(runs := s.runs[r := Run(req, None, None, Waiting)])
    case TabBusy => s
    case TooManyOpen => s
  }

  function AfterAcquire(s: State, r: RunId, outcome: AcquireOutcome): State
    requires r in s.runs
  {
    var c, run := s.nextConn, s.runs[r];
    match outcome
    case NoConnection => s.(runs := s.runs - {r})
    case BeginFailed(status) =>
      s.(runs := s.runs - {r}, tx := s.tx[c := status], nextConn := c + 1,
         returned := s.returned[c := Return(status, false)])
    case Acquired =>
      s.(runs := s.runs[r := run.(conn := Some(c), phase := Checking)],
         tx := s.tx[c := if run.req.autocommit then Idle else InTx], nextConn := c + 1)
  }

  function AfterCheckCursor(s: State, r: RunId): State
    requires RunAt(s, r)
  {
    var run, c := s.runs[r], ConnOf(s, r);
    var cs := CursorOn(s.cursors, run.req.tab, c);
    var phase := if cs.Some? && !IsPageOf(run.req, cs.value) then ClosingCursor(cs.value) else AfterCheck(run.req);
    Move(s, r, phase, StatusOf(s, r), AfterCursorFor(s.cursors, run.req.tab, c), false)
  }

  function AfterFindCursor(s: State, r: RunId): State
    requires RunAt(s, r)
  {
    var run, c := s.runs[r], ConnOf(s, r);
    var cs := CursorOn(s.cursors, run.req.tab, c);
    var phase := if cs.Some? then Fetching(cs.value, false) else Declaring(false);
    Move(s, r, phase, StatusOf(s, r), AfterCursorFor(s.cursors, run.req.tab, c), false)
  }

  /** declareCursor refuses to open a transaction when no more may be pinned. */
  predicate NoRoom(s: State, r: RunId)
    requires RunAt(s, r)
  {
    StatusOf(s, r) == Idle && PinnedCount(s.sessions, s.runs[r].req.pool) >= MaxPinned(s.runs[r].req.pool)
  }

  function AfterDeclare(s: State, r: RunId, ok: bool, status: TxStatus): State
    requires RunAt(s, r) && s.runs[r].phase.Opening?
  {
    var run, c, owns := s.runs[r], ConnOf(s, r), StatusOf(s, r) == Idle;
    var cs := Cursor(s.nextCursor, run.req.query, c, owns);
    if ok then
      Move(s, r, Fetching(cs, run.phase.again), status, s.cursors[run.req.tab := cs], owns)
        .(nextCursor := s.nextCursor + 1)
    else Move(s, r, Finishing, status, s.cursors, owns && IsOpenTx(status))
  }

  function TicketOf(s: State, r: RunId): Ticket
    requires RunAt(s, r)
  {
    var run := s.runs[r];
    Ticket(run.req.tab, run.sess, ConnOf(s, r), run.req.pool, run.req.server, run.req.db)
  }

  function AfterFinishing(s: State, r: RunId, now: int): State
    requires RunAt(s, r)
  {
    var k, st := TicketOf(s, r), StatusOf(s, r);
    var s' := s.(sessions := AfterFinish(s.sessions, k, st, now, s.nextSession));
    if Keeps(s.sessions, k, st) then
      s'.(runs := s.runs - {r}, nextSession := if k.sess.None? then s.nextSession + 1 else s.nextSession)
    else s'.(runs := s.runs[r := s.runs[r].(phase := Releasing(IsOpenTx(st)))])
  }

  /** Back to the pool: a ROLLBACK first if asked for, then Release. */
  function HandBack(s: State, c: ConnId, rollBack: bool): State
    requires c in s.tx
  {
    s.(returned := s.returned[c := Return(s.tx[c], rollBack)], cursorTx := s.cursorTx - {c})
  }

  function AfterTaking(s: State, matching: (Tab, Session) -> bool, dropBusy: bool): State {
    var taken := Taken(s.sessions, matching);
    s.(sessions := AfterTake(s.sessions, matching, dropBusy),
       batches := s.batches[s.nextBatch := (map t | t in taken :: Ending(taken[t].conn, false))],
       nextBatch := s.nextBatch + 1)
  }

  function AfterRelease(s: State, r: RunId): State
    requires RunAt(s, r) && s.runs[r].phase.Releasing?
  {
    HandBack(s, ConnOf(s, r), s.runs[r].phase.mustRollBack).(runs := s.runs - {r})
  }

  function AfterEndTaken(s: State, b: nat, t: Tab): State
    requires IsPending(s, b, t) && s.batches[b][t].conn in s.tx
  {
    var ending := s.batches[b][t];
    HandBack(s, ending.conn, true).(batches := s.batches[b := s.batches[b][t := ending.(released := true)]])
  }

  function AfterForget(s: State, b: nat, t: Tab): State
    requires IsPending(s, b, t)
  {
    s.(batches := s.batches[b := s.batches[b] - {t}], cursors := s.cursors - {t})
  }

  function After(s: State, e: Event): State
    requires Enabled(s, e)
  {
    match e
    case Start(r, req) => AfterStart(s, r, req)
    case Acquire(r, outcome) => AfterAcquire(s, r, outcome)
    case CheckCursor(r) => AfterCheckCursor(s, r)
    case CloseCursor(r, status) =>
      var run := s.runs[r];
      Move(s, r, AfterCheck(run.req), status, AfterEndCursor(s.cursors, run.req.tab, run.phase.cur), false)
    case FindCursor(r) => AfterFindCursor(s, r)
    case CheckRoom(r) =>
      Move(s, r, if NoRoom(s, r) then Finishing else Opening(s.runs[r].phase.again), StatusOf(s, r), s.cursors, false)
    case Declare(r, ok, status) => AfterDeclare(s, r, ok, status)
    case Fetch(r, status) => Move(s, r, Finishing, status, s.cursors, false)
    case FetchInvalid(r, status, ended) =>
      var run := s.runs[r];
      Move(s, r, Declaring(true), ended, AfterEndCursor(s.cursors, run.req.tab, run.phase.cur), false)
    case Execute(r, status) => Move(s, r, Executing, status, s.cursors, false)
    case Done(r) => Move(s, r, Finishing, StatusOf(s, r), s.cursors, false)
    case Finish(r, now) => AfterFinishing(s, r, now)
    case Release(r) => AfterRelease(s, r)
    case Take(matching, dropBusy) => AfterTaking(s, matching, dropBusy)
    case EndTaken(b, t) => AfterEndTaken(s, b, t)
    case ForgetTaken(b, t) => AfterForget(s, b, t)
  }

  /** The steps in which a run moves on with the connection it has. */
  predicate IsMove(e: Event) {
    e.CheckCursor? || e.CloseCursor? || e.FindCursor? || e.CheckRoom? || e.Declare? || e.Fetch? || e.FetchInvalid?
    || e.Execute? || e.Done?
  }

  /** Such a step as an instance of Move, up to the numbering of cursors. */
  lemma MovedBy(s: State, e: Event)
    returns (r: RunId, phase: Phase, status: TxStatus, cursors: CursorMap, ownsTx: bool)
    requires Enabled(s, e) && IsMove(e)
    ensures RunAt(s, r) && r == e.r && After(s, e) == Move(s, r, phase, status, cursors, ownsTx).(nextCursor := After(s, e).nextCursor)
    ensures s.runs[r].phase != Waiting && !s.runs[r].phase.Releasing?
    ensures phase != Waiting && !phase.Releasing?
  {
    var s' := After(s, e);
    r := e.r;
    phase := s'.runs[r].phase;
    status := s'.tx[ConnOf(s, r)];
    cursors := s'.cursors;
    ownsTx := e.Declare? && StatusOf(s, r) == Idle && (e.ok || IsOpenTx(e.status));
  }

  /** What such a step leaves alone. */
  lemma MoveKeepsTheRest(s: State, e: Event)
    requires Enabled(s, e) && IsMove(e)
    ensures RunAt(s, e.r)
    ensures var s' := After(s, e);
            && s'.sessions == s.sessions && s'.batches == s.batches && s'.returned == s.returned && s'.tx.Keys == s.tx.Keys
            && s'.runs.Keys == s.runs.Keys && (forall q | q in s.runs && q != e.r :: s'.runs[q] == s.runs[q])
            && s'.runs[e.r] == s.runs[e.r].(phase := s'.runs[e.r].phase) && s.runs[e.r].phase != Waiting && !s.runs[e.r].phase.Releasing?
  {
    var r, phase, status, cursors, ownsTx := MovedBy(s, e);
    hide After, Enabled;
  }

  // ---- Runs of the machine -------------------------------------------------------

  /** A sequence of states from the start in which each is one step after the last. */
  ghost predicate IsTrace(states: seq<State>, events: seq<Event>) {
    && |states| == |events| + 1 && states[0] == START
    && forall i :: 0 <= i < |events| ==> Steps(states[i], events[i], states[i + 1])
  }

  ghost predicate Steps(s: State, e: Event, s': State) {
    Enabled(s, e) && s' == After(s, e)
  }
}
