/** Whole interleavings that break the law of CursorLaws, one for each of its hypotheses:
the run they end in executes a statement of its own inside a transaction that was opened
for a cursor. */
module CursorTraces {
  import opened Wrappers
  import opened Sessions
  import opened SessionMachine
  import opened CursorLaws
  import opened SessionFates

  // ---- Reaching a state --------------------------------------------------------------------

  /** Which hypotheses an interleaving keeps. */
  datatype Kept = Kept(oneRun: bool, atomic: bool, sent: bool)

  ghost predicate Meets(k: Kept, s: State) {
    (k.oneRun ==> OneRunPerTab(s)) && (k.atomic ==> EndingIsAtomic(s))
  }

  ghost predicate IsPath(k: Kept, states: seq<State>, events: seq<Event>) {
    && IsTrace(states, events)
    && (forall i :: 0 <= i < |states| ==> Meets(k, states[i]))
    && (k.sent ==> forall i :: 0 <= i < |events| ==> !EndNotSent(states[i], events[i]))
  }

  ghost predicate Reached(k: Kept, s: State) {
    exists states, events :: IsPath(k, states, events) && states[|states| - 1] == s
  }

  lemma StartIsReached(k: Kept)
    ensures Reached(k, START)
  {
    assert IsPath(k, [START], []);
    assert [START][|[START]| - 1] == START;
  }

  lemma StepIsReached(k: Kept, s: State, e: Event, s': State)
    requires Reached(k, s) && Steps(s, e, s') && Meets(k, s') && (k.sent ==> !EndNotSent(s, e))
    ensures Reached(k, s')
  {
    hide Enabled, After, Meets, EndNotSent;
    var states, events :| IsPath(k, states, events) && states[|states| - 1] == s;
    assert IsPath(k, states + [s'], events + [e]) by {
      forall i | 0 <= i < |events + [e]| ensures Steps((states + [s'])[i], (events + [e])[i], (states + [s'])[i + 1]) {
        if i < |events| {
          assert Steps(states[i], events[i], states[i + 1]);
        }
      }
    }
    assert (states + [s'])[|states + [s']| - 1] == s';
  }

  // ---- One run with a cursor, from start to pinned session ------------------------------------

  const PAGED := Request("t", POOL, 1, "db", true, "select 1", true, false)
  const PLAIN := Request("t", POOL, 1, "db", true, "select 2", false, false)

  /** Nobody is in the tab, no session is registered, and the next handle is new. */
  ghost predicate IsQuiet(k: Kept, s: State) {
    && s.sessions == map[] && s.runs == map[]
    && s.nextConn !in s.tx && s.nextConn !in s.cursorTx
    && ("t" in s.cursors ==> s.cursors["t"].conn != s.nextConn)
    && (k.atomic ==> forall b :: b in s.batches ==> "t" !in s.batches[b])
  }

  lemma OneRunMeets(k: Kept, s: State, r: RunId)
    requires s.runs.Keys <= {r} && (r in s.runs ==> s.runs[r].req.tab == "t")
    requires k.atomic ==> forall b :: b in s.batches ==> "t" !in s.batches[b]
    ensures Meets(k, s)
  {
  }

  function RunIn(r: RunId, sess: Option<nat>, conn: Option<ConnId>, req: Request, phase: Phase): map<RunId, Run> {
    map[r := Run(req, sess, conn, phase)]
  }

  function CursorOf(s: State): Cursor {
    Cursor(s.nextCursor, "select 1", s.nextConn, true)
  }

  /** The run has its connection and is about to look for a cursor. */
  function Acquired1(s: State, r: RunId, phase: Phase): State {
    s.(runs := RunIn(r, None, Some(s.nextConn), PAGED, phase), tx := s.tx[s.nextConn := Idle], nextConn := s.nextConn + 1)
  }

  /** It found none. */
  function NoCursor(s: State, r: RunId, phase: Phase): State {
    Acquired1(s, r, phase).(cursors := s.cursors - {"t"})
  }

  function Begun(s: State, r: RunId, sess: Option<nat>): State {
    s.(runs := RunIn(r, sess, None, PAGED, Waiting))
  }

  lemma PagedRunStarts(s: State, r: RunId)
    requires s.sessions == map[] && s.runs == map[] && s.nextConn !in s.tx
    ensures Steps(s, Start(r, PAGED), Begun(s, r, None))
    ensures Steps(Begun(s, r, None), Acquire(r, Acquired), Acquired1(s, r, Checking))
  {
    hide PinnedCount;
    NothingPinned();
  }

  /** A move of the run on its idle connection. */
  lemma IdleMove(s: State, r: RunId, phase: Phase, next: Phase, cursors: CursorMap)
    requires s.nextConn !in s.cursorTx
    ensures var now := Acquired1(s, r, phase);
            Move(now.(cursors := cursors), r, next, Idle, cursors, false) == Acquired1(s, r, next).(cursors := cursors)
  {
    assert RunIn(r, None, Some(s.nextConn), PAGED, phase)[r := Run(PAGED, None, Some(s.nextConn), next)]
        == RunIn(r, None, Some(s.nextConn), PAGED, next);
    assert s.cursorTx - {s.nextConn} == s.cursorTx;
  }

  lemma PagedRunFindsNothing(s: State, r: RunId)
    requires s.nextConn !in s.cursorTx && ("t" in s.cursors ==> s.cursors["t"].conn != s.nextConn)
    ensures Steps(Acquired1(s, r, Checking), CheckCursor(r), NoCursor(s, r, Paging))
    ensures Steps(NoCursor(s, r, Paging), FindCursor(r), NoCursor(s, r, Declaring(false)))
  {
    var left := s.cursors - {"t"};
    assert "t" !in s.cursors ==> left == s.cursors;
    IdleMove(s, r, Checking, Paging, left);
    IdleMove(s, r, Paging, Declaring(false), left);
    var s2 := Acquired1(s, r, Checking);
    assert Move(s2, r, Paging, Idle, left, false) == Move(s2.(cursors := left), r, Paging, Idle, left, false);
  }

  lemma PagedRunHasRoom(s: State, r: RunId)
    requires s.nextConn !in s.cursorTx && s.sessions == map[]
    ensures Steps(NoCursor(s, r, Declaring(false)), CheckRoom(r), NoCursor(s, r, Opening(false)))
  {
    hide PinnedCount;
    NothingPinned();
    IdleMove(s, r, Declaring(false), Opening(false), s.cursors - {"t"});
  }

  lemma RunOpens(k: Kept, s: State, r: RunId)
    requires Reached(k, s) && IsQuiet(k, s)
    ensures Reached(k, NoCursor(s, r, Opening(false)))
  {
    PagedRunStarts(s, r);
    PagedRunFindsNothing(s, r);
    PagedRunHasRoom(s, r);
    OneRunMeets(k, Begun(s, r, None), r);
    OneRunMeets(k, Acquired1(s, r, Checking), r);
    OneRunMeets(k, NoCursor(s, r, Paging), r);
    OneRunMeets(k, NoCursor(s, r, Declaring(false)), r);
    OneRunMeets(k, NoCursor(s, r, Opening(false)), r);
    NoEnding(s, r);
    hide *;
    StepIsReached(k, s, Start(r, PAGED), Begun(s, r, None));
    StepIsReached(k, Begun(s, r, None), Acquire(r, Acquired), Acquired1(s, r, Checking));
    StepIsReached(k, Acquired1(s, r, Checking), CheckCursor(r), NoCursor(s, r, Paging));
    StepIsReached(k, NoCursor(s, r, Paging), FindCursor(r), NoCursor(s, r, Declaring(false)));
    StepIsReached(k, NoCursor(s, r, Declaring(false)), CheckRoom(r), NoCursor(s, r, Opening(false)));
  }

  /** None of these steps is to end a transaction. */
  lemma NoEnding(s: State, r: RunId)
    ensures !EndNotSent(s, Start(r, PAGED)) && !EndNotSent(Begun(s, r, None), Acquire(r, Acquired))
    ensures !EndNotSent(Acquired1(s, r, Checking), CheckCursor(r)) && !EndNotSent(NoCursor(s, r, Paging), FindCursor(r))
    ensures !EndNotSent(NoCursor(s, r, Declaring(false)), CheckRoom(r))
  {
    hide Enabled;
  }

  /** The cursor is declared and the run is on its connection. */
  function Opened(s: State, r: RunId, phase: Phase): State {
    NoCursor(s, r, phase).(tx := s.tx[s.nextConn := InTx], cursors := s.cursors["t" := CursorOf(s)],
                           cursorTx := s.cursorTx + {s.nextConn}, nextCursor := s.nextCursor + 1)
  }

  function SessionOn(s: State): Session {
    Session(s.nextSession, s.nextConn, POOL, 1, "db", Active, 0, false)
  }

  /** The run is over and its connection pinned, with the cursor on record. */
  function PinnedWithCursor(s: State, r: RunId): State {
    Opened(s, r, Finishing).(runs := map[], sessions := map["t" := SessionOn(s)], nextSession := s.nextSession + 1)
  }

  lemma CursorOpens(s: State, r: RunId)
    requires s.nextConn !in s.cursorTx
    ensures Move(NoCursor(s, r, Opening(false)), r, Fetching(CursorOf(s), false), InTx, s.cursors["t" := CursorOf(s)], true).(nextCursor := s.nextCursor + 1)
         == Opened(s, r, Fetching(CursorOf(s), false))
  {
    var runs := RunIn(r, None, Some(s.nextConn), PAGED, Opening(false));
    assert runs[r := Run(PAGED, None, Some(s.nextConn), Fetching(CursorOf(s), false))]
        == RunIn(r, None, Some(s.nextConn), PAGED, Fetching(CursorOf(s), false));
    assert s.tx[s.nextConn := Idle][s.nextConn := InTx] == s.tx[s.nextConn := InTx];
  }

  lemma DeclareIsEnabled(s: State, r: RunId)
    ensures var now := NoCursor(s, r, Opening(false));
            && Enabled(now, Declare(r, true, InTx))
            && After(now, Declare(r, true, InTx))
               == Move(now, r, Fetching(CursorOf(s), false), InTx, s.cursors["t" := CursorOf(s)], true).(nextCursor := s.nextCursor + 1)
  {
    var now := NoCursor(s, r, Opening(false));
    assert RunAt(now, r) && StatusOf(now, r) == Idle && ConnOf(now, r) == s.nextConn;
    assert (s.cursors - {"t"})["t" := CursorOf(s)] == s.cursors["t" := CursorOf(s)];
    hide Move;
  }

  lemma PagedRunDeclares(s: State, r: RunId)
    requires s.nextConn !in s.cursorTx
    ensures Steps(NoCursor(s, r, Opening(false)), Declare(r, true, InTx), Opened(s, r, Fetching(CursorOf(s), false)))
  {
    hide Opened, NoCursor, Enabled;
    CursorOpens(s, r);
    DeclareIsEnabled(s, r);
  }

  lemma PagedRunReads(s: State, r: RunId)
    ensures Steps(Opened(s, r, Fetching(CursorOf(s), false)), Fetch(r, InTx), Opened(s, r, Finishing))
  {
    var runs := RunIn(r, None, Some(s.nextConn), PAGED, Fetching(CursorOf(s), false));
    assert runs[r := Run(PAGED, None, Some(s.nextConn), Finishing)] == RunIn(r, None, Some(s.nextConn), PAGED, Finishing);
    assert s.tx[s.nextConn := InTx][s.nextConn := InTx] == s.tx[s.nextConn := InTx];
  }

  lemma PagedRunPins(s: State, r: RunId)
    requires s.sessions == map[]
    ensures Steps(Opened(s, r, Finishing), Finish(r, 0), PinnedWithCursor(s, r))
  {
    hide PinnedCount;
    NothingPinned();
    assert Opened(s, r, Finishing).runs - {r} == map[];
  }

  /** A run with a cursor, from a quiet state to the pinned session. */
  lemma RunPins(k: Kept, s: State, r: RunId)
    requires Reached(k, s) && IsQuiet(k, s)
    ensures Reached(k, Opened(s, r, Finishing)) && Reached(k, PinnedWithCursor(s, r))
  {
    RunOpens(k, s, r);
    PagedRunDeclares(s, r);
    PagedRunReads(s, r);
    PagedRunPins(s, r);
    OneRunMeets(k, Opened(s, r, Fetching(CursorOf(s), false)), r);
    OneRunMeets(k, Opened(s, r, Finishing), r);
    OneRunMeets(k, PinnedWithCursor(s, r), r);
    NoEndingInDeclare(s, r);
    hide *;
    StepIsReached(k, NoCursor(s, r, Opening(false)), Declare(r, true, InTx), Opened(s, r, Fetching(CursorOf(s), false)));
    StepIsReached(k, Opened(s, r, Fetching(CursorOf(s), false)), Fetch(r, InTx), Opened(s, r, Finishing));
    StepIsReached(k, Opened(s, r, Finishing), Finish(r, 0), PinnedWithCursor(s, r));
  }

  lemma NoEndingInDeclare(s: State, r: RunId)
    ensures !EndNotSent(NoCursor(s, r, Opening(false)), Declare(r, true, InTx))
    ensures !EndNotSent(Opened(s, r, Fetching(CursorOf(s), false)), Fetch(r, InTx))
    ensures !EndNotSent(Opened(s, r, Finishing), Finish(r, 0))
  {
    hide Enabled;
  }

  // ---- A statement inside the cursor's transaction ----------------------------------------------

  /** A run executes a statement of its own inside a transaction opened for a cursor. */
  ghost predicate ExecutesInside(s: State) {
    exists r :: r in s.runs && s.runs[r].phase == Executing && s.runs[r].conn.Some? && s.runs[r].conn.value in s.cursorTx
  }

  ghost predicate CanExecuteInside(k: Kept) {
    exists states, events :: IsPath(k, states, events) && ExecutesInside(states[|states| - 1])
  }

  lemma ReachedInside(k: Kept, s: State)
    requires Reached(k, s) && ExecutesInside(s)
    ensures CanExecuteInside(k)
  {
    hide ExecutesInside, OneRunPerTab, EndingIsAtomic;
    var states, events :| IsPath(k, states, events) && states[|states| - 1] == s;
    assert IsPath(k, states, events) && ExecutesInside(states[|states| - 1]);
  }

  /** The tab's session is pinned inside the transaction, and no cursor is on record for it. */
  ghost predicate IsUnowned(s: State, x: Session) {
    && s.sessions == map["t" := x] && !x.busy && x.conn in s.tx && s.tx[x.conn] == InTx && x.conn in s.cursorTx
    && "t" !in s.cursors
  }

  function Reusing(s: State, x: Session, r: RunId, phase: Phase): State {
    s.(sessions := map["t" := x.(busy := true)], runs := s.runs[r := Run(PLAIN, Some(x.id), Some(x.conn), phase)])
  }

  lemma PlainRunSteps(s: State, x: Session, r: RunId)
    requires IsUnowned(s, x) && r !in s.runs
    ensures Steps(s, Start(r, PLAIN), Reusing(s, x, r, Checking))
    ensures Steps(Reusing(s, x, r, Checking), CheckCursor(r), Reusing(s, x, r, Executing))
    ensures !EndNotSent(s, Start(r, PLAIN)) && !EndNotSent(Reusing(s, x, r, Checking), CheckCursor(r))
    ensures ExecutesInside(Reusing(s, x, r, Executing))
  {
    hide PinnedCount, MaxPinned;
    var s1 := Reusing(s, x, r, Checking);
    assert s.sessions["t" := x.(busy := true)] == map["t" := x.(busy := true)];
    assert s1.runs[r := s1.runs[r].(phase := Executing)] == Reusing(s, x, r, Executing).runs;
    assert s1.tx[x.conn := InTx] == s1.tx;
    assert r in Reusing(s, x, r, Executing).runs;
  }

  /** From such a state the tab's next run executes inside the transaction. */
  lemma PlainRunExecutes(k: Kept, s: State, x: Session, r: RunId)
    requires Reached(k, s) && IsUnowned(s, x) && r !in s.runs
    requires Meets(k, Reusing(s, x, r, Checking)) && Meets(k, Reusing(s, x, r, Executing))
    ensures CanExecuteInside(k)
  {
    PlainRunSteps(s, x, r);
    hide *;
    StepIsReached(k, s, Start(r, PLAIN), Reusing(s, x, r, Checking));
    StepIsReached(k, Reusing(s, x, r, Checking), CheckCursor(r), Reusing(s, x, r, Executing));
    ReachedInside(k, Reusing(s, x, r, Executing));
  }

  // ---- The late delete of endSessions --------------------------------------------------------------

  const EVERY_TAB: (Tab, Session) -> bool := (t, x) => true

  /** The first session is taken ... */
  function TakenOnce(): State {
    PinnedWithCursor(START, 0).(sessions := map[], batches := map[0 := map["t" := Ending(0, false)]], nextBatch := 1)
  }

  /** ... and rolled back and returned, with its cursor still on record. */
  function EndedOnce(): State {
    TakenOnce().(batches := map[0 := map["t" := Ending(0, true)]], returned := map[0 := Return(InTx, true)], cursorTx := {})
  }

  /** The tab has pinned a session with a cursor of its own when the entry is deleted. */
  function Forgotten(): State {
    PinnedWithCursor(EndedOnce(), 1).(batches := map[0 := map[]], cursors := map[])
  }

  lemma TakeStep()
    ensures Steps(PinnedWithCursor(START, 0), Take(EVERY_TAB, false), TakenOnce())
  {
    var s := PinnedWithCursor(START, 0);
    var taken := Taken(s.sessions, EVERY_TAB);
    assert taken == map["t" := SessionOn(START)];
    assert AfterTake(s.sessions, EVERY_TAB, false) == map[];
    assert (map t | t in taken :: Ending(taken[t].conn, false)) == map["t" := Ending(0, false)];
  }

  lemma EndStep()
    ensures Steps(TakenOnce(), EndTaken(0, "t"), EndedOnce())
  {
    var s := TakenOnce();
    assert s.batches == map[0 := map["t" := Ending(0, false)]] && s.tx == map[0 := InTx] && s.returned == map[] && s.cursorTx == {0};
    assert s.batches[0]["t" := Ending(0, true)] == map["t" := Ending(0, true)];
    hide PinnedWithCursor;
  }

  lemma ForgetEmpties(s: State)
    requires s.batches == map[0 := map["t" := Ending(0, true)]] && s.cursors.Keys == {"t"}
    ensures Steps(s, ForgetTaken(0, "t"), s.(batches := map[0 := map[]], cursors := map[]))
  {
    assert s.batches[0] - {"t"} == map[] && s.cursors - {"t"} == map[];
  }

  lemma ForgetStep()
    ensures Steps(PinnedWithCursor(EndedOnce(), 1), ForgetTaken(0, "t"), Forgotten())
  {
    var s := PinnedWithCursor(EndedOnce(), 1);
    assert s.batches == map[0 := map["t" := Ending(0, true)]] && s.cursors.Keys == {"t"};
    assert Forgotten() == s.(batches := map[0 := map[]], cursors := map[]);
    hide PinnedWithCursor, EndedOnce, Forgotten;
    ForgetEmpties(s);
  }

  lemma NobodyThere(k: Kept, s: State)
    requires s.runs == map[]
    ensures Meets(k, s)
  {
  }

  lemma LateDeleteStates()
    ensures IsQuiet(Kept(true, false, true), START) && IsQuiet(Kept(true, false, true), EndedOnce())
    ensures EndedOnce().runs == map[] && TakenOnce().runs == map[] && Forgotten().runs == map[]
    ensures IsUnowned(Forgotten(), SessionOn(EndedOnce()))
  {
  }

  /** Without atomic ending: the tab ends one paged run, starts another while its first session
  is being ended, and the late delete takes the second cursor off the record. */
  lemma LateDeleteLetsAStatementIn()
    ensures CanExecuteInside(Kept(true, false, true))
  {
    var k := Kept(true, false, true);
    var x := SessionOn(EndedOnce());
    LateDeleteStates();
    OneRunMeets(k, Reusing(Forgotten(), x, 2, Checking), 2);
    OneRunMeets(k, Reusing(Forgotten(), x, 2, Executing), 2);
    hide *;
    NobodyThere(k, TakenOnce());
    NobodyThere(k, EndedOnce());
    NobodyThere(k, Forgotten());
    StartIsReached(k);
    RunPins(k, START, 0);
    TakeStep();
    NoEndingInTake();
    StepIsReached(k, PinnedWithCursor(START, 0), Take(EVERY_TAB, false), TakenOnce());
    EndStep();
    StepIsReached(k, TakenOnce(), EndTaken(0, "t"), EndedOnce());
    RunPins(k, EndedOnce(), 1);
    ForgetStep();
    StepIsReached(k, PinnedWithCursor(EndedOnce(), 1), ForgetTaken(0, "t"), Forgotten());
    assert 2 !in Forgotten().runs;
    PlainRunExecutes(k, Forgotten(), x, 2);
  }

  lemma NoEndingInTake()
    ensures !EndNotSent(PinnedWithCursor(START, 0), Take(EVERY_TAB, false))
    ensures !EndNotSent(TakenOnce(), EndTaken(0, "t"))
    ensures !EndNotSent(PinnedWithCursor(EndedOnce(), 1), ForgetTaken(0, "t"))
  {
    hide Enabled;
  }

  // ---- A ROLLBACK that is not sent -------------------------------------------------------------------

  /** declareCursor has begun a transaction, its DECLARE failed, and the ROLLBACK did not go out. */
  function DeclareFailed(): State {
    NoCursor(START, 0, Finishing).(tx := map[0 := InTx], cursorTx := {0})
  }

  function PinnedWithoutCursor(): State {
    DeclareFailed().(runs := map[], sessions := map["t" := SessionOn(START)], nextSession := 1)
  }

  lemma FailedDeclareSteps()
    ensures Steps(NoCursor(START, 0, Opening(false)), Declare(0, false, InTx), DeclareFailed())
  {
    var runs := RunIn(0, None, Some(0), PAGED, Opening(false));
    assert runs[0 := Run(PAGED, None, Some(0), Finishing)] == RunIn(0, None, Some(0), PAGED, Finishing);
  }

  lemma FailedRunPins()
    ensures Steps(DeclareFailed(), Finish(0, 0), PinnedWithoutCursor())
    ensures IsUnowned(PinnedWithoutCursor(), SessionOn(START))
  {
    hide PinnedCount;
    NothingPinned();
    assert DeclareFailed().runs - {0} == map[];
  }

  /** Without every ROLLBACK sent: the finish hook pins the transaction that declareCursor
  began and could not end, and the tab's next statement executes inside it. */
  lemma UnsentRollbackLetsAStatementIn()
    ensures CanExecuteInside(Kept(true, true, false))
  {
    var k := Kept(true, true, false);
    var s, x := PinnedWithoutCursor(), SessionOn(START);
    assert IsQuiet(k, START) && s.runs == map[] && s.batches == map[];
    OneRunMeets(k, DeclareFailed(), 0);
    OneRunMeets(k, s, 0);
    OneRunMeets(k, Reusing(s, x, 1, Checking), 1);
    OneRunMeets(k, Reusing(s, x, 1, Executing), 1);
    hide *;
    StartIsReached(k);
    RunOpens(k, START, 0);
    FailedDeclareSteps();
    StepIsReached(k, NoCursor(START, 0, Opening(false)), Declare(0, false, InTx), DeclareFailed());
    FailedRunPins();
    StepIsReached(k, DeclareFailed(), Finish(0, 0), s);
    PlainRunExecutes(k, s, x, 1);
  }

  // ---- A COMMIT that is not sent ----------------------------------------------------------------------

  function Closing(phase: Phase): State {
    Reusing(PinnedWithCursor(START, 0), SessionOn(START), 1, phase)
  }

  lemma ReuseStep()
    ensures Steps(PinnedWithCursor(START, 0), Start(1, PLAIN), Closing(Checking))
  {
    hide PinnedCount, MaxPinned;
    var x := SessionOn(START);
    assert map["t" := x]["t" := x.(busy := true)] == map["t" := x.(busy := true)];
  }

  lemma FindsForeignCursor()
    ensures Steps(Closing(Checking), CheckCursor(1), Closing(ClosingCursor(CursorOf(START))))
  {
    var s := Closing(Checking);
    assert s.runs == map[1 := Run(PLAIN, Some(0), Some(0), Checking)] && s.tx == map[0 := InTx] && s.cursorTx == {0};
    assert s.cursors == map["t" := CursorOf(START)];
    assert s.runs[1 := Run(PLAIN, Some(0), Some(0), ClosingCursor(CursorOf(START)))] == Closing(ClosingCursor(CursorOf(START))).runs;
    assert s.tx[0 := InTx] == s.tx;
  }

  lemma CommitIsNotSent()
    ensures Steps(Closing(ClosingCursor(CursorOf(START))), CloseCursor(1, InTx), Closing(Executing).(cursors := map[]))
  {
    var s := Closing(ClosingCursor(CursorOf(START)));
    assert s.runs == map[1 := Run(PLAIN, Some(0), Some(0), ClosingCursor(CursorOf(START)))] && s.tx == map[0 := InTx] && s.cursorTx == {0};
    assert s.cursors == map["t" := CursorOf(START)] && s.cursors - {"t"} == map[];
    assert s.runs[1 := Run(PLAIN, Some(0), Some(0), Executing)] == Closing(Executing).runs;
    assert s.tx[0 := InTx] == s.tx;
  }

  lemma ClosingFacts()
    ensures IsQuiet(Kept(true, true, false), START) && ExecutesInside(Closing(Executing).(cursors := map[]))
    ensures forall phase :: Meets(Kept(true, true, false), Closing(phase))
    ensures Meets(Kept(true, true, false), Closing(Executing).(cursors := map[]))
  {
    assert 1 in Closing(Executing).runs;
  }

  /** Without every COMMIT sent: endCursor takes the cursor off the record, its COMMIT does not go
  out, and the statement that it was to make way for executes inside the transaction. */
  lemma UnsentCommitLetsAStatementIn()
    ensures CanExecuteInside(Kept(true, true, false))
  {
    var k := Kept(true, true, false);
    ClosingFacts();
    hide *;
    StartIsReached(k);
    RunPins(k, START, 0);
    ReuseStep();
    StepIsReached(k, PinnedWithCursor(START, 0), Start(1, PLAIN), Closing(Checking));
    FindsForeignCursor();
    StepIsReached(k, Closing(Checking), CheckCursor(1), Closing(ClosingCursor(CursorOf(START))));
    CommitIsNotSent();
    StepIsReached(k, Closing(ClosingCursor(CursorOf(START))), CloseCursor(1, InTx), Closing(Executing).(cursors := map[]));
    ReachedInside(k, Closing(Executing).(cursors := map[]));
  }

  // ---- Two runs in one tab ---------------------------------------------------------------------------

  /** Run 0 has read its page; run 1 of the same tab started before that was pinned. */
  function Beside(conn: Option<ConnId>, phase: Phase): State {
    var s := Opened(START, 0, Finishing);
    s.(runs := s.runs[1 := Run(PLAIN, None, conn, phase)])
  }

  function BesideConnected(phase: Phase): State {
    Beside(Some(1), phase).(tx := map[0 := InTx, 1 := Idle], nextConn := 2)
  }

  /** Run 1 found a cursor on another connection and took it off the record. */
  function Dropped(): State {
    BesideConnected(Executing).(cursors := map[])
  }

  function PinnedBeside(): State {
    Dropped().(runs := map[1 := Run(PLAIN, None, Some(1), Executing)], sessions := map["t" := SessionOn(START)], nextSession := 1)
  }

  lemma SecondRunStarts()
    ensures Steps(Opened(START, 0, Finishing), Start(1, PLAIN), Beside(None, Waiting))
    ensures Steps(Beside(None, Waiting), Acquire(1, Acquired), BesideConnected(Checking))
  {
    hide PinnedCount, MaxPinned;
    var runs := Opened(START, 0, Finishing).runs;
    assert runs[1 := Run(PLAIN, None, None, Waiting)][1 := Run(PLAIN, None, Some(1), Checking)]
        == runs[1 := Run(PLAIN, None, Some(1), Checking)];
    assert map[0 := InTx][1 := Idle] == map[0 := InTx, 1 := Idle];
  }

  lemma SecondRunDrops()
    ensures Steps(BesideConnected(Checking), CheckCursor(1), Dropped())
  {
    var s := BesideConnected(Checking);
    var runs := Opened(START, 0, Finishing).runs;
    assert runs[1 := Run(PLAIN, None, Some(1), Checking)][1 := Run(PLAIN, None, Some(1), Executing)]
        == runs[1 := Run(PLAIN, None, Some(1), Executing)];
    assert s.cursors == map["t" := CursorOf(START)] && s.cursors - {"t"} == map[];
    assert s.tx[1 := Idle] == s.tx && s.cursorTx == {0} && s.cursorTx - {1} == s.cursorTx;
  }

  lemma FirstRunPins()
    ensures Steps(Dropped(), Finish(0, 0), PinnedBeside())
  {
    hide PinnedCount;
    NothingPinned();
    var s := Dropped();
    assert s.runs == map[0 := Run(PAGED, None, Some(0), Finishing), 1 := Run(PLAIN, None, Some(1), Executing)];
    assert s.runs - {0} == map[1 := Run(PLAIN, None, Some(1), Executing)];
    assert s.sessions == map[] && s.tx[0] == InTx;
  }

  lemma BesideFacts()
    ensures IsQuiet(Kept(false, true, true), START) && IsUnowned(PinnedBeside(), SessionOn(START)) && 2 !in PinnedBeside().runs
    ensures !EndNotSent(Opened(START, 0, Finishing), Start(1, PLAIN)) && !EndNotSent(Beside(None, Waiting), Acquire(1, Acquired))
    ensures !EndNotSent(BesideConnected(Checking), CheckCursor(1)) && !EndNotSent(Dropped(), Finish(0, 0))
  {
    hide Enabled;
  }

  lemma NobodyEnding(s: State)
    requires s.batches == map[]
    ensures Meets(Kept(false, true, true), s)
  {
  }

  lemma BesideEndsNobody()
    ensures forall conn, phase :: Beside(conn, phase).batches == map[]
    ensures forall phase :: BesideConnected(phase).batches == map[] && Reusing(PinnedBeside(), SessionOn(START), 2, phase).batches == map[]
    ensures Dropped().batches == map[] && PinnedBeside().batches == map[]
  {
  }

  /** Without one run a tab: a second run that started before the first had pinned its session
  takes the first one's cursor for a stale one. */
  lemma SecondRunLetsAStatementIn()
    ensures CanExecuteInside(Kept(false, true, true))
  {
    var k, x := Kept(false, true, true), SessionOn(START);
    BesideFacts();
    BesideEndsNobody();
    hide *;
    NobodyEnding(Beside(None, Waiting));
    NobodyEnding(BesideConnected(Checking));
    NobodyEnding(Dropped());
    NobodyEnding(PinnedBeside());
    NobodyEnding(Reusing(PinnedBeside(), x, 2, Checking));
    NobodyEnding(Reusing(PinnedBeside(), x, 2, Executing));
    StartIsReached(k);
    RunPins(k, START, 0);
    SecondRunStarts();
    StepIsReached(k, Opened(START, 0, Finishing), Start(1, PLAIN), Beside(None, Waiting));
    StepIsReached(k, Beside(None, Waiting), Acquire(1, Acquired), BesideConnected(Checking));
    SecondRunDrops();
    StepIsReached(k, BesideConnected(Checking), CheckCursor(1), Dropped());
    FirstRunPins();
    StepIsReached(k, Dropped(), Finish(0, 0), PinnedBeside());
    PlainRunExecutes(k, PinnedBeside(), x, 2);
  }

  // ---- All three ----------------------------------------------------------------------------------------

  lemma FewerKept(k: Kept, fewer: Kept)
    requires CanExecuteInside(k) && (fewer.oneRun ==> k.oneRun) && (fewer.atomic ==> k.atomic) && (fewer.sent ==> k.sent)
    ensures CanExecuteInside(fewer)
  {
    hide ExecutesInside, OneRunPerTab, EndingIsAtomic, EndNotSent;
    var states, events :| IsPath(k, states, events) && ExecutesInside(states[|states| - 1]);
    assert IsPath(fewer, states, events);
  }

  lemma NothingExecutesInside(states: seq<State>, events: seq<Event>)
    requires IsPath(Kept(true, true, true), states, events)
    ensures !ExecutesInside(states[|states| - 1])
  {
    var n := |states| - 1;
    hide EndNotSent, OneRunPerTab, EndingIsAtomic, Enabled, After;
    assert forall j :: 0 <= j < n ==> Meets(Kept(true, true, true), states[j]);
    OwnedTransactionsStayOnRecord(states, events, n);
  }

  lemma NothingGetsInWithAll()
    ensures !CanExecuteInside(Kept(true, true, true))
  {
    hide ExecutesInside, OneRunPerTab, EndingIsAtomic, EndNotSent;
    forall states, events | IsPath(Kept(true, true, true), states, events) ensures !ExecutesInside(states[|states| - 1]) {
      NothingExecutesInside(states, events);
    }
  }

  /** The law needs its three hypotheses and no more: there is an interleaving that lets a
  statement into a cursor's transaction if and only if one of them is given up. */
  lemma StatementsGetInIffAHypothesisFails(k: Kept)
    ensures CanExecuteInside(k) <==> !(k.oneRun && k.atomic && k.sent)
  {
    LateDeleteLetsAStatementIn();
    UnsentRollbackLetsAStatementIn();
    SecondRunLetsAStatementIn();
    hide CanExecuteInside;
    if !k.atomic {
      FewerKept(Kept(true, false, true), k);
    }
    if !k.sent {
      FewerKept(Kept(true, true, false), k);
    }
    if !k.oneRun {
      FewerKept(Kept(false, true, true), k);
    }
    NothingGetsInWithAll();
  }
}
