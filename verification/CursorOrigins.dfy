/** Where the cursor of a page comes from, over every interleaving. */
module CursorOrigins {
  import opened Wrappers
  import opened Sessions
  import opened SessionMachine
  import opened SessionLaws

  // ---- The claim ----------------------------------------------------------------------------

  /** From state j to state i the run is the same one, on the same connection. */
  ghost predicate IsSameRun(states: seq<State>, j: nat, i: nat, r: RunId)
    requires j <= i < |states|
  {
    forall k | j <= k <= i :: r in states[k].runs && r in states[i].runs && RunAt(states[k], r)
                              && states[k].runs[r].req == states[i].runs[r].req && states[k].runs[r].conn == states[i].runs[r].conn
  }

  /** The step of the run from state j on declared this cursor. */
  ghost predicate DeclaredAt(states: seq<State>, events: seq<Event>, j: nat, r: RunId, cs: Cursor)
    requires IsTrace(states, events) && j < |events|
  {
    && events[j].Declare? && events[j].r == r && events[j].ok
    && cs.id == states[j].nextCursor && RunAt(states[j], r)
    && cs.conn == states[j].runs[r].conn.value && cs.query == states[j].runs[r].req.query
  }

  /** At its check in state j the run found this cursor of its tab, and is a page of its query. */
  ghost predicate FoundAt(states: seq<State>, events: seq<Event>, j: nat, r: RunId, cs: Cursor)
    requires IsTrace(states, events) && j < |events|
  {
    && events[j] == CheckCursor(r) && RunAt(states[j], r)
    && var run := states[j].runs[r];
       && run.req.tab in states[j].cursors && states[j].cursors[run.req.tab] == cs && cs.conn == run.conn.value
       && run.req.wantCursor && run.req.nav && cs.query == run.req.query
  }

  ghost predicate HasOrigin(states: seq<State>, events: seq<Event>, i: nat, r: RunId, cs: Cursor)
    requires IsTrace(states, events) && i < |states|
  {
    exists j :: 0 <= j < i && IsSameRun(states, j, i, r) && (DeclaredAt(states, events, j, r, cs) || FoundAt(states, events, j, r, cs))
  }

  ghost predicate WasFound(states: seq<State>, events: seq<Event>, i: nat, r: RunId, cs: Cursor)
    requires IsTrace(states, events) && i < |states|
  {
    exists j :: 0 <= j < i && IsSameRun(states, j, i, r) && FoundAt(states, events, j, r, cs)
  }

  /** The entry of the run's tab on the run's own connection. */
  predicate OnRecord(s: State, r: RunId, cs: Cursor) {
    RunAt(s, r) && s.runs[r].req.tab in s.cursors && s.cursors[s.runs[r].req.tab] == cs && cs.conn == s.runs[r].conn.value
  }

  /** What each phase says about the cursor of the tab. */
  ghost predicate Traced(states: seq<State>, events: seq<Event>, i: nat, r: RunId)
    requires IsTrace(states, events) && i < |states| && r in states[i].runs
  {
    match states[i].runs[r].phase
    case ClosingCursor(cur) => forall cs | OnRecord(states[i], r, cs) :: cs == cur
    case Paging => forall cs | OnRecord(states[i], r, cs) :: WasFound(states, events, i, r, cs)
    case Fetching(cs, _) => HasOrigin(states, events, i, r, cs)
    case _ => true
  }

  // ---- Steps ----------------------------------------------------------------------------------

  /** What a step of somebody else leaves of a run and of the entry on its connection. */
  lemma OthersKeepRun(s: State, e: Event, r: RunId)
    requires Inv(s) && Enabled(s, e) && r in s.runs && !IsStepOf(e, r)
    ensures r in After(s, e).runs && After(s, e).runs[r] == s.runs[r]
  {
    hide Inv, PinnedCount, MaxPinned, AfterFinish, AfterTake, LookupResult, Taken;
    if IsMove(e) {
      hide After, Enabled;
      MoveKeepsTheRest(s, e);
    }
  }

  predicate IsStepOf(e: Event, r: RunId) {
    match e
    case Start(q, _) => q == r
    case Acquire(q, _) => q == r
    case CheckCursor(q) => q == r
    case CloseCursor(q, _) => q == r
    case FindCursor(q) => q == r
    case CheckRoom(q) => q == r
    case Declare(q, _, _) => q == r
    case Fetch(q, _) => q == r
    case FetchInvalid(q, _, _) => q == r
    case Execute(q, _) => q == r
    case Done(q) => q == r
    case Finish(q, _) => q == r
    case Release(q) => q == r
    case _ => false
  }

  lemma OthersOnlyRemove(s: State, e: Event)
    requires Enabled(s, e) && !IsMove(e)
    ensures forall t | t in After(s, e).cursors :: t in s.cursors && After(s, e).cursors[t] == s.cursors[t]
  {
    hide PinnedCount, MaxPinned, AfterFinish, AfterTake, LookupResult, Taken, Move;
  }

  lemma MovesOnlyRemove(s: State, e: Event, t: Tab)
    requires Enabled(s, e) && IsMove(e) && t in After(s, e).cursors
    ensures (t in s.cursors && After(s, e).cursors[t] == s.cursors[t])
            || (e.Declare? && RunAt(s, e.r) && s.runs[e.r].req.tab == t && After(s, e).cursors[t].conn == s.runs[e.r].conn.value)
  {
    hide PinnedCount, MaxPinned;
  }

  /** Entries only go, but for the one that a run declares on its connection. */
  lemma OnlyDeclareAdds(s: State, e: Event, t: Tab)
    requires Enabled(s, e) && t in After(s, e).cursors
    ensures (t in s.cursors && After(s, e).cursors[t] == s.cursors[t])
            || (e.Declare? && RunAt(s, e.r) && s.runs[e.r].req.tab == t && After(s, e).cursors[t].conn == s.runs[e.r].conn.value)
  {
    if IsMove(e) {
      MovesOnlyRemove(s, e, t);
    } else {
      OthersOnlyRemove(s, e);
    }
    hide *;
  }

  /** Nobody else puts an entry on the run's connection. */
  lemma OthersAddNothing(s: State, e: Event, r: RunId, cs: Cursor)
    requires Inv(s) && Enabled(s, e) && RunAt(s, r) && !IsStepOf(e, r) && OnRecord(After(s, e), r, cs)
    requires r in After(s, e).runs && After(s, e).runs[r] == s.runs[r]
    ensures OnRecord(s, r, cs)
  {
    RunHoldsAlone(s, r);
    OnlyDeclareAdds(s, e, s.runs[r].req.tab);
    assert e.Declare? ==> e.r != r;
    hide Inv, After, Enabled;
  }

  /** A run with a connection has one that was handed out. */
  lemma RunsAreOut(s: State, r: RunId)
    requires Inv(s) && r in s.runs && s.runs[r].phase != Waiting
    ensures RunAt(s, r)
  {
    assert RunOwnsItsSession(s, s.runs[r]) && HeldBy(s, ByRun(r)) == s.runs[r].conn;
  }

  lemma SameRunGoesOn(states: seq<State>, j: nat, i: nat, r: RunId)
    requires j < i < |states| && IsSameRun(states, j, i - 1, r) && RunAt(states[i], r)
    requires states[i].runs[r].req == states[i - 1].runs[r].req && states[i].runs[r].conn == states[i - 1].runs[r].conn
    ensures IsSameRun(states, j, i, r)
  {
  }

  lemma OriginGoesOn(states: seq<State>, events: seq<Event>, i: nat, r: RunId, cs: Cursor)
    requires IsTrace(states, events) && 0 < i < |states| && RunAt(states[i - 1], r) && RunAt(states[i], r)
    requires states[i].runs[r].req == states[i - 1].runs[r].req && states[i].runs[r].conn == states[i - 1].runs[r].conn
    ensures HasOrigin(states, events, i - 1, r, cs) ==> HasOrigin(states, events, i, r, cs)
    ensures WasFound(states, events, i - 1, r, cs) ==> WasFound(states, events, i, r, cs)
  {
    hide Steps, IsSameRun, DeclaredAt, FoundAt;
    if HasOrigin(states, events, i - 1, r, cs) {
      var j :| 0 <= j < i - 1 && IsSameRun(states, j, i - 1, r) && (DeclaredAt(states, events, j, r, cs) || FoundAt(states, events, j, r, cs));
      SameRunGoesOn(states, j, i, r);
    }
    if WasFound(states, events, i - 1, r, cs) {
      var j :| 0 <= j < i - 1 && IsSameRun(states, j, i - 1, r) && FoundAt(states, events, j, r, cs);
      SameRunGoesOn(states, j, i, r);
    }
  }

  lemma FoundHasOrigin(states: seq<State>, events: seq<Event>, i: nat, r: RunId, cs: Cursor)
    requires IsTrace(states, events) && i < |states| && WasFound(states, events, i, r, cs)
    ensures HasOrigin(states, events, i, r, cs)
  {
    hide Steps, IsSameRun, DeclaredAt, FoundAt;
    var j :| 0 <= j < i && IsSameRun(states, j, i, r) && FoundAt(states, events, j, r, cs);
  }

  /** A step of another run, or of none. */
  lemma OthersKeepTrace(states: seq<State>, events: seq<Event>, i: nat, r: RunId)
    requires IsTrace(states, events) && 0 < i < |states| && Inv(states[i - 1]) && Inv(states[i])
    requires r in states[i - 1].runs && Traced(states, events, i - 1, r) && !IsStepOf(events[i - 1], r)
    ensures r in states[i].runs && Traced(states, events, i, r)
  {
    var s, s', e := states[i - 1], states[i], events[i - 1];
    assert Steps(s, e, s');
    OthersKeepRun(s, e, r);
    hide IsTrace, HasOrigin, WasFound;
    if s.runs[r].phase != Waiting {
      RunsAreOut(s, r);
      RunsAreOut(s', r);
      hide Inv;
      forall cs ensures OnRecord(s', r, cs) ==> OnRecord(s, r, cs) {
        if OnRecord(s', r, cs) {
          OthersAddNothing(s, e, r, cs);
        }
      }
      hide Enabled, After, OnRecord;
      forall cs
        ensures HasOrigin(states, events, i - 1, r, cs) ==> HasOrigin(states, events, i, r, cs)
        ensures WasFound(states, events, i - 1, r, cs) ==> WasFound(states, events, i, r, cs)
      {
        OriginGoesOn(states, events, i, r, cs);
      }
    }
  }

  predicate IsApart(phase: Phase) {
    phase == Waiting || phase == Checking || phase.Releasing?
  }

  lemma StartRuns(s: State, r: RunId, req: Request, q: RunId)
    requires r !in s.runs && q in AfterStart(s, r, req).runs
    ensures var s' := AfterStart(s, r, req); (q in s.runs && s'.runs[q] == s.runs[q]) || (q == r && IsApart(s'.runs[q].phase))
  {
    hide LookupResult, AfterLookup;
  }

  lemma AcquireRuns(s: State, r: RunId, outcome: AcquireOutcome, q: RunId)
    requires r in s.runs && q in AfterAcquire(s, r, outcome).runs
    ensures var s' := AfterAcquire(s, r, outcome); (q in s.runs && s'.runs[q] == s.runs[q]) || (q == r && IsApart(s'.runs[q].phase))
  {
  }

  lemma FinishRuns(s: State, r: RunId, now: int, q: RunId)
    requires RunAt(s, r) && q in AfterFinishing(s, r, now).runs
    ensures var s' := AfterFinishing(s, r, now); (q in s.runs && s'.runs[q] == s.runs[q]) || (q == r && IsApart(s'.runs[q].phase))
  {
    hide AfterFinish, Keeps;
  }

  /** A step that is no move changes its own run at most, and to a phase that has to do with no cursor. */
  lemma OtherStepsRuns(s: State, e: Event, q: RunId)
    requires Enabled(s, e) && !IsMove(e) && q in After(s, e).runs
    ensures (q in s.runs && After(s, e).runs[q] == s.runs[q]) || (IsStepOf(e, q) && IsApart(After(s, e).runs[q].phase))
  {
    hide AfterStart, AfterAcquire, AfterFinishing, Move, PinnedCount, MaxPinned, AfterTake, Taken;
    match e {
      case Start(r, req) => StartRuns(s, r, req, q);
      case Acquire(r, outcome) => AcquireRuns(s, r, outcome, q);
      case Finish(r, now) => FinishRuns(s, r, now, q);
      case _ =>
    }
  }

  /** What the phase of a run after a step of its own tells about the cursor, and the step. */
  ghost predicate PhaseTells(s: State, e: Event, s': State, r: RunId)
    requires r in s'.runs
  {
    match s'.runs[r].phase
    case ClosingCursor(cur) => forall cs | OnRecord(s', r, cs) :: cs == cur
    case Paging =>
      && StaysItself(s, s', r)
      && (e == CheckCursor(r) || e.CloseCursor?)
      && forall cs | OnRecord(s', r, cs) ::
           && OnRecord(s, r, cs)
           && (e.CheckCursor? ==> s.runs[r].req.wantCursor && s.runs[r].req.nav && cs.query == s.runs[r].req.query)
           && (e.CloseCursor? ==> s.runs[r].phase.ClosingCursor? && cs != s.runs[r].phase.cur)
    case Fetching(cs, _) =>
      && StaysItself(s, s', r)
      && ((e.FindCursor? && s.runs[r].phase == Paging && OnRecord(s, r, cs))
          || (e.Declare? && e.r == r && e.ok && cs.id == s.nextCursor && cs.conn == s.runs[r].conn.value && cs.query == s.runs[r].req.query))
    case _ => true
  }

  predicate StaysItself(s: State, s': State, r: RunId) {
    RunAt(s, r) && r in s'.runs && s'.runs[r].req == s.runs[r].req && s'.runs[r].conn == s.runs[r].conn
  }

  lemma CheckTells(s: State, r: RunId)
    requires Enabled(s, CheckCursor(r))
    ensures PhaseTells(s, CheckCursor(r), AfterCheckCursor(s, r), r)
  {
  }

  lemma CloseTells(s: State, e: Event, r: RunId)
    requires Enabled(s, e) && e.CloseCursor? && e.r == r
    ensures PhaseTells(s, e, After(s, e), r)
  {
  }

  lemma FindTells(s: State, r: RunId)
    requires Enabled(s, FindCursor(r))
    ensures PhaseTells(s, FindCursor(r), AfterFindCursor(s, r), r)
  {
  }

  lemma DeclareTells(s: State, e: Event, r: RunId)
    requires Enabled(s, e) && e.Declare? && e.r == r
    ensures PhaseTells(s, e, AfterDeclare(s, r, e.ok, e.status), r)
  {
  }

  lemma OwnStep(s: State, e: Event, r: RunId)
    requires Enabled(s, e) && IsStepOf(e, r) && r in After(s, e).runs
    ensures PhaseTells(s, e, After(s, e), r)
  {
    if e.CheckCursor? {
      CheckTells(s, r);
    } else if e.CloseCursor? {
      CloseTells(s, e, r);
    } else if e.FindCursor? {
      FindTells(s, r);
    } else if e.Declare? {
      DeclareTells(s, e, r);
    } else {
      OtherStepsTellNothing(s, e, r);
    }
    hide *;
  }

  lemma EndsTellNothing(s: State, e: Event, r: RunId)
    requires Enabled(s, e) && IsStepOf(e, r) && r in After(s, e).runs && (e.Start? || e.Acquire? || e.Finish? || e.Release?)
    ensures PhaseTells(s, e, After(s, e), r)
  {
    hide After, Enabled, OnRecord, StaysItself, IsStepOf;
    OtherStepsRuns(s, e, r);
    if r in s.runs {
      QuietBefore(s, e, r);
    }
  }

  lemma QuietBefore(s: State, e: Event, r: RunId)
    requires Enabled(s, e) && IsStepOf(e, r) && r in s.runs && (e.Start? || e.Acquire? || e.Finish? || e.Release?)
    ensures !s.runs[r].phase.ClosingCursor? && !s.runs[r].phase.Paging? && !s.runs[r].phase.Fetching?
  {
  }

  lemma MovesTellNothing(s: State, e: Event, r: RunId)
    requires Enabled(s, e) && IsStepOf(e, r) && (e.CheckRoom? || e.Fetch? || e.FetchInvalid? || e.Execute? || e.Done?)
    ensures r in After(s, e).runs && PhaseTells(s, e, After(s, e), r)
  {
    hide PinnedCount, MaxPinned, OnRecord, StaysItself;
  }

  lemma OtherStepsTellNothing(s: State, e: Event, r: RunId)
    requires Enabled(s, e) && IsStepOf(e, r) && r in After(s, e).runs
    requires !e.CheckCursor? && !e.CloseCursor? && !e.FindCursor? && !e.Declare?
    ensures PhaseTells(s, e, After(s, e), r)
  {
    if e.Start? || e.Acquire? || e.Finish? || e.Release? {
      EndsTellNothing(s, e, r);
    } else {
      MovesTellNothing(s, e, r);
    }
  }

  lemma OwnStepKeepsTrace(states: seq<State>, events: seq<Event>, i: nat, r: RunId)
    requires IsTrace(states, events) && 0 < i < |states| && Inv(states[i])
    requires r in states[i - 1].runs ==> Traced(states, events, i - 1, r)
    requires IsStepOf(events[i - 1], r) && r in states[i].runs
    ensures Traced(states, events, i, r)
  {
    var s, s', e := states[i - 1], states[i], events[i - 1];
    assert Steps(s, e, s');
    OwnStep(s, e, r);
    if s'.runs[r].phase != Waiting {
      RunsAreOut(s', r);
    }
    hide Enabled, After, Inv, IsTrace, HasOrigin, WasFound;
    match s'.runs[r].phase {
      case Paging =>
        forall cs | OnRecord(s', r, cs) ensures WasFound(states, events, i, r, cs) {
          FoundNow(states, events, i, r, cs);
        }
      case Fetching(cs, _) =>
        if e.FindCursor? {
          OriginGoesOn(states, events, i, r, cs);
          FoundHasOrigin(states, events, i, r, cs);
        } else {
          DeclaredNow(states, events, i, r, cs);
        }
      case _ =>
    }
  }

  lemma FoundNow(states: seq<State>, events: seq<Event>, i: nat, r: RunId, cs: Cursor)
    requires IsTrace(states, events) && 0 < i < |states| && RunAt(states[i - 1], r) && RunAt(states[i], r)
    requires states[i].runs[r].req == states[i - 1].runs[r].req && states[i].runs[r].conn == states[i - 1].runs[r].conn
    requires events[i - 1] == CheckCursor(r) && OnRecord(states[i - 1], r, cs)
    requires var req := states[i - 1].runs[r].req; req.wantCursor && req.nav && cs.query == req.query
    ensures WasFound(states, events, i, r, cs)
  {
    hide Steps;
    assert IsSameRun(states, i - 1, i, r) && FoundAt(states, events, i - 1, r, cs);
  }

  lemma DeclaredNow(states: seq<State>, events: seq<Event>, i: nat, r: RunId, cs: Cursor)
    requires IsTrace(states, events) && 0 < i < |states| && RunAt(states[i - 1], r) && RunAt(states[i], r)
    requires states[i].runs[r].req == states[i - 1].runs[r].req && states[i].runs[r].conn == states[i - 1].runs[r].conn
    requires events[i - 1].Declare? && events[i - 1].r == r && events[i - 1].ok && cs.id == states[i - 1].nextCursor
    requires cs.conn == states[i - 1].runs[r].conn.value && cs.query == states[i - 1].runs[r].req.query
    ensures HasOrigin(states, events, i, r, cs)
  {
    hide Steps;
    assert IsSameRun(states, i - 1, i, r) && DeclaredAt(states, events, i - 1, r, cs);
  }

  // ---- Over whole interleavings ------------------------------------------------------------------

  lemma {:induction false} TracedAlways(states: seq<State>, events: seq<Event>, i: nat, r: RunId)
    requires IsTrace(states, events) && i < |states| && r in states[i].runs
    ensures Traced(states, events, i, r)
  {
    if i > 0 {
      Safety(states, events, i - 1);
      Safety(states, events, i);
      assert Steps(states[i - 1], events[i - 1], states[i]);
      if r in states[i - 1].runs {
        TracedAlways(states, events, i - 1, r);
      } else {
        OnlyStartsBringRuns(states[i - 1], events[i - 1], r);
      }
      hide IsTrace, Inv, Enabled, After, Traced;
      if IsStepOf(events[i - 1], r) {
        OwnStepKeepsTrace(states, events, i, r);
      } else {
        OthersKeepTrace(states, events, i, r);
      }
    }
  }

  lemma OnlyStartsBringRuns(s: State, e: Event, r: RunId)
    requires Enabled(s, e) && r !in s.runs && r in After(s, e).runs
    ensures IsStepOf(e, r)
  {
    if IsMove(e) {
      hide After, Enabled;
      MoveKeepsTheRest(s, e);
    } else {
      OtherStepsRuns(s, e, r);
      hide After, Enabled;
    }
  }

  /** A page is read from the cursor that the run itself declared for its query, or from the one that it
  found open at its check, in the same tab and on the same connection; the latter only if the run
  is a page (`nav`) in cursor mode of that cursor's own query. */
  lemma PageComesFromItsCursor(states: seq<State>, events: seq<Event>, i: nat, r: RunId)
    requires IsTrace(states, events) && i < |states| && r in states[i].runs && states[i].runs[r].phase.Fetching?
    ensures HasOrigin(states, events, i, r, states[i].runs[r].phase.cur)
  {
    TracedAlways(states, events, i, r);
  }
}
