/** The tab sessions and cursors of internal/web/session.go and cursor.go: the
tables guarded by sessMu, and one method for each of its critical sections. */
module Sessions {
  import opened Wrappers

  type Tab = string
  type ConnId = nat

  /** What the driver reports: 'I', 'T', 'E', or that the connection is gone. */
  datatype TxStatus = Idle | InTx | Failed | Closed

  predicate IsOpenTx(st: TxStatus) {
    st.InTx? || st.Failed?
  }

  datatype TxState = Active | Aborted

  function StateFromStatus(st: TxStatus): TxState {
    if st.Failed? then Aborted else Active
  }

  datatype Pool = Pool(id: nat, maxConns: int)

  /** One connection is always left unpinned, unless there is only one. */
  function MaxPinned(pool: Pool): (n: int)
    ensures n >= 1 && (pool.maxConns >= 2 ==> n == pool.maxConns - 1)
  {
    if pool.maxConns - 1 > 1 then pool.maxConns - 1 else 1
  }

  /** A pinned connection.  `id` stands for the identity of the session object. */
  datatype Session = Session(
    id: nat, conn: ConnId, pool: Pool, server: int, db: string,
    state: TxState, lastUsed: int, busy: bool)

  /** A tab's open cursor.  `id` stands for the identity of the cursor object. */
  datatype Cursor = Cursor(id: nat, query: string, conn: ConnId, ownsTx: bool)

  type SessionMap = map<Tab, Session>
  type CursorMap = map<Tab, Cursor>

  function PinnedTabs(sessions: SessionMap, pool: Pool): set<Tab> {
    set t | t in sessions && sessions[t].pool == pool
  }

  ghost function PinnedAmong(sessions: SessionMap, tabs: set<Tab>, pool: Pool): set<Tab> {
    set t | t in tabs && t in sessions && sessions[t].pool == pool
  }

  lemma PinnedAmongOneMore(sessions: SessionMap, tabs: set<Tab>, t: Tab, pool: Pool)
    requires t !in tabs && t in sessions
    ensures |PinnedAmong(sessions, tabs + {t}, pool)|
         == |PinnedAmong(sessions, tabs, pool)| + if sessions[t].pool == pool then 1 else 0
  {
    var more := if sessions[t].pool == pool then {t} else {};
    assert PinnedAmong(sessions, tabs + {t}, pool) == PinnedAmong(sessions, tabs, pool) + more;
  }

  function PinnedCount(sessions: SessionMap, pool: Pool): nat {
    |PinnedTabs(sessions, pool)|
  }

  // ---- What each critical section computes -------------------------------------

  /** The ways the lookup of acquireTabConn can end. */
  datatype Lookup = Reuse(sess: Session) | TabBusy | TooManyOpen | NoSession

  function LookupResult(sessions: SessionMap, tab: Tab, pool: Pool, autocommit: bool): Lookup {
    if tab == "" then NoSession
    else if tab in sessions then
      if sessions[tab].busy then TabBusy else Reuse(sessions[tab].(busy := true))
    else if !autocommit && PinnedCount(sessions, pool) >= MaxPinned(pool) then TooManyOpen
    else NoSession
  }

  function AfterLookup(sessions: SessionMap, tab: Tab, found: Lookup): SessionMap {
    if found.Reuse? then sessions[tab := found.sess] else sessions
  }

  /** Whether `sess` is still the session registered for the tab. */
  predicate IsRegistered(sessions: SessionMap, tab: Tab, sess: nat) {
    tab in sessions && sessions[tab].id == sess
  }

  const ROOM_NOTE := "The transaction was rolled back: too many open transactions on this database."

  /** The request whose finish hook runs: its session when it started with one. */
  datatype Ticket = Ticket(tab: Tab, sess: Option<nat>, conn: ConnId, pool: Pool, server: int, db: string)

  /** The session stays pinned, or a new one is pinned. */
  predicate Keeps(sessions: SessionMap, k: Ticket, st: TxStatus) {
    && IsOpenTx(st) && k.tab != ""
    && match k.sess
       case Some(id) => IsRegistered(sessions, k.tab, id)
       case None => PinnedCount(sessions, k.pool) < MaxPinned(k.pool)
  }

  /** The transaction is refused for want of room, with a note to the tab. */
  predicate RefusedForRoom(sessions: SessionMap, k: Ticket, st: TxStatus) {
    IsOpenTx(st) && k.tab != "" && k.sess == None && PinnedCount(sessions, k.pool) >= MaxPinned(k.pool)
  }

  function AfterFinish(sessions: SessionMap, k: Ticket, st: TxStatus, now: int, freshId: nat): SessionMap {
    if Keeps(sessions, k, st) then
      var s := if k.sess.Some? then sessions[k.tab]
               else Session(freshId, k.conn, k.pool, k.server, k.db, Active, now, false);
      sessions[k.tab := s.(state := StateFromStatus(st), lastUsed := now, busy := false)]
    else if k.sess.Some? && IsRegistered(sessions, k.tab, k.sess.value) then sessions - {k.tab}
    else sessions
  }

  /** takeSessions: the idle matching sessions are taken ... */
  function Taken(sessions: SessionMap, matching: (Tab, Session) -> bool): SessionMap {
    map t | t in sessions && matching(t, sessions[t]) && !sessions[t].busy :: sessions[t]
  }

  /** ... and everything else stays, except busy matching ones when dropBusy is set. */
  function AfterTake(sessions: SessionMap, matching: (Tab, Session) -> bool, dropBusy: bool): SessionMap {
    map t | t in sessions && !(matching(t, sessions[t]) && (!sessions[t].busy || dropBusy)) :: sessions[t]
  }

  /** The state of takeSessions when the tabs in `todo` are still to be looked at. */
  ghost predicate IsTaking(before: SessionMap, todo: set<Tab>, matching: (Tab, Session) -> bool, dropBusy: bool,
                           taken: SessionMap, left: SessionMap) {
    && taken == (map t | t in before && t !in todo && matching(t, before[t]) && !before[t].busy :: before[t])
    && left == (map t | t in before && (t in todo || !(matching(t, before[t]) && (!before[t].busy || dropBusy))) :: before[t])
  }

  lemma TakingOneMore(before: SessionMap, todo: set<Tab>, matching: (Tab, Session) -> bool, dropBusy: bool,
                      taken: SessionMap, left: SessionMap, t: Tab)
    requires t in todo && todo <= before.Keys && IsTaking(before, todo, matching, dropBusy, taken, left)
    ensures t in left && left[t] == before[t]
    ensures var hit := matching(t, before[t]);
            IsTaking(before, todo - {t}, matching, dropBusy,
                     if hit && !before[t].busy then taken[t := before[t]] else taken,
                     if hit && (!before[t].busy || dropBusy) then left - {t} else left)
  {
  }

  /** cursorFor: a cursor on another connection belongs to a session that is gone. */
  function CursorOn(cursors: CursorMap, tab: Tab, conn: ConnId): Option<Cursor> {
    if tab in cursors && cursors[tab].conn == conn then Some(cursors[tab]) else None
  }

  function AfterCursorFor(cursors: CursorMap, tab: Tab, conn: ConnId): CursorMap {
    if tab in cursors && cursors[tab].conn != conn then cursors - {tab} else cursors
  }

  function AfterEndCursor(cursors: CursorMap, tab: Tab, cs: Cursor): CursorMap {
    if tab in cursors && cursors[tab] == cs then cursors - {tab} else cursors
  }

  // ---- The tables themselves -----------------------------------------------------

  class SessionTable {
    var sessions: SessionMap
    var cursors: CursorMap
    var notes: map<Tab, string>
    var nextId: nat  // identities handed out to session objects

    constructor ()
      ensures sessions == map[] && cursors == map[] && notes == map[] && nextId == 0
    {
      sessions, cursors, notes, nextId := map[], map[], map[], 0;
    }

    /** pinnedCountLocked: one pass over the table. */
    method CountPinned(pool: Pool) returns (n: nat)
      ensures n == PinnedCount(sessions, pool)
    {
      n := 0;
      var todo := sessions.Keys;
      ghost var seen: set<Tab> := {};
      while todo != {}
        invariant seen !! todo && seen + todo == sessions.Keys
        invariant n == |PinnedAmong(sessions, seen, pool)|
        decreases |todo|
      {
        var t :| t in todo;
        PinnedAmongOneMore(sessions, seen, t, pool);
        todo := todo - {t};
        seen := seen + {t};
        if sessions[t].pool == pool {
          n := n + 1;
        }
      }
      assert PinnedTabs(sessions, pool) == PinnedAmong(sessions, seen, pool);
    }

    /** The first critical section of acquireTabConn. */
    method LookUp(tab: Tab, pool: Pool, autocommit: bool) returns (found: Lookup)
      modifies `sessions
      ensures found == LookupResult(old(sessions), tab, pool, autocommit)
      ensures sessions == AfterLookup(old(sessions), tab, found)
    {
      if tab == "" {
        return NoSession;
      }
      if tab in sessions {
        if sessions[tab].busy {
          return TabBusy;
        }
        var sess := sessions[tab].(busy := true);
        sessions := sessions[tab := sess];
        return Reuse(sess);
      }
      var pinned := CountPinned(pool);
      if !autocommit && pinned >= MaxPinned(pool) {
        return TooManyOpen;
      }
      return NoSession;
    }

    /** The decision of the finish hook: keep the connection, or refuse it for want of room. */
    method Decide(k: Ticket, st: TxStatus) returns (keep: bool, refused: bool)
      ensures keep == Keeps(sessions, k, st) && refused == RefusedForRoom(sessions, k, st)
    {
      refused := false;
      keep := IsOpenTx(st) && k.tab != ""
              && (k.sess.None? || (k.tab in sessions && sessions[k.tab].id == k.sess.value));
      if keep && k.sess.None? {
        var pinned := CountPinned(k.pool);
        if pinned >= MaxPinned(k.pool) {
          keep, refused := false, true;
        }
      }
    }

    /** The critical section of the finish hook; the connection is kept pinned iff `keep`. */
    method Finish(k: Ticket, st: TxStatus, now: int) returns (keep: bool)
      modifies `sessions, `notes, `nextId
      ensures keep == Keeps(old(sessions), k, st)
      ensures sessions == AfterFinish(old(sessions), k, st, now, old(nextId))
      ensures notes == if RefusedForRoom(old(sessions), k, st) then old(notes)[k.tab := ROOM_NOTE] else old(notes)
      ensures nextId == if keep && k.sess.None? then old(nextId) + 1 else old(nextId)
    {
      var refused;
      keep, refused := Decide(k, st);
      if refused {
        notes := notes[k.tab := ROOM_NOTE];
      }
      if keep {
        var sess;
        if k.sess.None? {
          sess := Session(nextId, k.conn, k.pool, k.server, k.db, Active, now, false);
          nextId := nextId + 1;
        } else {
          sess := sessions[k.tab];
        }
        sessions := sessions[k.tab := sess.(state := StateFromStatus(st), lastUsed := now, busy := false)];
      } else if k.sess.Some? && k.tab in sessions && sessions[k.tab].id == k.sess.value {
        sessions := sessions - {k.tab};
      }
    }

    /** takeSessions: one pass that moves the idle matches out of the table. */
    method Take(matching: (Tab, Session) -> bool, dropBusy: bool) returns (taken: SessionMap)
      modifies `sessions
      ensures taken == Taken(old(sessions), matching)
      ensures sessions == AfterTake(old(sessions), matching, dropBusy)
    {
      taken := map[];
      ghost var before := sessions;
      var todo := sessions.Keys;
      while todo != {}
        invariant todo <= before.Keys
        invariant IsTaking(before, todo, matching, dropBusy, taken, sessions)
        decreases |todo|
      {
        var t :| t in todo;
        var s := sessions[t];
        ghost var taken0, left0 := taken, sessions;
        if matching(t, s) {
          if !s.busy {
            taken := taken[t := s];
            sessions := sessions - {t};
          } else if dropBusy {
            sessions := sessions - {t};
          }
        }
        TakingOneMore(before, todo, matching, dropBusy, taken0, left0, t);
        todo := todo - {t};
      }
    }

    /** The critical section of endSessions, once a taken session is released. */
    method Forget(tab: Tab, note: string)
      modifies `cursors, `notes
      ensures cursors == old(cursors) - {tab}
      ensures notes == if note != "" then old(notes)[tab := note] else old(notes)
    {
      cursors := cursors - {tab};
      if note != "" {
        notes := notes[tab := note];
      }
    }

    method CursorFor(tab: Tab, conn: ConnId) returns (cs: Option<Cursor>)
      modifies `cursors
      ensures cs == CursorOn(old(cursors), tab, conn)
      ensures cursors == AfterCursorFor(old(cursors), tab, conn)
    {
      if tab !in cursors {
        return None;
      }
      var found := cursors[tab];
      if found.conn != conn {
        cursors := cursors - {tab};
        return None;
      }
      return Some(found);
    }

    /** The critical section at the end of endCursor. */
    method DropCursor(tab: Tab, cs: Cursor)
      modifies `cursors
      ensures cursors == AfterEndCursor(old(cursors), tab, cs)
    {
      if tab in cursors && cursors[tab] == cs {
        cursors := cursors - {tab};
      }
    }

    /** The critical section at the end of declareCursor. */
    method RegisterCursor(tab: Tab, cs: Cursor)
      modifies `cursors
      ensures cursors == old(cursors)[tab := cs]
    {
      cursors := cursors[tab := cs];
    }

    /** handleTxStatus: the note is delivered once. */
    method Status(tab: Tab) returns (state: Option<TxState>, note: string)
      modifies `notes
      ensures state == if tab in sessions then Some(sessions[tab].state) else None
      ensures note == if tab in old(notes) then old(notes)[tab] else ""
      ensures notes == old(notes) - {tab}
    {
      state := if tab in sessions then Some(sessions[tab].state) else None;
      note := if tab in notes then notes[tab] else "";
      notes := notes - {tab};
    }
  }
}
