# A PostgreSQL admin server, modelled and proved in Dafny

The server lets a browser tab run SQL, pins a pooled connection to a tab while the tab is
inside a transaction, pages results through server-side cursors, and compiles forms into
SQL scripts. This project models the parts where several functions share state or have to
agree on text, and proves what they promise each other.

* **Sessions** (`Sessions`, `SessionMachine`, `SessionLaws`, `SessionFates`,
  `SessionTheorems`, `SessionSteps`, `CursorLaws`, `CursorOrigins`, `CursorTraces`). The
  table of pinned sessions and cursors is a class whose methods are the critical sections
  under the session mutex. Around it stands a transition system: each event is one critical section or one database effect of a run,
  of a session being taken (tab close, disconnect, janitor: any set of sessions, with or
  without the busy ones) or of a taken session being ended. A state records the status of
  every connection ever handed out. All theorems are about every interleaving of any
  number of runs.
* **Scripts** (`SplitStatements`, `SplitLaws`, `SplitSegments`, `ClosedSql`, `SqlQuote`,
  `SqlNames`). The statement splitter, byte for byte, and the printers it has to agree with. Its own
  lexical rules are the specification: comments do not nest and there are no escape
  strings. It copies every byte with `string(c)`, so a byte of 128 or more comes out as two;
  the laws say exactly where that matters.
* **Builders** (`AlterObject`, `AlterSequence`, `SequenceText`, `AlterRole`,
  `AlterRoleLaws`, `RoleRead`, `AlterTable`, `AlterTableLaws`, `ColumnRead`, `TableRead`,
  `TableForms`, `CopySql`, `CopyRead`, `Lists`). Forms become lists of statements, the lists
  become text, and an interpreter runs the statements on a small catalog of objects,
  sequences, roles and columns. Readers take the text back to the statements, so the main
  results are about the text itself. What a form asks for, and which forms are accepted, is
  told by the names of its fields.
* **Privileges** (`Privileges`, `PrivilegeLaws`, `PrivilegeForms`, `PrivilegeText`,
  `PrivilegeRead`, `PrivilegeKinds`, `RoutineText`). The privilege grid is loaded from an
  ACL, travels encoded in a form, is compared with the ticked boxes, and becomes GRANT and
  REVOKE statements, which are read back and given a meaning on ACLs.
* **Smaller parts** (`Listen`, `ListenForms`, `ListenMeaning`, `ListenLaws`, `Paging`,
  `ExplainPlan`, `PlanTraces`, `TailBuffer`). The LISTEN parser and its printer, cursor pages
  against LIMIT/OFFSET, the accounting of plan trees over real numbers, and the bounded job
  log. `GoStrings`, `Numbers` and `Wrappers` hold the few library functions and types that
  the rest needs.

`dafny verify dfyconfig.toml` checks the whole project.

## Where the code differs from its comments

The model follows the code.

* `internal/web/ddl.go:1440-1442` says that callers put the rename last. The table builder
  puts it first and its column statements keep the old name: `AlterTableLaws.RenameFirstFails`
  is a form that fails for it, `AlterTableLaws.TableScriptReaches` says exactly which do.
* `internal/web/handlers.go:1315-1317` says that nothing else runs inside a cursor's transaction.
  Something does, in whole interleavings from the start, if a session is ended while the tab
  runs again (`internal/web/session.go:200`, `CursorTraces.LateDeleteLetsAStatementIn`), if a
  ROLLBACK or COMMIT is not sent because its context is done (`internal/web/cursor.go:96-98`,
  `internal/web/cursor.go:66-69`), or if a tab has two runs at once. Otherwise nothing does:
  `CursorTraces.StatementsGetInIffAHypothesisFails`.
* `internal/web/session.go:134-135` says that a connection is released or kept. Two runs of
  one tab that both started without a session lose one: `SessionFates.StepLoses`.
* `internal/web/privileges.go:112-115` says what a routine's argument list may contain; an
  unpaired quote gets through: `RoutineText.OddArgumentsAreAccepted`.
* `internal/web/listen.go:237-238` has unlisten run the statement; for the quoted channel `*` it runs
  another one: `ListenLaws.QuotedStarLeavesAll`.
* `internal/web/script.go:337-338` says that an identifier left without quotes needs none. In front of
  a dot a reserved word does: `AlterObject.ReservedSchemaFails`.

## Model

| member | source | states |
|---|---|---|
| SplitStatements.FindDollarQuoteTag | internal/web/ddl.go:362-378 | The loop finds the delimiter the lexical rule names: `$$`, or `$` identifier bytes `$`, at the very start; otherwise nothing |
| SplitStatements.ScanToken | internal/web/ddl.go:285-347 | One turn of the scanner, state by state, consumes exactly the token of the lexical rules: both-character comment marks, whole dollar tags, single bytes |
| SplitStatements.Flush | internal/web/ddl.go:275-280 | A piece of nothing but blanks is dropped, any other is kept trimmed and as written by `string(c)` |
| SplitStatements.SplitStatements | internal/web/ddl.go:259-352 | The byte loop with its lookahead returns the pieces between top-level semicolons, for every input |
| SplitSegments.SplitCutsAtSeparators | internal/web/ddl.go:259-352 | Told without the scanner: every script is made of separators, plain bytes, comments and quotes (told by their opening and closing characters), and however it is read as such, the statements are the texts between the separators |
| SplitSegments.CutsAtSeparators | internal/web/ddl.go:282-349 | The pieces of any text, behind a word byte or not, are cut at its separators and nowhere else, and the scan ends outside quotes and comments if and only if each of them is closed |
| SplitSegments.CommentsAndQuotesClose | internal/web/ddl.go:295-346 | Literally: `--` text and newline, `/*` text `*/`, quoted text in `'` or `"`, and `$w$` text `$w$` go through in one piece, no semicolon inside splitting, and leave the scanner where it was; without the closer it is still inside |
| SplitSegments.StatementBytesReadBack | internal/web/ddl.go:285-346 | The bytes that `string(c)` writes decode to the bytes of the statement |
| SplitLaws.PiecesAppend | internal/web/ddl.go:282-349 | Resumption: scanning a text, then a continuation in the state the first ended in, is scanning both together, if the continuation begins with a byte that no token goes on with, as a separator does |
| SplitLaws.SplitComposes | internal/web/ddl.go:259-352 | `split(a;b)` is `split(a)` followed by `split(b)` whenever scanning `a` ends outside quotes and comments |
| SplitLaws.SplitDoesNotComposeInsideAQuote | internal/web/ddl.go:317-321 | The condition of the previous law is needed: an open quote swallows the separator |
| SplitLaws.RawStatementStandsAlone | internal/web/ddl.go:275-352 | A statement cut out of any script, scanned by itself, is one statement, although lookahead and the byte before `$` have changed |
| SplitLaws.SplitIsLossless | internal/web/ddl.go:259-352 | Every script is its statements in order with only blanks and semicolons between them, at least one semicolon between two; and every semicolon that goes is a top-level one: scanning the script up to it ends outside quotes and comments |
| SplitLaws.FirstReturnedEndsNormal | internal/web/ddl.go:259-352 | If the first returned statement is the script's own text up to a semicolon, that semicolon is a top-level one |
| SplitLaws.SplitIdempotent | internal/web/ddl.go:259-352 | A returned statement splits into itself if and only if it is ASCII |
| SplitLaws.FixedPointIsAscii | internal/web/ddl.go:285-346 | Any text that splits into itself is ASCII: a high byte always comes out as two |
| SplitLaws.SplitKeepsText | internal/web/ddl.go:285-346 | The returned statements are the script's own text exactly if they are all ASCII |
| ClosedSql.BalancedConcat | internal/web/ddl.go:284-349 | Texts that leave the scanner where they found it, whatever stands around them, can be put together |
| ClosedSql.BalancedNegative | internal/web/ddl.go:295-298 | A minus sign in front of digits starts no comment, whatever follows |
| ClosedSql.DoubledClosesQuote | internal/web/ddl.go:317-326 | Inside a quote, a doubled text and one closing quote lead back to the start state with nothing split off |
| ClosedSql.BalancedQuoteIdent | internal/web/script.go:331-333 | A quoted identifier never opens a quote, a comment or a statement, for every string |
| ClosedSql.BalancedQuoteLiteral | internal/web/ddl.go:188-190 | The same for a string literal |
| ClosedSql.BalancedQuoteIfNeeded | internal/web/script.go:335-344 | The same for an identifier quoted only if needed |
| ClosedSql.BalancedQualIdent | internal/web/script.go:326-328 | The same for a qualified name |
| ClosedSql.SplitJoined | internal/web/ddl.go:1443-1445 | A joined script of closed statements splits into these statements, each as `string(c)` writes it |
| ClosedSql.SplitJoinRoundTrip | internal/web/ddl.go:1443-1445 | `split(join(stmts)) == stmts` for closed statements if and only if all of them are ASCII |
| ClosedSql.SplitClosed | internal/web/ddl.go:259-352 | A closed statement on its own is one statement, unchanged if ASCII |
| SqlNames.ReadQuoteIdent | internal/web/script.go:331-333 | Reading a quoted identifier back gives the name, for every string but the empty one and whatever text follows |
| SqlNames.ReadQuoteIfNeeded | internal/web/script.go:335-344 | The same when quotes are left out for safe names; where no dot stands before it, the printed name reads back exactly if it is neither empty nor a reserved word |
| SqlNames.ReadQualIdent | internal/web/script.go:324-328 | A qualified name reads back as its schema and its name, even with dots and quotes inside them, exactly if the schema is neither empty nor a reserved word and the name is not empty |
| Sessions.SessionTable.CountPinned | internal/web/session.go:76-84 | The pass over the map counts the sessions pinned on the pool |
| Sessions.SessionTable.LookUp | internal/web/session.go:101-119 | The first critical section of a run: reuse and mark busy, refuse a busy tab, refuse for want of room, or none; and the table it leaves |
| SessionSteps.StartOutcome | internal/web/session.go:99-119 | By the fields of the request and the table alone: a run is refused if and only if its tab's session is busy, or its named tab has none, auto-commit is off and `MaxConns - 1` sessions (1 for a smaller pool) or more are pinned on the pool; otherwise it reuses the session or waits for a connection |
| SessionSteps.AcquireOutcome | internal/web/session.go:121-131 | A new connection is inside a transaction exactly if auto-commit is off; a BEGIN that fails gives it back |
| SessionSteps.FinishOutcome | internal/web/session.go:136-170 | Told the same way: the whole state after the finish hook, for a connection that is kept and one that is not |
| SessionSteps.RefusedExactlyWhenFull | internal/web/session.go:146-150 | The tab is told that there is no room exactly if it is named, its run began without a session, its transaction is open and the pinned sessions are as many as may be |
| SessionSteps.ReleaseOutcome | internal/web/session.go:165-170 | A connection that is not kept is returned as it is, behind a ROLLBACK if it was inside a transaction |
| SessionSteps.TakeOutcome | internal/web/session.go:176-193 | What becomes of each session and its connection when sessions are taken |
| SessionSteps.EndingOutcome | internal/web/session.go:195-206 | A taken session is returned behind a ROLLBACK, and then its tab's cursor entry goes |
| SessionSteps.CheckOutcome | internal/web/handlers.go:1315-1336 | A run with a cursor of its tab on its connection goes on with it if and only if it asks for cursor mode and for a page (`nav`) of the same query text; in every other case it closes that cursor first; an entry on another connection goes |
| SessionSteps.RoomOutcome | internal/web/cursor.go:80-88 | A cursor is refused for want of room exactly if it has to open a transaction and the pinned sessions are as many as may be |
| SessionSteps.DeclareOutcome | internal/web/cursor.go:89-106 | A declared cursor is the tab's, for the query of the run on its connection, and owns the transaction exactly if none was open |
| SessionSteps.CloseOutcome | internal/web/cursor.go:63-75 | Closing a cursor takes its own entry away and no other, and the run goes on to its page or its statements |
| SessionSteps.FindOutcome | internal/web/cursor.go:181-190 | A page is read from the tab's cursor on the connection of the run, or one is declared |
| SessionSteps.FetchOutcome | internal/web/cursor.go:209-215 | A cursor that turns out to be gone is closed and declared again, once; any other fetch ends the run |
| SessionSteps.ExecuteOutcome | internal/web/handlers.go:1336-1345 | A run without a cursor executes its statements and leaves sessions and cursors alone |
| Sessions.SessionTable.Decide | internal/web/session.go:140-150 | When a finished run keeps its connection, and when it is refused for want of room |
| Sessions.SessionTable.Finish | internal/web/session.go:142-163 | The critical section of the finish hook: new table, note and identity, for a session of its own, a replaced one and none |
| Sessions.SessionTable.Take | internal/web/session.go:176-193 | The idle matches leave the table and are handed over, busy matches leave only on request, all others stay |
| Sessions.SessionTable.Forget | internal/web/session.go:199-204 | The late critical section of ending a session: the cursor entry goes, the note is set |
| Sessions.SessionTable.CursorFor | internal/web/cursor.go:50-59 | The tab's cursor if it lives on this connection; a stale entry is removed |
| Sessions.SessionTable.DropCursor | internal/web/cursor.go:70-74 | The entry goes only if it is still this very cursor |
| Sessions.SessionTable.RegisterCursor | internal/web/cursor.go:101-104 | The new cursor is on record for the tab, the other tabs keep theirs |
| Sessions.SessionTable.Status | internal/web/session.go:239-254 | The tab's state comes from the table, and its note is shown once |
| SessionLaws.StepKeepsInv | internal/web/session.go:99-206 | Each critical section and each database step keeps: one holder a connection, no holder of a returned one, idle sessions inside a transaction, ROLLBACK before return, pins bounded |
| SessionLaws.Safety | internal/web/session.go:99-206 | That invariant holds in every state of every interleaving of runs, takes and endings |
| SessionTheorems.OwnershipAlways | internal/web/session.go:99-206 | In every reachable state no two of the runs, the registered sessions and the taken sessions have the same connection, but for a busy session and the run on it, and nobody has a returned one |
| SessionTheorems.NeverReturnedTwice | internal/web/session.go:165-198 | In every run of the machine, at most one event gives a connection back to the pool: the finish hook, the ending of a taken session or a failed BEGIN, whichever it is |
| SessionTheorems.ReturnedWasGivenBack | internal/web/session.go:165-198 | A connection is on record as returned exactly if an earlier event gave it back |
| SessionTheorems.PinnedMeansInTransaction | internal/web/session.go:58-73 | In every reachable state a pinned connection that no query uses is in a transaction and the tab's state says which kind; none in a transaction is returned without a ROLLBACK |
| SessionTheorems.FinishPinsExactly | internal/web/session.go:136-170 | After the finish hook the connection is pinned if and only if it is in a transaction, the tab has a name, and its session is still the tab's or it began with none and fewer than `MaxConns - 1` are pinned (1 for a smaller pool); then it is the tab's, not busy, and the run is over |
| SessionTheorems.PinsLeaveOneConnection | internal/web/session.go:86-93 | In every reachable state at most `MaxConns - 1` connections of a pool with at least two are pinned, although the check at the start is made in an earlier critical section |
| SessionTheorems.DroppedIsNeverPinnedAgain | internal/web/session.go:143-168 | Once a disconnect drops a busy session, in all later states no tab is registered on its connection, which is returned or with a run that can only return it |
| SessionFates.SessionsApart | internal/web/session.go:151-155 | No two registered sessions, busy or not, are on one connection |
| SessionFates.StepLoses | internal/web/session.go:146-154 | Conservation, exactly: a step loses a connection if and only if a run that started without a session pins its own over an idle session of the tab |
| SessionFates.NothingIsLost | internal/web/session.go:99-206 | With at most one sessionless run a tab, every connection ever handed out is running, registered, taken or returned |
| SessionFates.TwoSessionlessRunsLoseAConnection | internal/web/session.go:146-154 | Without that hypothesis: a whole interleaving after which a connection is in nobody's hands and not returned |
| CursorLaws.StepKeepsCursorInv | internal/web/cursor.go:50-106 | Under one run a tab, a step keeps the record of which cursor owns which transaction, phase by phase, if and only if it is neither a late delete of an owner on record nor an ending of a cursor whose COMMIT or ROLLBACK is not sent |
| CursorLaws.OwnedTransactionsStayOnRecord | internal/web/handlers.go:1315-1336 | Over all interleavings with one run a tab, atomic ending and every COMMIT and ROLLBACK sent: a transaction opened for a cursor has its entry on the same connection with `ownsTx`, no other statement executes inside it, only pages of its own query read from it |
| CursorOrigins.PageComesFromItsCursor | internal/web/handlers.go:1319-1336 | Over all interleavings of any runs: the cursor a page is read from is the one that its own run declared for its query, or the one that stood in the tab's entry on the same connection at the run's check, and then the run asked for cursor mode, for a page (`nav`) and for the same query text |
| CursorLaws.LateDeleteBreaksTheLaw | internal/web/session.go:195-206 | The late delete leaves a transaction without its owner, for an idle session or a run in flight, if and only if the tab's entry is by then the owner on record for one of them |
| CursorTraces.LateDeleteLetsAStatementIn | internal/web/session.go:195-206 | A whole interleaving, one run at a time and every COMMIT and ROLLBACK sent, in which the late delete takes a second cursor off the record and a plain statement executes inside its transaction |
| CursorTraces.UnsentRollbackLetsAStatementIn | internal/web/cursor.go:93-100 | A whole interleaving in which DECLARE fails, the ROLLBACK is not sent, the connection is pinned and the next statement executes inside the transaction |
| CursorTraces.UnsentCommitLetsAStatementIn | internal/web/cursor.go:63-75 | A whole interleaving in which a cursor makes way for a statement, the COMMIT is not sent and the statement executes inside the transaction |
| CursorTraces.SecondRunLetsAStatementIn | internal/web/cursor.go:50-59 | A whole interleaving in which a second run of the tab takes a stale entry away and a later statement executes inside the first one's transaction |
| CursorTraces.StatementsGetInIffAHypothesisFails | internal/web/handlers.go:1315-1336 | Of the three hypotheses none can be spared: for any choice of them there is an interleaving that lets a statement into a cursor's transaction if and only if one is given up |
| Paging.ServerCursor.Total | internal/web/cursor.go:150-159 | Moving to the start and over everything counts the rows, wherever the cursor stood, or gives the error of a closed cursor or of the query |
| Paging.ServerCursor.FetchPage | internal/web/cursor.go:116-147 | A page is the rows behind the offset, wherever the cursor stood; a closed cursor fails, and so does a query that fails before the page is full |
| Paging.RenderCursorPage | internal/web/cursor.go:171-233 | The reply, errors included, as a function of the query and of what became of the cursor: none and one that is gone are declared anew, the latter not for the last page; an aborted transaction and a failing query are reported; the position of the cursor never matters |
| Paging.CursorPageIsOffsetPage | internal/web/cursor.go:207-228 | Cursor mode shows the rows LIMIT/OFFSET shows, says exactly when more follow, and claims a total that is right if and only if the page does not lie beyond the rows |
| Paging.CursorPageSays | internal/web/cursor.go:221-241 | Every field of the page by the number of its first row: the rows one by one, the page, one page more while more follow, and the total: all rows if counted, those shown so far while more follow, the end of the page otherwise |
| Paging.PageFailsIff | internal/web/cursor.go:205-219 | A failing query fails on a page if and only if it is the last one or reaches to the row where it fails, one row behind those shown |
| Paging.PageCountCovers | internal/web/handlers.go:1457-1460 | The page count of the LIMIT/OFFSET path is enough and none too many |
| Paging.TotalsUpToTheLastPage | internal/web/cursor.go:201-233 | Up to that count a known total is the true one, more is announced exactly before the last page, and "last" lands on it |
| Paging.PagesAreAllRows | internal/web/cursor.go:207-228 | The pages up to that count, put together, are all rows, each once and in order |
| Lists.ParseList | internal/web/ddl.go:1969-1978 | The pass keeps the trimmed, non-empty entries in order |
| Lists.JoinedSelectionSurvives | internal/web/ddl.go:1553-1559 | A selection joined into one field arrives as it was if and only if no name has a comma or a blank at an end |
| Lists.ListDiff | internal/web/ddl.go:1570-1582 | Both passes: what is new and what is gone, in order |
| Privileges.PrivDiff | internal/web/privileges.go:201-232 | The pass over the privileges and the four emits print exactly the changes from the loaded to the submitted grants |
| Privileges.DecodePrivState | internal/web/privileges.go:140-147 | The travelling state is decoded entry by entry, later entries for a privilege winning |
| Privileges.CollectTicked | internal/web/privileges.go:185-190 | The submitted grants are the ticked privileges of the kind, each with its option box |
| Privileges.BuildPrivileges | internal/web/privileges.go:161-197 | The script or the refusal, with the refusals in their order, as many rows as the posted count says (none for text that is no number), absent ones passed over, and the new grantee's row last and from nothing |
| Privileges.CompleteCells | internal/web/privileges.go:264-282 | The cells in display order, the last granted one for each privilege, and the state with all of them |
| Privileges.LoadPrivRows | internal/web/privileges.go:235-260 | One row a grantee in order of appearance, with all its ACL lines |
| PrivilegeLaws.DiffReachesSubmitted | internal/web/privileges.go:199-232 | Running a diff on grants that are as loaded gives the submitted grants on the kind's privileges and leaves all other privileges alone |
| PrivilegeLaws.DiffIsEmptyIffAgree | internal/web/privileges.go:199-232 | Nothing is emitted if and only if loaded and submitted grants agree |
| PrivilegeLaws.DiffShape | internal/web/privileges.go:199-232 | Revokes come first, no statement is empty, and a privilege is in at most one statement of a grantee |
| PrivilegeLaws.RowsToSqlRenders | internal/web/privileges.go:176-191 | The text of the script is the text of the interpreted statements, in order |
| PrivilegeLaws.RowsReachSubmitted | internal/web/privileges.go:159-197 | Running the whole form's statements on an ACL that is as loaded gives every grantee what is ticked, and changes nobody else and no other privilege |
| PrivilegeForms.DecodeOfEncode | internal/web/privileges.go:139-147 | Decoding an encoded list of granted cells gives the grants, duplicates included, for every list |
| PrivilegeForms.DisplayMatchesState | internal/web/privileges.go:262-282 | The shown cells and the travelling state say the same about every privilege |
| PrivilegeForms.NoChangesIffAgree | internal/web/privileges.go:193-195 | A form is refused for lack of changes if and only if every row agrees with its loaded state |
| PrivilegeForms.FreshGridRequestsNothing | internal/web/privileges.go:171-195 | A freshly loaded grid posted back unchanged, its row count printed and read back, is refused for lack of changes, for every ACL of at most 500 grantees and for no larger one |
| PrivilegeForms.EditedGridIsReached | internal/web/privileges.go:235-282 | From any reported ACL through the grid and any edit of it: the script gives exactly what is ticked |
| PrivilegeForms.GridShowsTheLines | internal/web/privileges.go:235-282 | Each cell of the loaded grid shows what the ACL lines say of its grantee and privilege, the last of several counting |
| PrivilegeForms.GranteesInOrder | internal/web/privileges.go:245-255 | The rows of the loaded grid are the grantees of the lines, each once, in the order of their first lines |
| PrivilegeForms.StarIsTheOption | internal/web/privileges.go:139-147 | In the travelling state a name is a privilege held, and a star behind it the grant option |
| PrivilegeKinds.KindIsGrantable | internal/web/privileges.go:62-86 | Each kind is one object type of GRANT under its keyword, cluster-wide if that is a database or a tablespace, and offers each privilege that can be granted on the type, once, in display order, and no other |
| PrivilegeKinds.TargetIsAccepted | internal/web/privileges.go:116-137 | An object is accepted exactly if it is named, in a schema if its type needs one, and a routine by a name and an argument list of the allowed characters, with an even number of quotes in all |
| PrivilegeKinds.PrivilegeFormIsAccepted | internal/web/privileges.go:161-197 | A form makes a script if and only if its kind and object are accepted, it says that it has 0 to 500 rows, and one of these or the new grantee's asks for a change |
| PrivilegeForms.AddedRowMerges | internal/web/privileges.go:177-184 | The row for a new grantee only adds, even for a grantee who has a row already: the ticked boxes come on top of what that row gave |
| PrivilegeText.GranteeSqlIsInjective | internal/web/privileges.go:150-155 | Two grantees never have the same text |
| PrivilegeRead.GranteesReadAlike | internal/web/privileges.go:149-155 | Two grantees are read as one exactly if they are equal or are the keyword PUBLIC and the name public, which PostgreSQL takes for the keyword even in quotes |
| PrivilegeText.RenderIsClosed | internal/web/privileges.go:222-230 | A statement with a balanced target is closed for every grantee |
| PrivilegeText.ScriptSplitsBack | internal/web/privileges.go:196-232 | For every kind but functions and procedures, the script splits back into its statements if and only if they are ASCII, whatever the names |
| RoutineText.RoutineTargetBalancedIff | internal/web/privileges.go:116-127 | The name of a routine leaves the scanner where it was if and only if the argument list has an even number of quotes |
| RoutineText.OddArgumentsAreAccepted | internal/web/privileges.go:124 | A name with an odd argument list that passes the check, because quotes are counted over the whole name |
| RoutineText.RoutineStatementSplitsBack | internal/web/privileges.go:116-137 | A statement about a routine, for any grantee, splits back into itself if and only if the argument list has an even number of quotes and the text is ASCII |
| RoutineText.RoutineScriptSplitsBack | internal/web/privileges.go:116-137 | A script about a routine splits back into its statements if and only if the argument list has an even number of quotes and the statements are ASCII |
| RoutineText.OddArgsEndInside | internal/web/privileges.go:150-155 | Behind an odd argument list a statement ends inside a quote or a comment, whatever the grantee's name holds: its doubled quotes are off by one and never come out even |
| PrivilegeRead.StatementReadsBack | internal/web/privileges.go:222-230 | Every printed statement reads back as itself: verb, privileges, grantee, grant option and object, a routine with its arguments included, whatever the characters of the names; the name public is read as PUBLIC, and the grantee none, a schema that is a reserved word or a routine without a name makes it unreadable |
| PrivilegeRead.ScriptTextReachesSubmitted | internal/web/privileges.go:159-232 | End to end, for ASCII statements and, of a routine, arguments with an even number of quotes: the script text, split by the server's own splitter, read back and run on an ACL that is as loaded, gives every grantee exactly what is ticked and changes nothing else if and only if the schema is no reserved word, a routine has a name, and no row of a grantee named public or none is edited |
| AlterObject.AlterOwnerSchemaRename | internal/web/ddl.go:1617-1636 | The statements printed are those of the plan: owner, then schema, then the new name on the object in its new schema |
| AlterSequence.BuildAlterSequence | internal/web/ddl.go:1845-1885 | The script with the options in front, or the refusal |
| AlterObject.PlanReachesRequested | internal/web/ddl.go:1617-1636 | On any catalog the script goes through if and only if the names it takes are free, and then the object has the requested schema, name and owner and everything else is as before |
| AlterSequence.SequencePlanReachesRequested | internal/web/ddl.go:1845-1885 | With no blank inside a number field, the script gives the sequence each setting by the field of its name (increment, minimum, maximum, restart, cache, cycle), its owner, schema and name, if and only if what is typed are numbers and the names are free, and fails otherwise |
| AlterObject.ScriptNamesCurrentObject | internal/web/ddl.go:1612-1616 | Read back from the text, every statement names the object by the schema and name it has at that point, whatever characters these have, or is unreadable exactly if that schema is empty or a reserved word |
| AlterSequence.SequenceScriptNamesCurrentObject | internal/web/ddl.go:1845-1885 | The same for the sequence script |
| AlterSequence.OptionTextReachesRequested | internal/web/ddl.go:1853-1873 | The option text, read back, sets what the fields ask for and leaves the other settings, exactly if numbers are typed |
| AlterSequence.BlankInsideSaysMore | internal/web/ddl.go:1853-1855 | The hypothesis is needed: an increment typed as `5 CYCLE` is pasted as it is and makes the sequence cycle |
| AlterSequence.SequenceTextReachesRequested | internal/web/ddl.go:1845-1885 | End to end, for ASCII statements and numbers for options: the text, split, read back and run, gives the requested sequence or fails exactly if a name is taken or a schema in front of a name is empty or a reserved word |
| AlterSequence.SequenceFormIsAccepted | internal/web/ddl.go:1845-1885 | A form makes a script if and only if it names the sequence and asks for an option, an owner, a schema or a name, and otherwise which refusal it gets |
| AlterObject.RenderAlterIsClosed | internal/web/ddl.go:1617-1636 | Every owner, schema and name statement is closed, for any names |
| AlterObject.AlterScriptSplitsBack | internal/web/ddl.go:1617-1636 | The script splits back into its statements if and only if they are ASCII |
| AlterObject.ScriptTextReachesRequested | internal/web/ddl.go:1612-1616 | End to end, for ASCII statements: the script text, split, read back and run, does what was requested or fails exactly if a name is taken or a schema in front of a name is empty or a reserved word |
| AlterObject.ReservedSchemaFails | internal/web/script.go:337-344 | A view in a schema named `user`: its new owner takes nothing that is taken, yet the script fails, since the schema is left unquoted |
| Numbers.ItoaReadsBack | internal/web/ddl.go:1526-1532 | The connection limit is printed as the number that was read, for every 64-bit number |
| Numbers.AtoiReadsInt64 | internal/web/ddl.go:1526-1532 | A number is read exactly if it is one of 64 bits; beside the error stands the nearest of them, or 0 for text that is none |
| Numbers.NumbersAreNumerals | internal/web/ddl.go:1526-1532 | Text is a number exactly if it is digits, at least one, with at most a sign in front |
| Numbers.SignsAndZeros | internal/web/ddl.go:1526-1532 | A plus sign and leading zeros do not matter, a minus sign negates |
| SqlQuote.PlainNamesStay | internal/web/script.go:335-344 | A name is left unquoted exactly if it is small letters, underscores and, behind the first character, digits |
| AlterRole.BuildAlterRole | internal/web/ddl.go:1503-1549 | The script or the refusal: attributes, memberships, new name, in this order |
| AlterRole.RoleMembershipStatements | internal/web/ddl.go:1588-1610 | Both lists are compared only if the form knows what they were; grants come before revokes |
| AlterRoleLaws.ActsReachRequested | internal/web/ddl.go:1509-1535 | The attribute list sets every attribute that was filled in, by the field of its name, to what was filled in and no other |
| AlterRoleLaws.RoleFormIsAccepted | internal/web/ddl.go:1503-1549 | A form makes a script if and only if it names the role, its limit is blank or a number from -1 up, and it answers an attribute, changes a list that it knows the state of, or gives a new name |
| AlterRoleLaws.RolePlanReachesRequested | internal/web/ddl.go:1503-1549 | On any catalog that is as the form was loaded, the script goes through unless the new name is taken or reserved, with exactly the requested attributes and memberships under the requested name and all other roles untouched |
| AlterRoleLaws.StatementsNameTheRole | internal/web/ddl.go:1537-1545 | Every statement is about the role under its old name, and the rename is the last |
| AlterRoleLaws.RenderRoleIsClosed | internal/web/ddl.go:1537-1545 | Every statement is closed, whatever the names, password and date, and with a limit of -1 |
| AlterRoleLaws.RoleScriptSplitsBack | internal/web/ddl.go:1549 | An accepted form's script splits back into its statements if and only if they are ASCII |
| RoleRead.RoleReadsBack | internal/web/ddl.go:1537-1545 | Every printed statement reads back as itself, attributes, password, limit and date included |
| RoleRead.RoleTextReachesRequested | internal/web/ddl.go:1503-1549 | End to end, for ASCII statements: the script text, split, read back and run on roles that are as loaded, does what was requested or fails exactly if the new name is taken or reserved |
| AlterTable.BuildColumnDef | internal/web/ddl.go:716-730 | A column definition, or the refusal of a generated column with a default |
| AlterTable.EmitRow | internal/web/ddl.go:1701-1730 | What one row for an existing column prints: drop, or type, nullability, default and rename where they differ |
| AlterTable.EmitAdditions | internal/web/ddl.go:1737-1754 | What the rows for new columns print, or the first row's refusal |
| AlterTable.BuildAlterTable | internal/web/ddl.go:1674-1781 | The script or the refusal: the table's own changes first, then its columns, then the new ones |
| AlterTableLaws.RowReaches | internal/web/ddl.go:1701-1730 | The statements of one row turn its column into the submitted one, in place, and fail exactly if the new name is in use or the default of a generated column is changed |
| AlterTableLaws.ColumnsReachSubmitted | internal/web/ddl.go:1690-1754 | On the table the form was filled from, the column statements go through if and only if no name is given that is in use by then and no default of a generated column is changed, and give exactly the submitted columns in order |
| TableForms.NewRowsAreAccepted | internal/web/ddl.go:1737-1754 | The rows for new columns are refused with the message of the first that has something typed but no name, no type, or a default beside a generation expression; untouched rows are passed over |
| TableForms.TableFormIsAccepted | internal/web/ddl.go:1674-1781 | A form makes a script if and only if it names the table, no row for a new column is refused, and it asks for an owner, a schema, a name, a change of a column or a new one |
| TableForms.SingleLineIsOneLine | internal/web/ddl.go:532-535 | Typed text is put on one line by dropping carriage returns and turning newlines into blanks, and is otherwise left as it is |
| TableForms.EntryIsTyped | internal/web/ddl.go:1684-1689 | An entry is what was typed without the blanks around it, and empty where the list is too short |
| AlterTableLaws.FreshNamesAreFree | internal/web/ddl.go:1690-1754 | Names that are new to the table and given once are always free |
| AlterTableLaws.TableScriptReaches | internal/web/ddl.go:1674-1754 | The whole script gives the requested table if and only if the names are free, no default of a generated column is changed, and it does not both move or rename the table and touch a column; in every other case it fails, since column statements keep the old name |
| AlterTableLaws.RenameLastReaches | internal/web/ddl.go:1440-1442 | With the statements in the order that the comment asks for, the script would go through whenever the names are free and the columns allow it |
| AlterTableLaws.RenameFirstFails | internal/web/ddl.go:1674-1754 | A form and a catalog, a table renamed and one column retyped, on which every name is free, the script as written fails, and the other order goes through |
| ColumnRead.ColumnReadsBack | internal/web/ddl.go:1707-1754 | A printed column statement, ADD COLUMN included, reads back as itself, about the very table and column, with type and default as typed, if and only if the schema is neither empty nor a reserved word and no word in the type of a new column ends it too early |
| ColumnRead.DefinitionReadsBack | internal/web/ddl.go:716-730 | A printed column definition reads back as its column if and only if its type holds none of the words that end a type |
| ColumnRead.DefaultIsNoType | internal/web/ddl.go:716-717 | The type `int DEFAULT 5` ends behind `int` |
| TableRead.TableScriptSplitsBack | internal/web/ddl.go:1674-1781 | With balanced types, defaults and generation expressions the whole script splits back into its statements if and only if they are ASCII |
| TableRead.TableTextReaches | internal/web/ddl.go:1674-1781 | End to end, for ASCII statements and balanced typed text: the text of the whole script, ADD COLUMN included, split, read back and run on the catalog the form was filled from, gives the requested table or fails exactly if a name is taken, the default of a generated column is changed, the table is both moved and a column touched, or a schema in front of a name is empty or a reserved word |
| SqlNames.ReadQuoteLiteral | internal/web/ddl.go:188-190 | A string literal is read back as the text it was printed from, for every text |
| CopySql.CopyCharMeansTheCharacter | internal/web/copy_data.go:39-47 | An option is accepted exactly if it is a tab or one byte other than a line end, and its literal stands for just that byte |
| CopySql.BuildCopySql | internal/web/copy_data.go:51-117 | The statement, or the first refusal in the order of the checks |
| CopySql.CopyIsOneStatement | internal/web/copy_data.go:51-117 | An accepted COPY statement is closed for any table, columns and options, and splits into itself if and only if it is ASCII |
| CopyRead.CopyReadsBack | internal/web/copy_data.go:51-117 | An accepted statement reads back as what the form asks for: direction (out for an export, in for an import), schema, table, trimmed columns, and each option by the field of its own name, a tab for `tab`, as far as the format has use for it; if and only if the schema is no reserved word, otherwise it is no statement |
| CopyRead.CopyFormIsAccepted | internal/web/copy_data.go:51-117 | A form is accepted if and only if direction, table, format and encoding are known and the one-character options that the format has use for are blank, a tab or one character other than a line end |
| Listen.ParseOfQuoted | internal/web/listen.go:317-339 | LISTEN or UNLISTEN with a quoted channel parses back to that channel, for every non-empty one, and the empty one is refused |
| Listen.AcceptedQuotedArg | internal/web/listen.go:329-334 | Every accepted quoted argument is what quoting its channel prints |
| Listen.AcceptedRoundTrip | internal/web/listen.go:317-339 | The channel of any accepted command, quoted behind LISTEN, parses back to that channel |
| ListenForms.ArgumentIsAccepted | internal/web/listen.go:326-338 | An argument is accepted if and only if it is a quoted name, an unquoted one of letters, digits and underscores, or the star of an UNLISTEN; the channel is what the quotes hold, the name in lower case, or the star |
| ListenForms.StatementIsParsed | internal/web/listen.go:317-326 | A word, a blank and an argument are taken for the word in capitals and the argument, whatever blanks are around them and semicolons behind |
| ListenForms.OneWordIsRefused | internal/web/listen.go:317-322 | A single word is refused: it names no channel |
| ListenMeaning.MeaningOfSent | internal/web/listen.go:239-257 | Read by PostgreSQL's rules for blanks, comments, names and the wildcard, the sent statement is about the parsed channel, or about all of them if that is `*` and the verb is not LISTEN |
| ListenLaws.SentMeansWhatWasWritten | internal/web/listen.go:239-257 | What is sent for an intercepted and accepted statement means what was written if and only if the statement begins with its keyword, is ASCII outside the quotes, and its argument is neither an unquoted reserved word nor the quoted channel `*` of an UNLISTEN |
| ListenLaws.QuotedStarLeavesAll | internal/web/listen.go:250-253 | UNLISTEN of the quoted channel `*` is accepted, means that one channel, and is sent as the wildcard |
| ListenLaws.CommentedKeywordIsSent | internal/web/listen.go:317-339 | LISTEN behind a comment line reaches the listener and is sent as UNLISTEN |
| ListenLaws.HighBlankIsAName | internal/web/listen.go:317-325 | A blank beyond ASCII in front of the channel is trimmed, though PostgreSQL takes it for part of the name |
| ListenMeaning.Listener.Listen | internal/web/listen.go:239-247 | The tracked channels stay the ones registered on the server, the new one among them, or nothing changes |
| ListenMeaning.Listener.Unlisten | internal/web/listen.go:249-269 | The tracked channels stay the ones registered on the server when one or all are left |
| ExplainPlan.BuildPlanNode | internal/web/explain_plan.go:126-159 | Fresh nodes, one for each of the document, in its order and its shape, one level deeper each, with their inclusive and exclusive numbers |
| ExplainPlan.FlattenPlan | internal/web/explain_plan.go:161-167 | The nodes in document order behind what was there |
| ExplainPlan.AnnotatePlan | internal/web/explain_plan.go:213-257 | Every node gets its share, bar, tier and fold from the total over all; exactly the first slowest is flagged, if there are others and it takes a fifth |
| ExplainPlan.BuildPlanView | internal/web/explain_plan.go:291-306 | The view: annotated tree and sorted table of the same nodes, the six topmost levels open |
| PlanTraces.MetricsAreSelfTimes | internal/web/explain_plan.go:142-157 | For any execution, reported as PostgreSQL does with times averaged over the loops: the metrics are the time each node took itself, or without an execution the cost of its own, in document order |
| PlanTraces.NoLoopsCountOnce | internal/web/explain_plan.go:135-141 | The inclusive time is time times loops, a node that reports no loops counting once, and there is none without an execution |
| ExplainPlan.MetricsCoverTheTotal | internal/web/explain_plan.go:142-157 | The exclusive metrics add up to at least the root's total, and to exactly that if and only if no node's children claim more than the node |
| ExplainPlan.SharesAddUpTo100 | internal/web/explain_plan.go:214-222 | The shares of a positive total add up to 100 percent |
| ExplainPlan.SharesArePercentages | internal/web/explain_plan.go:142-157 | Whatever numbers the document holds, every share of its tree lies between 0 and 100 percent |
| ExplainPlan.BarWidthFollowsShare | internal/web/explain_plan.go:228 | A bar is between 1 and 100 wide, within half a percent of a share of 1 to 100, and never shorter for a greater share |
| ExplainPlan.TierFollowsShare | internal/web/explain_plan.go:229-236 | A bar is hot from half of a positive total on, warm from a fifth on, and cool below |
| ExplainPlan.HotspotIsTheFirstSlowest | internal/web/explain_plan.go:254-256 | A node is flagged if and only if it is the first of the slowest, not the only node, and takes a fifth or more of a positive total |
| ExplainPlan.TableIsStableDescending | internal/web/explain_plan.go:305-306 | The table is a permutation of the tree's nodes, slowest first, equal ones in document order |
| ExplainPlan.StableSortIsUnique | internal/web/explain_plan.go:306 | There is only one such table, so any stable sort gives it |
| TailBuffers.TailBuffer.Write | internal/web/jobs.go:41-49 | The buffer keeps the end of everything written, 16 KiB of it at least and 32 KiB at most |
| TailBuffers.TailBuffer.String | internal/web/jobs.go:51-59 | Reading gives the last 16 KiB of everything written, or all of it |
| TailBuffers.Tail | internal/web/jobs.go:36-59 | The same after any sequence of writes |

## Left out

- PrivilegeText.ScriptSplitsBack: functions and procedures are apart, because their argument list is printed as typed; `RoutineText.RoutineScriptSplitsBack` has the exact condition for them.
- AlterSequence.SequenceTextReachesRequested: options are printed as typed, so only numbers are claimed; what PostgreSQL asks of them (a minimum below the maximum and the like) is not modelled.
- AlterObject.PlanReachesRequested: functions and procedures are left out, as they are from AlterObject.AlterOwnerSchemaRename; they are qualified by their signature and otherwise altered the same way.
- AlterObject.AlterOwnerSchemaRename: not for functions and procedures, whose signature is printed behind the name.
- ExplainPlan.AnnotatePlan: the warning badges other than the hotspot, the metric texts and the details are left out; each is read off one branch.
- Paging.RenderCursorPage: a broken connection and the history entry are left out; what declareCursor returns is a parameter.
- TableRead.TableTextReaches: typed text is taken as one type or one expression; that it is one, and constraint words typed in lower case, are not checked.
- AlterTable.BuildAlterTable: models the forms whose foreign key, exclusion and partition blocks are blank; these builders only append one more clause each.
- AlterRoleLaws.RolePlanReachesRequested: a membership of a role in itself fails, a longer cycle of memberships is not detected.
- PrivilegeForms.EditedGridIsReached: an ACL with several lines for one grantee and privilege (several grantors) is read by its last line, as the grid does; what a REVOKE does about grantors is not modelled.
- PrivilegeLaws.RowsReachSubmitted: a role that is really named PUBLIC cannot be told from the keyword in a grid; what the names public and none mean in the text is in `PrivilegeRead`.
- Paging.TotalsUpToTheLastPage: pages past the end are outside it; there the code reports the offset as the total, which `Paging.CursorPageIsOffsetPage` states.
- ExplainPlan.SharesAddUpTo100: over real numbers, without the rounding of floating point.
- Object names are compared as strings: PostgreSQL's limit on the length of names is not modelled, nor are its further reserved role and schema names (owners public and none, schemas pg_...).
- ListenLaws.SentMeansWhatWasWritten: of `strings.ToUpper` and `strings.ToLower` only the letters that come out as ASCII are modelled; any other letter is left as it is, which changes no comparison the code makes.
- PostgreSQL, the driver and the pool: every Acquire gives a new handle; BEGIN, COMMIT and ROLLBACK, once sent, leave the status they name or a closed connection; a BEGIN that fails leaves no transaction open; a cursor is a fixed sequence of rows, behind which the query ends or fails.
- That every statement with auto-commit off runs in a transaction is not claimed: reusing a pinned session issues no BEGIN.
- Timeouts, the janitor's clock and its idle limits: the janitor may take any idle sessions at any time.
- Results of the database work between two critical sections are events of their own, in any order the mutex allows.
- The formatting of numbers.
- The list of jobs, its pruning and the processes behind it.
- CREATE and DROP builders, and ALTER builders that only read one or two fields.
- HTTP routing, templates, streaming, query history, stored files, logins and monitoring.
