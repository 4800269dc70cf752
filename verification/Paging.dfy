/** Pages of a result: the cursor path of internal/web/cursor.go against the
LIMIT/OFFSET path of internal/web/handlers.go. */
module Paging {
  import opened Wrappers

  predicate IsPage(page: int, limit: int) {
    page >= 1 && limit >= 1
  }

  function Min(a: int, b: int): int {
    if a < b then a else b
  }

  /** Rows from..to of a result, as far as there are any. */
  function Slice<T>(rows: seq<T>, from: nat, to: nat): (r: seq<T>)
    ensures |r| == if from >= |rows| || to <= from then 0 else Min(to, |rows|) - from
  {
    if from >= |rows| || to <= from then [] else rows[from..Min(to, |rows|)]
  }

  /** The page count of the LIMIT/OFFSET path. */
  function PageCount(total: nat, limit: int): (n: int)
    requires limit >= 1
    ensures n >= 1
  {
    var n := (total + limit - 1) / limit;
    if n < 1 then 1 else n
  }

  /** What SELECT ... LIMIT limit OFFSET (page-1)*limit returns. */
  function OffsetPage<T>(rows: seq<T>, page: int, limit: int): seq<T>
    requires IsPage(page, limit)
  {
    Slice(rows, Offset(page, limit), Offset(page, limit) + limit)
  }

  function Offset(page: int, limit: int): (o: nat)
    requires IsPage(page, limit)
  {
    NonNegativeProduct(page - 1, limit);
    (page - 1) * limit
  }

  lemma NonNegativeProduct(a: int, b: int)
    requires a >= 0 && b >= 0
    ensures a * b >= 0
  {
  }

  /** What a query computes: its rows, and whether it ends behind them or fails there. */
  datatype Query<+T> = Query(rows: seq<T>, ends: bool)

  /** Open, gone with its transaction, or in a transaction that an error has aborted. */
  datatype CursorState = Open | Gone | Aborted

  datatype Failure = InvalidCursor | TransactionAborted | QueryFailed | DeclareFailed

  datatype Reply<+T> = Done(value: T) | Failed(why: Failure)

  function WhyClosed(state: CursorState): Failure {
    if state == Gone then InvalidCursor else TransactionAborted
  }

  /** A scrollable server-side cursor; the rows are computed as it reaches them.
  `pos` rows are behind it. */
  class ServerCursor<T> {
    const query: Query<T>
    var pos: nat
    var state: CursorState

    ghost predicate Valid()
      reads this
    {
      pos <= |query.rows| + 1
    }

    constructor (query: Query<T>)
      ensures Valid() && this.query == query && state == Open
    {
      this.query := query;
      this.pos := 0;
      this.state := Open;
    }

    /** Computes the rows up to number n: an error aborts the transaction. */
    method Reach(n: nat) returns (r: Reply<()>)
      requires Valid()
      modifies this`state
      ensures r == if old(state) != Open then Failed(WhyClosed(old(state)))
                   else if n <= |query.rows| || query.ends then Done(()) else Failed(QueryFailed)
      ensures state == if r == Failed(QueryFailed) then Aborted else old(state)
    {
      if state != Open {
        return Failed(WhyClosed(state));
      }
      if n > |query.rows| && !query.ends {
        state := Aborted;
        return Failed(QueryFailed);
      }
      return Done(());
    }

    /** MOVE ABSOLUTE n: the cursor stands on row n, or behind the last row. */
    method MoveAbsolute(n: nat) returns (r: Reply<()>)
      requires Valid()
      modifies this
      ensures Valid()
      ensures r == if old(state) != Open then Failed(WhyClosed(old(state)))
                   else if n <= |query.rows| || query.ends then Done(()) else Failed(QueryFailed)
      ensures state == if r == Failed(QueryFailed) then Aborted else old(state)
      ensures pos == if r.Done? then Min(n, |query.rows| + 1) else old(pos)
    {
      r := Reach(n);
      if r.Done? {
        pos := if n <= |query.rows| then n else |query.rows| + 1;
      }
    }

    /** FETCH FORWARD n */
    method FetchForward(n: nat) returns (r: Reply<seq<T>>)
      requires Valid()
      modifies this
      ensures Valid()
      ensures r == if old(state) != Open then Failed(WhyClosed(old(state)))
                   else if old(pos) + n <= |query.rows| || query.ends
                   then Done(Slice(query.rows, old(pos), old(pos) + n)) else Failed(QueryFailed)
      ensures state == if r == Failed(QueryFailed) then Aborted else old(state)
    {
      var reached := Reach(pos + n);
      if reached.Failed? {
        return Failed(reached.why);
      }
      r := Done(Slice(query.rows, pos, pos + n));
      pos := if pos + n <= |query.rows| then pos + n else |query.rows| + 1;
    }

    /** MOVE FORWARD ALL reports how many rows it passed. */
    method MoveForwardAll() returns (r: Reply<nat>)
      requires Valid()
      modifies this
      ensures Valid()
      ensures r == if old(state) != Open then Failed(WhyClosed(old(state)))
                   else if query.ends then Done(if old(pos) <= |query.rows| then |query.rows| - old(pos) else 0)
                   else Failed(QueryFailed)
      ensures state == if r == Failed(QueryFailed) then Aborted else old(state)
    {
      var reached := Reach(|query.rows| + 1);
      if reached.Failed? {
        return Failed(reached.why);
      }
      r := Done(if pos <= |query.rows| then |query.rows| - pos else 0);
      pos := |query.rows| + 1;
    }

    /** cursorTotal */
    method Total() returns (r: Reply<nat>)
      requires Valid()
      modifies this
      ensures Valid()
      ensures r == if old(state) != Open then Failed(WhyClosed(old(state)))
                   else if query.ends then Done(|query.rows|) else Failed(QueryFailed)
      ensures state == if r == Failed(QueryFailed) then Aborted else old(state)
    {
      var moved := MoveAbsolute(0);
      if moved.Failed? {
        return Failed(moved.why);
      }
      r := MoveForwardAll();
    }

    /** fetchCursorPage */
    method FetchPage(offset: nat, n: nat) returns (r: Reply<seq<T>>)
      requires Valid()
      modifies this
      ensures Valid()
      ensures r == if old(state) != Open then Failed(WhyClosed(old(state)))
                   else if query.ends || offset + n <= |query.rows|
                   then Done(Slice(query.rows, offset, offset + n)) else Failed(QueryFailed)
      ensures state == if r == Failed(QueryFailed) then Aborted else old(state)
    {
      var moved := MoveAbsolute(offset);
      if moved.Failed? {
        return Failed(moved.why);
      }
      r := FetchForward(n);
    }
  }

  /** What renderCursorPage tells the page template. */
  datatype View<T> = View(rows: seq<T>, page: int, hasMore: bool, total: nat, totalKnown: bool, totalPages: int)

  /** The reply of renderCursorPage on an open cursor: the page, or the failure of the
  query at a row that is needed, which is one more than the page shows. */
  function OpenReply<T>(query: Query<T>, wanted: int, limit: int, last: bool): Reply<View<T>>
    requires IsPage(wanted, limit)
  {
    var page := if last then PageCount(|query.rows|, limit) else wanted;
    if query.ends || (!last && Offset(page, limit) + limit < |query.rows|)
    then Done(CursorView(query.rows, page, limit, last)) else Failed(QueryFailed)
  }

  /** The page that "last" is. */
  method LastPage(total: nat, limit: int) returns (page: int)
    requires limit >= 1
    ensures page == PageCount(total, limit)
  {
    page := (total + limit - 1) / limit;
    if page < 1 {
      page := 1;
    }
  }

  /** What fetchCursorPage gives on an open cursor. */
  function Fetched<T>(query: Query<T>, offset: nat, n: nat): Reply<seq<T>> {
    if query.ends || offset + n <= |query.rows| then Done(Slice(query.rows, offset, offset + n)) else Failed(QueryFailed)
  }

  /** The fetch of renderCursorPage: a cursor that is gone is declared again. */
  method FetchOrDeclare<T>(cursor: ServerCursor<T>, declared: Option<ServerCursor<T>>, offset: nat, n: nat)
    returns (got: Reply<seq<T>>)
    requires cursor.Valid() && (declared.Some? ==> declared.value.Valid() && declared.value.state == Open)
    modifies cursor, if declared.Some? then {declared.value} else {}
    ensures got == if old(cursor.state) == Open then Fetched(cursor.query, offset, n)
                   else if old(cursor.state) == Aborted then Failed(TransactionAborted)
                   else if declared.None? then Failed(DeclareFailed) else Fetched(declared.value.query, offset, n)
    ensures old(cursor.state) != Gone && declared.Some? && declared.value != cursor ==> unchanged(declared.value)
  {
    hide Slice;
    got := cursor.FetchPage(offset, n);
    if got == Failed(InvalidCursor) {
      if declared.None? {
        return Failed(DeclareFailed);
      }
      got := declared.value.FetchPage(offset, n);
    }
  }

  /** The page of an open cursor from what was fetched. */
  ghost predicate IsOpenReply<T>(query: Query<T>, wanted: int, limit: int, last: bool)
    requires IsPage(wanted, limit)
  {
    var page := if last then PageCount(|query.rows|, limit) else wanted;
    var got, reply := Fetched(query, Offset(page, limit), limit + 1), OpenReply(query, wanted, limit, last);
    if got.Failed? then got == Failed(QueryFailed) && reply == Failed(QueryFailed)
    else
      && |got.value| <= limit + 1 && got.value == Slice(query.rows, Offset(page, limit), Offset(page, limit) + limit + 1)
      && reply == Done(CursorView(query.rows, page, limit, last))
  }

  lemma OpenReplyIs<T>(query: Query<T>, wanted: int, limit: int, last: bool)
    requires IsPage(wanted, limit) && (last ==> query.ends)
    ensures IsOpenReply(query, wanted, limit, last)
  {
    hide CursorView, PageCount, Offset, Slice;
  }

  /** renderCursorPage once there is a cursor: one that is gone is declared again, but not for
  the last page. */
  method RenderPage<T>(cursor: ServerCursor<T>, declared: Option<ServerCursor<T>>, wanted: int, limit: int, last: bool)
    returns (r: Reply<View<T>>)
    requires cursor.Valid() && IsPage(wanted, limit)
    requires declared.Some? ==> declared.value.Valid() && declared.value.state == Open && declared.value != cursor
    modifies cursor, if declared.Some? then {declared.value} else {}
    ensures r == if old(cursor.state) == Open then OpenReply(cursor.query, wanted, limit, last)
                 else if old(cursor.state) == Aborted || last then Failed(WhyClosed(old(cursor.state)))
                 else if declared.None? then Failed(DeclareFailed) else OpenReply(declared.value.query, wanted, limit, last)
    ensures (old(cursor.state) != Gone || last) && declared.Some? ==> unchanged(declared.value)
  {
    hide CursorView, Offset, PageCount, Slice, Fetched, OpenReply;
    var page, total, totalKnown := wanted, 0, false;
    if last {
      var counted := cursor.Total();
      if counted.Failed? {
        LastOfFailing(cursor.query, wanted, limit);
        return Failed(counted.why);
      }
      total, totalKnown := counted.value, true;
      page := LastPage(total, limit);
    }
    var got := FetchOrDeclare(cursor, declared, Offset(page, limit), limit + 1);
    ghost var query := if old(cursor.state) == Open || declared.None? then cursor.query else declared.value.query;
    if last ==> query.ends {
      OpenReplyIs(query, wanted, limit, last);
    }
    if got.Failed? {
      return Failed(got.why);
    }
    var view := ShowPage(got.value, page, limit, total, totalKnown, query.rows);
    r := Done(view);
  }

  lemma LastOfFailing<T>(query: Query<T>, wanted: int, limit: int)
    requires IsPage(wanted, limit)
    ensures !query.ends ==> OpenReply(query, wanted, limit, true) == Failed(QueryFailed)
  {
    hide PageCount, Offset;
  }

  /** renderCursorPage: `found` is the tab's cursor, `declared` what declareCursor gives
  if it is called, which is at most once.  Where a cursor stood before does not matter. */
  method RenderCursorPage<T>(found: Option<ServerCursor<T>>, declared: Option<ServerCursor<T>>,
                             wanted: int, limit: int, last: bool) returns (r: Reply<View<T>>)
    requires IsPage(wanted, limit) && (found.Some? ==> found.value.Valid())
    requires declared.Some? ==> declared.value.Valid() && declared.value.state == Open && declared != found
    modifies if found.Some? then {found.value} else {}, if declared.Some? then {declared.value} else {}
    ensures var again := found.None? || (old(found.value.state) == Gone && !last);
            r == if again then if declared.None? then Failed(DeclareFailed)
                                else OpenReply(declared.value.query, wanted, limit, last)
                 else if old(found.value.state) == Open then OpenReply(found.value.query, wanted, limit, last)
                 else Failed(WhyClosed(old(found.value.state)))
    ensures found.Some? && !(old(found.value.state) == Gone && !last) && declared.Some? ==> unchanged(declared.value)
  {
    hide OpenReply;
    if found.Some? {
      r := RenderPage(found.value, declared, wanted, limit, last);
    } else if declared.Some? {
      r := RenderPage(declared.value, None, wanted, limit, last);
    } else {
      r := Failed(DeclareFailed);
    }
  }

  /** What renderCursorPage makes of the rows it fetched, one more than the page shows. */
  method ShowPage<T>(got: seq<T>, page: int, limit: int, counted: nat, isCounted: bool, ghost all: seq<T>) returns (v: View<T>)
    requires IsPage(page, limit) && got == Slice(all, Offset(page, limit), Offset(page, limit) + limit + 1)
    requires isCounted ==> counted == |all|
    ensures v == CursorView(all, page, limit, isCounted)
  {
    var offset, rows, total, totalKnown := Offset(page, limit), got, counted, isCounted;
    var hasMore := |rows| > limit;
    if hasMore {
      rows := rows[..limit];
    }
    if !hasMore {
      total, totalKnown := offset + |rows|, true;
    } else if !totalKnown {
      total := offset + |rows|;
    }
    var totalPages := page;
    if hasMore {
      totalPages := page + 1;
    }
    v := View(rows, page, hasMore, total, totalKnown, totalPages);
  }

  /** The page shown, from one row more than a page. */
  function CursorView<T>(rows: seq<T>, page: int, limit: int, counted: bool): View<T>
    requires IsPage(page, limit)
  {
    var offset := Offset(page, limit);
    var got := Slice(rows, offset, offset + limit + 1);
    var hasMore := |got| > limit;
    var shown := if hasMore then got[..limit] else got;
    View(shown, page, hasMore,
         if hasMore && counted then |rows| else offset + |shown|,
         !hasMore || counted,
         if hasMore then page + 1 else page)
  }

  // ---- The refinement --------------------------------------------------------------------

  /** The cursor path shows the rows the LIMIT/OFFSET path shows, says exactly when more
  follow, and when it claims a total that is the number of rows, unless the page lies
  beyond them. */
  lemma CursorPageIsOffsetPage<T>(rows: seq<T>, page: int, limit: int, counted: bool)
    requires IsPage(page, limit)
    ensures var v := CursorView(rows, page, limit, counted);
            && v.rows == OffsetPage(rows, page, limit)
            && (v.hasMore <==> |rows| > Offset(page, limit) + limit)
            && (v.totalKnown ==> (v.total == |rows| <==> Offset(page, limit) <= |rows|))
  {
  }

  /** What the page says, by the number of its first row: its rows one by one, that more follow and then
  one page more than this, and the total, which is the number of rows if they were counted, the rows
  shown so far while more follow, and the row behind the last one shown at the end. */
  lemma CursorPageSays<T>(rows: seq<T>, page: int, limit: int, counted: bool, first: nat)
    requires IsPage(page, limit) && first == (page - 1) * limit
    ensures var v := CursorView(rows, page, limit, counted);
            && |v.rows| == (if |rows| <= first then 0 else if |rows| <= first + limit then |rows| - first else limit)
            && (forall k | 0 <= k < |v.rows| :: v.rows[k] == rows[first + k])
            && (v.hasMore <==> |rows| > first + limit)
            && v.page == page && v.totalPages == (if |rows| > first + limit then page + 1 else page)
            && (v.totalKnown <==> counted || |rows| <= first + limit)
            && v.total == (if |rows| > first + limit then (if counted then |rows| else first + limit) else first + |v.rows|)
  {
    assert Offset(page, limit) == first;
    hide Offset;
  }

  /** The query fails on a page exactly if it fails at all and the page is the last, or reaches to the row
  where it fails: one row more is fetched than shown. */
  lemma PageFailsIff<T>(query: Query<T>, wanted: int, limit: int, last: bool, first: nat)
    requires IsPage(wanted, limit) && first == (wanted - 1) * limit
    ensures OpenReply(query, wanted, limit, last).Failed? <==> !query.ends && (last || |query.rows| <= first + limit)
    ensures OpenReply(query, wanted, limit, last).Failed? ==> OpenReply(query, wanted, limit, last).why == QueryFailed
  {
    assert Offset(wanted, limit) == first;
    hide Offset, CursorView, PageCount;
  }

  lemma OffsetStep(page: int, limit: int)
    requires IsPage(page, limit)
    ensures Offset(page + 1, limit) == Offset(page, limit) + limit && Offset(1, limit) == 0
  {
    assert page * limit == (page - 1) * limit + limit;
  }

  lemma {:induction false} OffsetMonotone(p: int, q: int, limit: int)
    requires IsPage(p, limit) && p <= q
    ensures Offset(p, limit) + (q - p) <= Offset(q, limit)
    decreases q - p
  {
    if p < q {
      OffsetStep(q - 1, limit);
      OffsetMonotone(p, q - 1, limit);
    }
  }

  /** The page count is the number of pages it takes: the last of them is needed and
  reaches the end. */
  lemma PageCountCovers(total: nat, limit: int)
    requires limit >= 1
    ensures var n := PageCount(total, limit);
            Offset(n, limit) + limit >= total && (n > 1 ==> Offset(n, limit) < total)
  {
    var q := (total + limit - 1) / limit;
    assert q * limit <= total + limit - 1 < q * limit + limit by { DivisionBounds(total + limit - 1, limit, q); }
    if q >= 1 {
      OffsetStep(q, limit);
      assert Offset(q + 1, limit) == q * limit;
    } else {
      assert q * limit <= 0 by { NonPositiveProduct(q, limit); }
    }
  }

  lemma DivisionBounds(a: int, b: int, q: int)
    requires b >= 1 && q == a / b
    ensures q * b <= a < q * b + b
  {
  }

  lemma NonPositiveProduct(a: int, b: int)
    requires a <= 0 && b >= 0
    ensures a * b <= 0
  {
  }

  /** Up to the last page of the LIMIT/OFFSET path, a known total is the true one and
  more is announced exactly before the last page; "last" lands on that page. */
  lemma TotalsUpToTheLastPage<T>(rows: seq<T>, page: int, limit: int, counted: bool)
    requires IsPage(page, limit) && page <= PageCount(|rows|, limit)
    ensures var v := CursorView(rows, page, limit, counted);
            && (v.totalKnown ==> v.total == |rows|)
            && (v.hasMore <==> page < PageCount(|rows|, limit))
            && (page == PageCount(|rows|, limit) ==> v.totalKnown && v.totalPages == page)
  {
    var n := PageCount(|rows|, limit);
    PageCountCovers(|rows|, limit);
    OffsetStep(page, limit);
    if page < n {
      OffsetMonotone(page + 1, n, limit);
    } else if n == 1 {
      OffsetStep(1, limit);
    }
    CursorPageIsOffsetPage(rows, page, limit, counted);
  }

  function FirstPages<T>(rows: seq<T>, n: nat, limit: int): seq<T>
    requires limit >= 1
  {
    if n == 0 then [] else FirstPages(rows, n - 1, limit) + CursorView(rows, n, limit, false).rows
  }

  lemma {:induction false} FirstPagesArePrefix<T>(rows: seq<T>, n: nat, limit: int)
    requires limit >= 1
    ensures FirstPages(rows, n, limit) == Slice(rows, 0, Offset(n + 1, limit))
  {
    hide CursorView;
    if n == 0 {
      OffsetStep(1, limit);
    } else {
      FirstPagesArePrefix(rows, n - 1, limit);
      OffsetStep(n, limit);
      CursorPageIsOffsetPage(rows, n, limit, false);
      SlicesMeet(rows, Offset(n, limit), Offset(n, limit) + limit);
    }
  }

  lemma SlicesMeet<T>(rows: seq<T>, a: nat, b: nat)
    requires a <= b
    ensures Slice(rows, 0, a) + Slice(rows, a, b) == Slice(rows, 0, b)
  {
  }

  /** The pages, put together, are all the rows, each once. */
  lemma PagesAreAllRows<T>(rows: seq<T>, limit: int)
    requires limit >= 1
    ensures FirstPages(rows, PageCount(|rows|, limit), limit) == rows
  {
    var n := PageCount(|rows|, limit);
    FirstPagesArePrefix(rows, n, limit);
    PageCountCovers(|rows|, limit);
    OffsetStep(n, limit);
  }
}
