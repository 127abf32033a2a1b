/** Page selection of ReadAllBounded (sqlite/feed.go, postgres/wsstore.go): the count, byte-budget and
    payload-cap rules applied to the ordered matching rows, and the chaining of
    pages by their last position. */
module Paging {
  import opened Wrappers
  import opened EventLog

  datatype Limits = Limits(limit: int, maxBytes: int, cap: int)

  /** feed.EventTooLargeError: names the row, never carries its payload. */
  datatype TooLarge = TooLarge(pos: nat, typ: string, size: nat, limit: int)

  datatype Page = Page(rows: seq<Entry>, truncated: bool)

  function EffectiveLimit(limit: int): (n: nat)
    ensures n > 0
  {
    if limit <= 0 then 100 else limit
  }

  predicate OverCap(cap: int, e: Entry) {
    cap > 0 && |e.row.payload| > cap
  }

  function TotalBytes(rows: seq<Entry>): nat {
    if rows == [] then 0 else TotalBytes(rows[..|rows| - 1]) + |rows[|rows| - 1].row.payload|
  }

  /** Row n may not join the page rows[..n]: it is over the cap, or breaks the budget. */
  predicate Stops(rows: seq<Entry>, n: nat, lim: Limits)
    requires n < |rows|
  {
    || OverCap(lim.cap, rows[n])
    || (lim.maxBytes > 0 && TotalBytes(rows[..n + 1]) > lim.maxBytes)
  }

  /** What a page over the ordered candidate rows must be, stated without the loop that builds it. */
  ghost predicate IsPage(candidates: seq<Entry>, lim: Limits, page: Page) {
    var n := |page.rows|;
    && n <= |candidates|
    && n <= EffectiveLimit(lim.limit)
    && page.rows == candidates[..n]
    && (candidates != [] ==> n > 0)
    && (forall i | 0 <= i < n :: !OverCap(lim.cap, candidates[i]))
    && (forall i | 0 < i < n :: !Stops(candidates, i, lim))
    && (page.truncated <==> n < |candidates| && n < EffectiveLimit(lim.limit))
    && (page.truncated ==> Stops(candidates, n, lim))
  }

  /** Step 1 and step 2 of ReadAllBounded over the rows the SQL filter yields.
      candidates are all matching rows; the query's LIMIT cuts them first. */
  method ReadPage(candidates: seq<Entry>, lim: Limits) returns (r: Result<Page, TooLarge>)
    ensures r.Err? <==> candidates != [] && OverCap(lim.cap, candidates[0])
    ensures r.Err? ==> r.error == TooLarge(candidates[0].pos, candidates[0].row.typ, |candidates[0].row.payload|,
                                           lim.cap)
    ensures r.Ok? ==> IsPage(candidates, lim, r.value)
  {
    var limit := EffectiveLimit(lim.limit);
    var rows := if |candidates| <= limit then candidates else candidates[..limit];
    var n := 0;
    var total := 0;
    var truncated := false;
    while n < |rows| && !truncated
      invariant 0 <= n <= |rows|
      invariant total == TotalBytes(candidates[..n])
      invariant n == 0 ==> !truncated
      invariant forall i | 0 <= i < n :: !OverCap(lim.cap, candidates[i])
      invariant forall i | 0 < i < n :: !Stops(candidates, i, lim)
      invariant truncated ==> n < |rows| && Stops(candidates, n, lim)
      decreases |rows| - n, !truncated
    {
      var size := |rows[n].row.payload|;
      assert candidates[..n + 1][..n] == candidates[..n];
      if n == 0 && OverCap(lim.cap, rows[n]) {
        return Err(TooLarge(rows[n].pos, rows[n].row.typ, size, lim.cap));
      }
      if n > 0 && (OverCap(lim.cap, rows[n]) || (lim.maxBytes > 0 && total + size > lim.maxBytes)) {
        truncated := true;
      } else {
        total := total + size;
        n := n + 1;
      }
    }
    assert rows[..n] == candidates[..n];
    r := Ok(Page(rows[..n], truncated));
  }

  function CursorAfter(from: nat, page: Page): nat {
    if page.rows == [] then from else page.rows[|page.rows| - 1].pos
  }

  /** One page read at cursor `from` up to `bound` is exactly the matching rows
      between the old and the new cursor. */
  lemma PageCoversItsRange(log: Log, scope: Scope, from: nat, bound: nat, lim: Limits, page: Page)
    requires from <= bound
    requires IsPage(RowsIn(log, scope, from, bound), lim, page)
    ensures from <= CursorAfter(from, page) <= bound
    ensures page.rows == RowsIn(log, scope, from, CursorAfter(from, page))
  {
    if page.rows != [] {
      PrefixIsRange(log, scope, from, bound, |page.rows|);
    } else {
      assert RowsIn(log, scope, from, from) == [];
    }
  }

  /** The stream loop continues without waiting exactly after these pages. */
  predicate ContinuesAtOnce(page: Page, batch: nat) {
    page.rows != [] && (page.truncated || |page.rows| >= batch)
  }

  /** The loop idles only when nothing matching is left inside the read's bound,
      and a truncated page always has a matching successor. */
  lemma IdleMeansDrained(log: Log, scope: Scope, from: nat, bound: nat, lim: Limits, page: Page)
    requires from <= bound && lim.limit > 0
    requires IsPage(RowsIn(log, scope, from, bound), lim, page)
    ensures !ContinuesAtOnce(page, lim.limit) ==> RowsIn(log, scope, CursorAfter(from, page), bound) == []
    ensures page.truncated ==> RowsIn(log, scope, CursorAfter(from, page), bound) != []
  {
    PageCoversItsRange(log, scope, from, bound, lim, page);
    RowsInSplits(log, scope, from, CursorAfter(from, page), bound);
    var rest := RowsIn(log, scope, CursorAfter(from, page), bound);
    assert |RowsIn(log, scope, from, bound)| == |page.rows| + |rest|;
  }

  /** One completed ReadAllBounded call: the log it read, the bound it read up to, the page it returned. */
  datatype Read = Read(log: Log, bound: nat, page: Page)

  function CursorAt(from: nat, calls: seq<Read>): nat {
    if calls == [] then from
    else CursorAfter(CursorAt(from, calls[..|calls| - 1]), calls[|calls| - 1].page)
  }

  function Delivered(calls: seq<Read>): seq<Entry> {
    if calls == [] then []
    else Delivered(calls[..|calls| - 1]) + calls[|calls| - 1].page.rows
  }

  /** Read r, started at cursor c, returned a page (not an error). */
  ghost predicate ValidRead(scope: Scope, lim: Limits, c: nat, r: Read) {
    if r.bound <= c then r.page == Page([], false) else IsPage(RowsIn(r.log, scope, c, r.bound), lim, r.page)
  }

  /** Reads chained by last position: each starts where the page before it ended. */
  ghost predicate ChainedReads(scope: Scope, lim: Limits, from: nat, calls: seq<Read>) {
    calls != [] ==>
      var init := calls[..|calls| - 1];
      && ChainedReads(scope, lim, from, init)
      && ValidRead(scope, lim, CursorAt(from, init), calls[|calls| - 1])
  }

  /** Every delivered position stays final: the log at the end agrees with the log each read saw. */
  ghost predicate FinalAt(from: nat, calls: seq<Read>, end: Log) {
    forall k | 0 <= k < |calls| && calls[k].page.rows != [] ::
      AgreeTo(calls[k].log, end, CursorAt(from, calls[..k + 1]))
  }

  /** Chained pages refine the plain filtered log: together they are its rows between the
      first and the last cursor, each exactly once and in order, and none is over the cap. */
  lemma {:induction false} PagesRefineTheLog(scope: Scope, lim: Limits, from: nat, calls: seq<Read>, end: Log)
    requires ChainedReads(scope, lim, from, calls)
    requires FinalAt(from, calls, end)
    ensures from <= CursorAt(from, calls)
    ensures Delivered(calls) == RowsIn(end, scope, from, CursorAt(from, calls))
    ensures forall e | e in Delivered(calls) :: !OverCap(lim.cap, e)
  {
    if calls == [] {
      assert RowsIn(end, scope, from, from) == [];
    } else {
      var init, r := calls[..|calls| - 1], calls[|calls| - 1];
      forall k | 0 <= k < |init| && init[k].page.rows != []
        ensures AgreeTo(init[k].log, end, CursorAt(from, init[..k + 1]))
      {
        assert init[..k + 1] == calls[..k + 1];
      }
      PagesRefineTheLog(scope, lim, from, init, end);
      var c := CursorAt(from, init);
      if r.page.rows != [] {
        PageCoversItsRange(r.log, scope, c, r.bound, lim, r.page);
        assert calls[..|calls| - 1 + 1] == calls;
        RowsInAgrees(r.log, end, scope, c, CursorAt(from, calls));
        RowsInSplits(end, scope, from, c, CursorAt(from, calls));
      }
    }
  }

  lemma {:induction false} ChainedPrefix(scope: Scope, lim: Limits, from: nat, calls: seq<Read>, k: nat)
    requires ChainedReads(scope, lim, from, calls) && k < |calls|
    ensures ValidRead(scope, lim, CursorAt(from, calls[..k]), calls[k])
  {
    var n := |calls| - 1;
    if k < n {
      assert calls[..n][..k] == calls[..k];
      ChainedPrefix(scope, lim, from, calls[..n], k);
    }
  }

  /** The cursor a page moves to is one of the rows it read, inside the bound it read up to. */
  lemma PageEndsAtACommittedRow(scope: Scope, lim: Limits, from: nat, calls: seq<Read>, k: nat)
    requires ChainedReads(scope, lim, from, calls) && k < |calls| && calls[k].page.rows != []
    ensures CursorAt(from, calls[..k + 1]) <= calls[k].bound
    ensures CursorAt(from, calls[..k + 1]) in calls[k].log
  {
    ChainedPrefix(scope, lim, from, calls, k);
    var c := CursorAt(from, calls[..k]);
    assert calls[..k + 1][..k] == calls[..k];
    LastRowIsCommitted(scope, lim, c, calls[k]);
  }

  lemma LastRowIsCommitted(scope: Scope, lim: Limits, c: nat, r: Read)
    requires ValidRead(scope, lim, c, r) && r.page.rows != []
    ensures r.page.rows[|r.page.rows| - 1].pos <= r.bound && r.page.rows[|r.page.rows| - 1].pos in r.log
  {
    var rows := RowsIn(r.log, scope, c, r.bound);
    var n := |r.page.rows|;
    assert r.page.rows[n - 1] == rows[n - 1];
  }
}
