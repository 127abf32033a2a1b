/** VerifyStreamWith (es/verify.go): the checker driven over a store page by page. A store holds a
    stream's rows in strictly increasing version order; nothing stops it from holding gaps. */
module PagedVerify {
  import opened Wrappers
  import Ascending
  import opened StreamIds
  import opened Envelopes
  import opened ChainVerify

  /** ORDER BY version over UNIQUE (stream_id, version), versions from 1. */
  ghost predicate Ordered(rows: seq<Envelope>) {
    && (forall i, j | 0 <= i < j < |rows| :: rows[i].version < rows[j].version)
    && (forall i | 0 <= i < |rows| :: rows[i].version > 0)
  }

  function Versions(rows: seq<Envelope>): (r: seq<nat>)
    ensures |r| == |rows| && forall i | 0 <= i < |rows| :: r[i] == rows[i].version
  {
    seq(|rows|, i requires 0 <= i < |rows| => rows[i].version)
  }

  function CountUpTo(rows: seq<Envelope>, v: nat): (n: nat)
    ensures n <= |rows|
  {
    Ascending.CountUpTo(Versions(rows), v)
  }

  lemma CountUpToMeans(rows: seq<Envelope>, v: nat)
    requires Ordered(rows)
    ensures forall i | 0 <= i < |rows| :: rows[i].version <= v <==> i < CountUpTo(rows, v)
  {
    Ascending.CountMeans(Versions(rows), v);
    assert forall i | 0 <= i < |rows| :: rows[i].version == Versions(rows)[i];
  }

  /** The count is n when row n - 1 is the last one at or below v. */
  lemma CountIs(rows: seq<Envelope>, v: nat, n: nat)
    requires Ordered(rows) && n <= |rows|
    requires n > 0 ==> rows[n - 1].version <= v
    requires n < |rows| ==> rows[n].version > v
    ensures CountUpTo(rows, v) == n
  {
    CountUpToMeans(rows, v);
  }

  /** ReadStream(sid, from, to): versions in (from, to], ascending. */
  function ReadStream(rows: seq<Envelope>, from: nat, to: nat): seq<Envelope> {
    if CountUpTo(rows, from) <= CountUpTo(rows, to) then rows[CountUpTo(rows, from)..CountUpTo(rows, to)] else []
  }

  /** The rows 1, 2, ..., m that are all there: the longest gap-free prefix. */
  function GapFree(rows: seq<Envelope>): (m: nat)
    ensures m <= |rows|
    ensures forall i | 0 <= i < m :: rows[i].version == i + 1
    ensures m < |rows| ==> rows[m].version != m + 1
  {
    GapFreeFrom(rows, 0)
  }

  function GapFreeFrom(rows: seq<Envelope>, i: nat): (m: nat)
    requires i <= |rows|
    requires forall k | 0 <= k < i :: rows[k].version == k + 1
    ensures i <= m <= |rows|
    ensures forall k | 0 <= k < m :: rows[k].version == k + 1
    ensures m < |rows| ==> rows[m].version != m + 1
    decreases |rows| - i
  {
    if i < |rows| && rows[i].version == i + 1 then GapFreeFrom(rows, i + 1) else i
  }

  /** The first page boundary after m, counting on from the boundary `from`. */
  function BoundaryAfter(m: nat, page: nat, from: nat): (v: nat)
    requires page > 0 && from <= m
    ensures m < v <= m + page
    decreases m - from
  {
    if m < from + page then from + page else BoundaryAfter(m, page, from + page)
  }

  /** The versions a run with this page size reads up to: the end of the page the gap-free prefix ends in. */
  function ReadsTo(rows: seq<Envelope>, page: nat): (v: nat)
    requires page > 0
  {
    BoundaryAfter(GapFree(rows), page, 0)
  }

  /** How many rows it feeds the checker, unless the checker breaks first. */
  function Seen(rows: seq<Envelope>, page: nat): (n: nat)
    requires page > 0
    ensures n <= |rows|
  {
    CountUpTo(rows, ReadsTo(rows, page))
  }

  function EffectivePage(page: int): (n: nat)
    ensures n > 0
  {
    if page <= 0 then 500 else page
  }

  /** Strict mode: a non-empty stream must be chained from version 1. */
  function Strictly(strict: bool, rep: Report): Report {
    if strict && rep.err.None? && rep.head > 0 && rep.chainedFrom != 1
    then rep.(brokenAt := 1, err := Some(NotStrict)) else rep
  }

  function FullReport(h: Hasher, sid: StreamId, since: Option<Time>, rows: seq<Envelope>): Report {
    CheckAll(h, Start(sid, since), rows).rep
  }

  /** Once broken, further rows change nothing. */
  lemma {:induction false} BrokenStays(h: Hasher, c: Checker, rows: seq<Envelope>, n: nat)
    requires n <= |rows| && CheckAll(h, c, rows[..n]).rep.err.Some?
    ensures CheckAll(h, c, rows) == CheckAll(h, c, rows[..n])
    decreases |rows|
  {
    if n < |rows| {
      var m := |rows| - 1;
      assert rows[..m][..n] == rows[..n];
      BrokenStays(h, c, rows[..m], n);
    } else {
      assert rows[..n] == rows;
    }
  }

  /** A page starting at a page boundary inside the gap-free prefix. */
  lemma PageAt(rows: seq<Envelope>, from: nat, page: nat)
    requires Ordered(rows) && page > 0 && from <= GapFree(rows)
    ensures CountUpTo(rows, from) == from
    ensures from <= CountUpTo(rows, from + page) <= from + page
    ensures ReadStream(rows, from, from + page) == rows[from..CountUpTo(rows, from + page)]
    ensures CountUpTo(rows, from + page) == from + page <==> GapFree(rows) >= from + page
    ensures GapFree(rows) >= from + page ==> rows[from + page - 1].version == from + page
  {
    if from < |rows| {
      AtLeastIndex(rows, from);
    }
    CountIs(rows, from, from);
    CountUpToMeans(rows, from + page);
    var j := CountUpTo(rows, from + page);
    if j > 0 {
      AtLeastIndex(rows, j - 1);
    }
    if j == from + page {
      FullPrefixIsGapFree(rows, j);
    }
    if GapFree(rows) >= from + page {
      if from + page < |rows| {
        AtLeastIndex(rows, from + page);
      }
      CountIs(rows, from + page, from + page);
    }
  }

  lemma FullPrefixIsGapFree(rows: seq<Envelope>, j: nat)
    requires Ordered(rows) && 0 < j <= |rows| && rows[j - 1].version <= j
    ensures GapFree(rows) >= j
  {
    var m := GapFree(rows);
    if m < j {
      AtLeastIndex(rows, m);
      AtMostIndex(rows, m, j - 1);
    }
  }

  lemma {:induction false} AtLeastIndex(rows: seq<Envelope>, i: nat)
    requires Ordered(rows) && i < |rows|
    ensures rows[i].version >= i + 1
  {
    if i > 0 {
      AtLeastIndex(rows, i - 1);
    }
  }

  lemma {:induction false} AtMostIndex(rows: seq<Envelope>, i: nat, j: nat)
    requires Ordered(rows) && i <= j < |rows|
    ensures rows[i].version <= rows[j].version - (j - i)
    decreases j - i
  {
    if i < j {
      AtMostIndex(rows, i + 1, j);
    }
  }

  /** The cursor sits at a page boundary inside the gap-free prefix. */
  ghost predicate AtBoundary(rows: seq<Envelope>, page: nat, from: nat)
    requires page > 0
  {
    from <= GapFree(rows) && BoundaryAfter(GapFree(rows), page, from) == ReadsTo(rows, page)
  }

  /** What one page read at a boundary gives: the next stretch of rows; a short page ends the run where
      Seen says, a full page ends at the next boundary. */
  lemma NextPage(rows: seq<Envelope>, page: nat, from: nat)
    requires Ordered(rows) && page > 0 && AtBoundary(rows, page, from)
    ensures var envs := ReadStream(rows, from, from + page);
            && from + |envs| <= Seen(rows, page)
            && rows[..from] + envs == rows[..from + |envs|]
            && (|envs| < page ==> from + |envs| == Seen(rows, page))
            && (|envs| >= page ==>
                  envs[|envs| - 1].version == from + |envs| && AtBoundary(rows, page, from + |envs|))
  {
    PageAt(rows, from, page);
    if GapFree(rows) >= from + page {
      CountUpToMeans(rows, ReadsTo(rows, page));
    }
  }

  lemma CheckAllNext(h: Hasher, c: Checker, rows: seq<Envelope>, n: nat)
    requires n < |rows|
    ensures CheckAll(h, c, rows[..n + 1]) == Step(h, CheckAll(h, c, rows[..n]), rows[n])
  {
    assert rows[..n + 1][..n] == rows[..n];
  }

  /** The inner loop: feed the page to the checker until it breaks. */
  method Feed(h: Hasher, c: ChainChecker, envs: seq<Envelope>) returns (err: Option<Break>)
    requires c.Valid() && h == c.h && c.rep.err.None?
    modifies c
    ensures c.Valid() && err == c.rep.err
    ensures old(c.seen) <= c.seen <= old(c.seen) + envs
    ensures err.None? ==> c.seen == old(c.seen) + envs
  {
    var k := 0;
    err := None;
    while k < |envs| && err.None?
      invariant 0 <= k <= |envs| && c.Valid() && err == c.rep.err
      invariant c.seen == old(c.seen) + envs[..k]
      decreases |envs| - k
    {
      err := c.Next(h, envs[k]);
      k := k + 1;
    }
  }

  /** What a page read at a boundary is to the rows the run feeds. */
  ghost predicate GoodPage(rows: seq<Envelope>, page: nat, from: nat, envs: seq<Envelope>)
    requires page > 0 && from <= |rows|
  {
    && rows[..from] + envs <= rows[..Seen(rows, page)]
    && (|envs| < page ==> rows[..from] + envs == rows[..Seen(rows, page)])
    && (|envs| >= page ==>
          && from + |envs| <= |rows|
          && envs[|envs| - 1].version == from + |envs| && AtBoundary(rows, page, from + |envs|)
          && rows[..from] + envs == rows[..from + |envs|])
  }

  lemma PageIsGood(rows: seq<Envelope>, page: nat, from: nat)
    requires Ordered(rows) && page > 0 && AtBoundary(rows, page, from)
    ensures GoodPage(rows, page, from, ReadStream(rows, from, from + page))
  {
    NextPage(rows, page, from);
    Shorter(rows, from + |ReadStream(rows, from, from + page)|, Seen(rows, page));
  }

  lemma Shorter(rows: seq<Envelope>, i: nat, j: nat)
    requires i <= j <= |rows|
    ensures rows[..i] <= rows[..j]
  {
  }

  method ReadPage(rows: seq<Envelope>, page: nat, from: nat) returns (envs: seq<Envelope>)
    requires Ordered(rows) && page > 0 && AtBoundary(rows, page, from)
    ensures GoodPage(rows, page, from, envs)
  {
    PageIsGood(rows, page, from);
    envs := ReadStream(rows, from, from + page);
  }

  /** The page loop: an unbroken run feeds exactly the first Seen rows, a broken one stops among them. */
  method FeedPages(h: Hasher, c: ChainChecker, rows: seq<Envelope>, page: nat) returns (err: Option<Break>)
    requires Ordered(rows) && page > 0
    requires c.Valid() && h == c.h && c.rep.err.None? && c.seen == []
    modifies c
    ensures c.Valid() && err == c.rep.err
    ensures c.seen <= rows[..Seen(rows, page)]
    ensures err.None? ==> c.seen == rows[..Seen(rows, page)]
  {
    var from := 0;
    var more := true;
    while more
      invariant c.Valid() && c.rep.err.None?
      invariant more ==> AtBoundary(rows, page, from) && c.seen == rows[..from]
      invariant !more ==> c.seen == rows[..Seen(rows, page)]
      decreases more, |rows| - from
    {
      var envs := ReadPage(rows, page, from);
      err := Feed(h, c, envs);
      if err.Some? {
        return;
      }
      if |envs| < page {
        more := false;
      } else {
        from := envs[|envs| - 1].version;
      }
    }
    err := None;
  }

  /** VerifyStreamWith: refuses an invalid stream id, else reports what the checker says about the rows it
      reaches. */
  method VerifyStreamWith(h: Hasher, sid: StreamId, rows: seq<Envelope>, since: Option<Time>, strict: bool,
                          pageOption: int)
    returns (r: Option<Report>)
    requires Ordered(rows)
    ensures r.Some? <==> StreamIds.Valid(sid)
    ensures r.Some? ==>
              r.value == Strictly(strict, FullReport(h, sid, since, rows[..Seen(rows, EffectivePage(pageOption))]))
  {
    if !StreamIds.Valid(sid) {
      return None;
    }
    var page := EffectivePage(pageOption);
    var c := new ChainChecker(h, sid, since);
    var err := FeedPages(h, c, rows, page);
    if err.Some? {
      ghost var reached := rows[..Seen(rows, page)];
      assert reached[..|c.seen|] == c.seen;
      BrokenStays(h, Start(sid, since), reached, |c.seen|);
    }
    r := Some(Strictly(strict, c.rep));
  }

  ghost predicate Contiguous(rows: seq<Envelope>) {
    forall i | 0 <= i < |rows| :: rows[i].version == i + 1
  }

  /** What the last stored version must be for a run with this page size to reach it. */
  ghost predicate LastIsReached(rows: seq<Envelope>, page: nat)
    requires page > 0
  {
    rows != [] ==> rows[|rows| - 1].version <= ReadsTo(rows, page)
  }

  lemma ReachesAll(rows: seq<Envelope>, page: nat)
    requires Ordered(rows) && page > 0
    ensures LastIsReached(rows, page) <==> Seen(rows, page) == |rows|
  {
    CountUpToMeans(rows, ReadsTo(rows, page));
  }

  /** The paged run reports on the whole stream exactly when the rows it reaches are not a chain or the last
      stored version lies at or below the page in which the gap-free prefix ends. Otherwise a gap that
      runs up to a page's end hides the rest of the stream. */
  lemma PagedReportIsFullExactlyWhen(h: Hasher, sid: StreamId, since: Option<Time>, rows: seq<Envelope>, page: nat)
    requires Ordered(rows) && page > 0
    ensures FullReport(h, sid, since, rows[..Seen(rows, page)]) == FullReport(h, sid, since, rows) <==>
            || !IsChain(h, sid, since, rows[..Seen(rows, page)])
            || LastIsReached(rows, page)
  {
    var n := Seen(rows, page);
    var seen := rows[..n];
    ReachesAll(rows, page);
    AcceptsExactlyChains(h, sid, since, seen);
    if FullReport(h, sid, since, seen).err.Some? {
      BrokenStays(h, Start(sid, since), rows, n);
    } else if n == |rows| {
      assert seen == rows;
    } else {
      AcceptsExactlyChains(h, sid, since, seen);
      AcceptsExactlyChains(h, sid, since, rows);
      AtLeastIndex(rows, |rows| - 1);
    }
  }

  /** On contiguous versions the report is the full report, for every page size. */
  lemma PageSizeDoesNotMatter(h: Hasher, sid: StreamId, since: Option<Time>, rows: seq<Envelope>, strict: bool,
                              page: nat)
    requires Contiguous(rows) && page > 0
    ensures Ordered(rows)
    ensures Strictly(strict, FullReport(h, sid, since, rows[..Seen(rows, page)])) ==
            Strictly(strict, FullReport(h, sid, since, rows))
  {
    ReachesAll(rows, page);
    assert rows[..|rows|] == rows;
  }

  function Bare(sid: StreamId, version: nat): Envelope {
    var zero: Uuid := seq(16, _ => 0);
    Envelope(zero, sid, version, version, [], [], 1, 0, 0, zero, zero, zero, Actor([], []), [], None, None)
  }

  /** The gapped case is real: versions 1, 2 and 5 pass with a page size of 2 and break with 500. */
  lemma GapHiddenByPageSize(h: Hasher, sid: StreamId)
    ensures var rows := [Bare(sid, 1), Bare(sid, 2), Bare(sid, 5)];
            && Ordered(rows)
            && FullReport(h, sid, None, rows[..Seen(rows, 2)]) == Report(0, 2, None, 0, None)
            && FullReport(h, sid, None, rows[..Seen(rows, 500)]) == Report(0, 2, None, 5, Some(NotContiguous))
  {
    var rows := [Bare(sid, 1), Bare(sid, 2), Bare(sid, 5)];
    assert GapFreeFrom(rows, 2) == 2 && GapFree(rows) == 2;
    CountIs(rows, 4, 2);
    CountIs(rows, 500, 3);
    var c0 := Start(sid, None);
    assert rows[..0] == [] && rows[..3] == rows;
    CheckAllNext(h, c0, rows, 0);
    CheckAllNext(h, c0, rows, 1);
    CheckAllNext(h, c0, rows, 2);
  }
}
