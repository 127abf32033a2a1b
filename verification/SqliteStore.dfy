/** The single-writer SQLite log (sqlite/store.go, sqlite/anchor.go): append, and anchors over every
    stream's head. One connection serializes writers, so a row's place in the log is its commit order. */
module SqliteStore {
  import opened Wrappers
  import opened ByteStrings
  import opened StreamIds
  import opened Envelopes
  import Ascending
  import opened ChainedAppend
  import A = Anchors
  import Claims

  /** SELECT ... WHERE stream_id = sid ORDER BY version, which on this log is also the log order. */
  function StreamRows(rows: seq<Envelope>, sid: StreamId): seq<Envelope> {
    if rows == [] then []
    else
      var before, last := StreamRows(rows[..|rows| - 1], sid), rows[|rows| - 1];
      if last.sid == sid then before + [last] else before
  }

  ghost predicate InOrder(rows: seq<Envelope>) {
    && (forall i | 0 <= i < |rows| :: rows[i].globalPosition > 0 && Valid(rows[i].sid))
    && (forall i, j | 0 <= i < j < |rows| :: rows[i].globalPosition < rows[j].globalPosition)
  }

  /** Some rows that predate the chain, then a chain; versions 1, 2, ... */
  ghost predicate ChainedStream(h: Hasher, sid: StreamId, rows: seq<Envelope>) {
    exists k: nat :: StreamOk(h, sid, None, rows, k)
  }

  ghost predicate LogOk(h: Hasher, rows: seq<Envelope>) {
    InOrder(rows) && forall sid: StreamId :: ChainedStream(h, sid, StreamRows(rows, sid))
  }

  function LastPosition(rows: seq<Envelope>): nat {
    if rows == [] then 0 else rows[|rows| - 1].globalPosition
  }

  // ---------------------------------------------------------------- append

  datatype AppendError =
    | InvalidStreamId | InvalidConstraint | PayloadTooLarge(version: nat) | Conflict | ConstraintViolated

  lemma {:induction false} StreamRowsConcat(a: seq<Envelope>, b: seq<Envelope>, sid: StreamId)
    ensures StreamRows(a + b, sid) == StreamRows(a, sid) + StreamRows(b, sid)
    decreases |b|
  {
    if b == [] {
      assert a + b == a;
    } else {
      var n := |b| - 1;
      assert (a + b)[..|a + b| - 1] == a + b[..n];
      StreamRowsConcat(a, b[..n], sid);
    }
  }

  lemma {:induction false} StreamRowsOfBatch(b: seq<Envelope>, sid: StreamId, other: StreamId)
    requires forall i | 0 <= i < |b| :: b[i].sid == sid
    ensures StreamRows(b, other) == if other == sid then b else []
  {
    if b != [] {
      StreamRowsOfBatch(b[..|b| - 1], sid, other);
      assert b == b[..|b| - 1] + [b[|b| - 1]];
    }
  }

  function Positions(last: nat, n: nat): (at: seq<nat>)
    ensures |at| == n && forall i | 0 <= i < n :: at[i] == last + 1 + i
  {
    seq(n, i => last + 1 + i)
  }

  lemma {:induction false} BatchShape(h: Hasher, p: AppendParams, ws: Bytes, prev: Digest, recorded: Time, at: seq<nat>,
                                      n: nat)
    requires n <= |p.events| && n <= |at|
    ensures var b := Batch(h, p, ws, prev, recorded, at, n);
            forall i | 0 <= i < n :: b[i].sid == p.sid && b[i].globalPosition == at[i]
  {
    if n > 0 {
      BatchShape(h, p, ws, prev, recorded, at, n - 1);
    }
  }

  lemma AppendKeepsStream(h: Hasher, rows: seq<Envelope>, p: AppendParams, recorded: Time, sid: StreamId)
    requires LogOk(h, rows) && IgnoresStoreColumns(h) && |StreamRows(rows, p.sid)| == p.expectedVersion
    ensures ChainedStream(h, sid, StreamRows(rows + NewRows(h, rows, p, recorded), sid))
  {
    var b := NewRows(h, rows, p, recorded);
    var mine := StreamRows(rows, p.sid);
    var at := Positions(LastPosition(rows), |p.events|);
    BatchShape(h, p, [], LinkAfter(h, p.sid, Head(mine)), recorded, at, |p.events|);
    StreamRowsConcat(rows, b, sid);
    StreamRowsOfBatch(b, p.sid, sid);
    assert ChainedStream(h, sid, StreamRows(rows, sid));
    if sid == p.sid {
      var k: nat :| StreamOk(h, sid, None, mine, k);
      BatchExtends(h, sid, None, mine, k, p, [], recorded, at, |p.events|);
      assert StreamOk(h, sid, None, mine + b, k);
    } else {
      assert StreamRows(rows, sid) + [] == StreamRows(rows, sid);
    }
  }

  lemma AppendKeepsOrder(h: Hasher, rows: seq<Envelope>, p: AppendParams, recorded: Time)
    requires InOrder(rows) && Valid(p.sid)
    ensures InOrder(rows + NewRows(h, rows, p, recorded))
  {
    var b := NewRows(h, rows, p, recorded);
    var prev := LinkAfter(h, p.sid, Head(StreamRows(rows, p.sid)));
    BatchShape(h, p, [], prev, recorded, Positions(LastPosition(rows), |p.events|), |p.events|);
    var all := rows + b;
    forall i, j | 0 <= i < j < |all|
      ensures all[i].globalPosition < all[j].globalPosition
    {
      if i < |rows| <= j {
        assert rows[i].globalPosition <= LastPosition(rows);
      }
    }
  }

  /** A batch built on its stream's head keeps every stream a chain. */
  lemma AppendKeepsLog(h: Hasher, rows: seq<Envelope>, p: AppendParams, recorded: Time)
    requires LogOk(h, rows) && IgnoresStoreColumns(h) && Valid(p.sid) && |StreamRows(rows, p.sid)| == p.expectedVersion
    ensures LogOk(h, rows + NewRows(h, rows, p, recorded))
  {
    AppendKeepsOrder(h, rows, p, recorded);
    forall sid: StreamId
      ensures ChainedStream(h, sid, StreamRows(rows + NewRows(h, rows, p, recorded), sid))
    {
      AppendKeepsStream(h, rows, p, recorded, sid);
    }
  }

  /** The rows an accepted append adds. The one workspace of a SQLite database has the empty name. */
  function NewRows(h: Hasher, rows: seq<Envelope>, p: AppendParams, recorded: Time): seq<Envelope> {
    Batch(h, p, [], LinkAfter(h, p.sid, Head(StreamRows(rows, p.sid))), recorded,
          Positions(LastPosition(rows), |p.events|), |p.events|)
  }

  /** A caller-supplied event id that is already taken violates UNIQUE (event_id). */
  predicate IdsTaken(rows: seq<Envelope>, p: AppendParams) {
    || (exists i, j :: 0 <= i < |p.events| && 0 <= j < |rows| && p.events[i].eventId == rows[j].eventId)
    || (exists i, j :: 0 <= i < j < |p.events| && p.events[i].eventId == p.events[j].eventId)
  }

  predicate OverCap(cap: int, p: AppendParams, i: nat)
    requires i < |p.events|
  {
    cap > 0 && |p.events[i].payload| > cap
  }

  class Store {
    const h: Hasher
    const cap: int
    var rows: seq<Envelope>
    var anchors: seq<AnchorRow>
    var claims: Claims.Holders

    ghost predicate Valid()
      reads this
    {
      IgnoresStoreColumns(h) && LogOk(h, rows)
    }

    constructor (h: Hasher, cap: int)
      requires IgnoresStoreColumns(h)
      ensures Valid() && rows == [] && anchors == [] && claims == map[] && this.h == h && this.cap == cap
    {
      this.h := h;
      this.cap := cap;
      rows, anchors, claims := [], [], map[];
      new;
      forall sid: StreamId
        ensures ChainedStream(h, sid, StreamRows([], sid))
      {
        assert StreamOk(h, sid, None, [], 0);
      }
    }

    /** readHead: the stream's head row, found from the end of the log. */
    method ReadHead(sid: StreamId) returns (current: nat, prev: Digest)
      requires Valid()
      ensures current == |StreamRows(rows, sid)|
      ensures prev == LinkAfter(h, sid, Head(StreamRows(rows, sid)))
    {
      var i := |rows|;
      assert rows[..i] == rows;
      while i > 0
        invariant 0 <= i <= |rows| && StreamRows(rows, sid) == StreamRows(rows[..i], sid)
      {
        assert rows[..i][..i - 1] == rows[..i - 1];
        if rows[i - 1].sid == sid {
          HeadVersion(h, rows, sid);
          return rows[i - 1].version, LinkAfter(h, sid, Some(rows[i - 1]));
        }
        i := i - 1;
      }
      return 0, ZeroHash();
    }

    /** Append. A refused batch leaves the log and the claims as they were; an accepted one adds its rows at
        the end and its claims with them, and every stream of the log still verifies. */
    method Append(p: AppendParams, ops: seq<Claims.Op>, now: Time) returns (r: Result<(nat, nat), AppendError>)
      requires Valid()
      modifies this
      ensures Valid() && anchors == old(anchors)
      ensures r.Ok? <==>
              && StreamIds.Valid(p.sid) && Claims.WellFormed(ops)
              && (forall i | 0 <= i < |p.events| :: !OverCap(cap, p, i))
              && |StreamRows(old(rows), p.sid)| == p.expectedVersion
              && !IdsTaken(old(rows), p)
              && Claims.Free(Claims.Released(old(claims), p.sid, ops, |ops|), ops, |ops|)
      ensures r.Err? ==> rows == old(rows) && claims == old(claims)
      ensures r.Ok? ==> claims == Claims.Granted(Claims.Released(old(claims), p.sid, ops, |ops|), p.sid, ops, |ops|)
      ensures r.Ok? ==> r.value == (p.expectedVersion, p.expectedVersion + |p.events|)
      ensures r.Ok? ==> rows == old(rows) + NewRows(h, old(rows), p, TruncateMicros(now))
    {
      if !StreamIds.Valid(p.sid) {
        return Err(InvalidStreamId);
      }
      if !Claims.WellFormed(ops) {
        return Err(InvalidConstraint);
      }
      for i := 0 to |p.events|
        invariant forall j | 0 <= j < i :: !OverCap(cap, p, j)
        invariant unchanged(this)
      {
        if OverCap(cap, p, i) {
          return Err(PayloadTooLarge(p.expectedVersion + i + 1));
        }
      }
      var current, prev := ReadHead(p.sid);
      if current != p.expectedVersion || IdsTaken(rows, p) {
        return Err(Conflict);
      }
      var recorded := TruncateMicros(now);
      AppendKeepsLog(h, rows, p, recorded);
      var batch := BuildBatch(h, p, [], prev, recorded, Positions(LastPosition(rows), |p.events|));
      var held := Claims.ApplyClaims(claims, p.sid, ops);
      if held.None? {
        return Err(ConstraintViolated);
      }
      rows, claims := rows + batch, held.value;
      r := Ok((p.expectedVersion, p.expectedVersion + |p.events|));
    }

    /** Anchor: the root over every stream's head at or below upto; 0 means the log head. */
    method Anchor(sha: Sha, upto: nat) returns (a: AnchorRow)
      requires Valid()
      modifies this`anchors
      ensures a == AnchorAt(sha, rows, if upto == 0 then LastPosition(rows) else upto)
      ensures anchors == old(anchors) + [a]
    {
      var bound := if upto == 0 then LastPosition(rows) else upto;
      var heads := ReadHeads(bound);
      var root := A.AnchorRoot(sha, heads);
      a := AnchorRow(bound, |heads|, root);
      anchors := anchors + [a];
    }

    /** CheckAnchor: recompute at the anchor's position and compare. */
    method CheckAnchor(sha: Sha, a: AnchorRow) returns (ok: bool)
      requires Valid()
      ensures ok <==> AnchorAt(sha, rows, a.upto) == a
    {
      var heads := ReadHeads(a.upto);
      var root := A.AnchorRoot(sha, heads);
      ok := |heads| == a.streamCount && root == a.root;
    }

    /** heads: the joined query's rows, accumulated. */
    method ReadHeads(upto: nat) returns (heads: seq<A.StreamHead>)
      ensures heads == HeadsAt(rows, CountUpTo(rows, upto))
    {
      var n := CountUpTo(rows, upto);
      heads := [];
      for i := 0 to n
        invariant heads == Collect(rows, n, i)
      {
        if IsHead(rows, n, i) {
          heads := heads + [HeadOf(rows[i])];
        }
      }
    }
  }

  lemma HeadVersion(h: Hasher, rows: seq<Envelope>, sid: StreamId)
    requires LogOk(h, rows) && StreamRows(rows, sid) != []
    ensures var mine := StreamRows(rows, sid); mine[|mine| - 1].version == |mine|
  {
    assert ChainedStream(h, sid, StreamRows(rows, sid));
  }

  // ---------------------------------------------------------------- anchors

  datatype AnchorRow = AnchorRow(upto: nat, streamCount: nat, root: Bytes)

  function GlobalPositions(rows: seq<Envelope>): (r: seq<nat>)
    ensures |r| == |rows| && forall i | 0 <= i < |rows| :: r[i] == rows[i].globalPosition
  {
    seq(|rows|, i requires 0 <= i < |rows| => rows[i].globalPosition)
  }

  /** How many rows lie at or below a position. */
  function CountUpTo(rows: seq<Envelope>, upto: nat): (n: nat)
    ensures n <= |rows|
  {
    Ascending.CountUpTo(GlobalPositions(rows), upto)
  }

  /** Row i has the highest version of its stream among the first n rows. */
  predicate IsHead(rows: seq<Envelope>, n: nat, i: nat)
    requires i < n <= |rows|
  {
    forall j | 0 <= j < n && rows[j].sid == rows[i].sid :: rows[j].version <= rows[i].version
  }

  function HeadOf(e: Envelope): A.StreamHead {
    A.StreamHead([], e.sid, e.version, e.hash)
  }

  function Collect(rows: seq<Envelope>, n: nat, i: nat): seq<A.StreamHead>
    requires i <= n <= |rows|
  {
    if i == 0 then []
    else
      var before := Collect(rows, n, i - 1);
      if IsHead(rows, n, i - 1) then before + [HeadOf(rows[i - 1])] else before
  }

  function HeadsAt(rows: seq<Envelope>, n: nat): seq<A.StreamHead>
    requires n <= |rows|
  {
    Collect(rows, n, n)
  }

  function AnchorAt(sha: Sha, rows: seq<Envelope>, upto: nat): AnchorRow {
    var heads := HeadsAt(rows, CountUpTo(rows, upto));
    AnchorRow(upto, |heads|, A.Root(sha, heads))
  }

  lemma CountUpToMeans(rows: seq<Envelope>, upto: nat)
    requires InOrder(rows)
    ensures forall i | 0 <= i < |rows| :: rows[i].globalPosition <= upto <==> i < CountUpTo(rows, upto)
  {
    Ascending.CountMeans(GlobalPositions(rows), upto);
    assert forall i | 0 <= i < |rows| :: rows[i].globalPosition == GlobalPositions(rows)[i];
  }

  lemma CountUpToIs(rows: seq<Envelope>, upto: nat, n: nat)
    requires InOrder(rows) && n <= |rows|
    requires n > 0 ==> rows[n - 1].globalPosition <= upto
    requires n < |rows| ==> rows[n].globalPosition > upto
    ensures CountUpTo(rows, upto) == n
  {
    CountUpToMeans(rows, upto);
  }

  lemma {:induction false} CollectIsLocal(rows: seq<Envelope>, more: seq<Envelope>, n: nat, i: nat)
    requires i <= n <= |rows|
    ensures Collect(rows + more, n, i) == Collect(rows, n, i)
  {
    if i > 0 {
      CollectIsLocal(rows, more, n, i - 1);
      assert forall j | 0 <= j < n :: (rows + more)[j] == rows[j];
    }
  }

  /** Rows appended above the anchored position leave the anchor as it is. */
  lemma AnchorUnchanged(sha: Sha, rows: seq<Envelope>, more: seq<Envelope>, upto: nat)
    requires InOrder(rows + more) && (more != [] ==> more[0].globalPosition > upto)
    ensures AnchorAt(sha, rows + more, upto) == AnchorAt(sha, rows, upto)
  {
    var all := rows + more;
    assert forall i | 0 <= i < |rows| :: all[i] == rows[i];
    assert InOrder(rows);
    CountUpToMeans(rows, upto);
    var n := CountUpTo(rows, upto);
    CountUpToIs(all, upto, n);
    CollectIsLocal(rows, more, n, n);
  }

  lemma {:induction false} CollectHas(rows: seq<Envelope>, n: nat, i: nat, k: nat)
    requires k < i <= n <= |rows| && IsHead(rows, n, k)
    ensures HeadOf(rows[k]) in Collect(rows, n, i)
  {
    if k < i - 1 {
      CollectHas(rows, n, i - 1, k);
    }
  }

  lemma {:induction false} CollectOnly(rows: seq<Envelope>, n: nat, i: nat, head: A.StreamHead)
    requires i <= n <= |rows| && head in Collect(rows, n, i)
    ensures exists k :: 0 <= k < i && IsHead(rows, n, k) && head == HeadOf(rows[k])
  {
    if !(IsHead(rows, n, i - 1) && head == HeadOf(rows[i - 1])) {
      CollectOnly(rows, n, i - 1, head);
    }
  }

  /** Every row's stream has a head at least as high. */
  lemma {:induction false} HeadAbove(rows: seq<Envelope>, n: nat, j: nat, m: nat) returns (i: nat)
    requires j < m <= n <= |rows|
    ensures i < m && rows[i].sid == rows[j].sid && rows[i].version >= rows[j].version
    ensures forall k | 0 <= k < m && rows[k].sid == rows[j].sid :: rows[k].version <= rows[i].version
    decreases m
  {
    if m == j + 1 {
      i := j;
      if k :| 0 <= k < j && rows[k].sid == rows[j].sid && rows[k].version > rows[j].version {
        var below := HeadAbove(rows, n, k, j);
        i := below;
      }
    } else {
      i := HeadAbove(rows, n, j, m - 1);
      if rows[m - 1].sid == rows[j].sid && rows[m - 1].version > rows[i].version {
        i := m - 1;
      }
    }
  }

  lemma {:induction false} StreamRowsPrefix(rows: seq<Envelope>, n: nat, sid: StreamId)
    requires n <= |rows|
    ensures StreamRows(rows[..n], sid) <= StreamRows(rows, sid)
  {
    StreamRowsConcat(rows[..n], rows[n..], sid);
    assert rows == rows[..n] + rows[n..];
  }

  lemma VersionIsCount(h: Hasher, rows: seq<Envelope>, j: nat)
    requires LogOk(h, rows) && j < |rows|
    ensures rows[j].version == |StreamRows(rows[..j], rows[j].sid)| + 1
  {
    var sid := rows[j].sid;
    assert rows[..j + 1][..j] == rows[..j];
    StreamRowsPrefix(rows, j + 1, sid);
    assert ChainedStream(h, sid, StreamRows(rows, sid));
    var mine := StreamRows(rows[..j + 1], sid);
    assert mine[|mine| - 1] == rows[j];
  }

  /** Later rows of a stream have higher versions. */
  lemma VersionsGrow(h: Hasher, rows: seq<Envelope>, i: nat, j: nat)
    requires LogOk(h, rows) && i < j < |rows| && rows[i].sid == rows[j].sid
    ensures rows[i].version < rows[j].version
  {
    VersionIsCount(h, rows, i);
    VersionIsCount(h, rows, j);
    assert rows[..j][..i + 1] == rows[..i + 1] && rows[..i + 1][..i] == rows[..i];
    StreamRowsPrefix(rows[..j], i + 1, rows[i].sid);
  }

  ghost predicate Encodable(rows: seq<Envelope>) {
    |rows| < TWO64 && forall i | 0 <= i < |rows| :: rows[i].version < TWO64
  }

  lemma HeadsEncodable(h: Hasher, rows: seq<Envelope>, n: nat, i: nat)
    requires LogOk(h, rows) && Encodable(rows) && i <= n <= |rows|
    ensures |Collect(rows, n, i)| <= i && forall head | head in Collect(rows, n, i) :: A.EncodableHead(head)
  {
    if i > 0 {
      HeadsEncodable(h, rows, n, i - 1);
    }
  }

  lemma SummaryIn(sha: Sha, heads: seq<A.StreamHead>, head: A.StreamHead)
    requires head in heads
    ensures A.SummaryOf(sha, head) in A.Summaries(sha, A.Sorted(heads))
  {
    A.SortedSorts(heads);
    assert head in multiset(A.Sorted(heads));
    var i :| 0 <= i < |A.Sorted(heads)| && A.Sorted(heads)[i] == head;
    assert A.Summaries(sha, A.Sorted(heads))[i] == A.SummaryOf(sha, head);
  }

  lemma SummaryFrom(sha: Sha, heads: seq<A.StreamHead>, s: A.Summary)
    requires s in A.Summaries(sha, A.Sorted(heads))
    ensures exists head | head in heads :: s == A.SummaryOf(sha, head)
  {
    A.SortedSorts(heads);
    var i :| 0 <= i < |A.Sorted(heads)| && A.Summaries(sha, A.Sorted(heads))[i] == s;
    assert A.Sorted(heads)[i] in multiset(heads);
  }

  /** A summary is that of some head row. */
  lemma SummaryOfHead(sha: Sha, rows: seq<Envelope>, n: nat, s: A.Summary) returns (k: nat)
    requires n <= |rows| && s in A.Summaries(sha, A.Sorted(HeadsAt(rows, n)))
    ensures k < n && IsHead(rows, n, k) && s == A.SummaryOf(sha, HeadOf(rows[k]))
  {
    SummaryFrom(sha, HeadsAt(rows, n), s);
    var head :| head in HeadsAt(rows, n) && s == A.SummaryOf(sha, head);
    CollectOnly(rows, n, n, head);
    k :| 0 <= k < n && IsHead(rows, n, k) && head == HeadOf(rows[k]);
  }

  /** A row appended at or below the anchored position shows: it raises its stream's head, and no head
      of the older log is that high. */
  lemma NewHeadIsNew(h: Hasher, sha: Sha, rows: seq<Envelope>, more: seq<Envelope>, upto: nat)
    requires LogOk(h, rows + more) && more != [] && more[0].globalPosition <= upto
    ensures A.Summaries(sha, A.Sorted(HeadsAt(rows + more, CountUpTo(rows + more, upto)))) !=
            A.Summaries(sha, A.Sorted(HeadsAt(rows, CountUpTo(rows, upto))))
  {
    var all, e := rows + more, |rows|;
    var n', n := CountUpTo(all, upto), CountUpTo(rows, upto);
    CountUpToMeans(all, upto);
    assert all[e] == more[0];
    var i := HeadAbove(all, n', e, n');
    CollectHas(all, n', n', i);
    var raised := A.SummaryOf(sha, HeadOf(all[i]));
    SummaryIn(sha, HeadsAt(all, n'), HeadOf(all[i]));
    if raised in A.Summaries(sha, A.Sorted(HeadsAt(rows, n))) {
      var k := SummaryOfHead(sha, rows, n, raised);
      assert all[k] == rows[k];
      VersionsGrow(h, all, k, e);
    }
  }

  /** An anchor still checks after further appends exactly when they all landed above the anchored
      position, or a hash collision is exhibited. An anchor taken at or below the log head is therefore
      stable for good; one taken at a position the log has not reached yet is not. */
  lemma AnchorChecksExactlyWhen(h: Hasher, sha: Sha, rows: seq<Envelope>, more: seq<Envelope>, upto: nat)
    returns (x: Bytes, y: Bytes)
    requires LogOk(h, rows) && LogOk(h, rows + more) && Encodable(rows) && Encodable(rows + more) && more != []
    ensures || Collision(sha, x, y)
            || (AnchorAt(sha, rows + more, upto) == AnchorAt(sha, rows, upto) <==> more[0].globalPosition > upto)
    ensures upto <= LastPosition(rows) ==> AnchorAt(sha, rows + more, upto) == AnchorAt(sha, rows, upto)
  {
    x, y := [], [];
    var all := rows + more;
    assert rows != [] ==> all[|rows| - 1] == rows[|rows| - 1];
    assert all[|rows|] == more[0] && more[0].globalPosition > LastPosition(rows);
    if more[0].globalPosition > upto {
      AnchorUnchanged(sha, rows, more, upto);
    } else if AnchorAt(sha, all, upto) == AnchorAt(sha, rows, upto) {
      HeadsEncodable(h, all, CountUpTo(all, upto), CountUpTo(all, upto));
      HeadsEncodable(h, rows, CountUpTo(rows, upto), CountUpTo(rows, upto));
      x, y := A.EqualRootsEqualHeads(sha, HeadsAt(all, CountUpTo(all, upto)), HeadsAt(rows, CountUpTo(rows, upto)));
      NewHeadIsNew(h, sha, rows, more, upto);
    }
  }
}
