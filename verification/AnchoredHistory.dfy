/** What an anchor is for: two logs that verify and carry the same anchor root hold the same history of every
    stream up to the anchored position (es/anchor.go, es/verify.go, sqlite/anchor.go). */
module AnchoredHistory {
  import opened Wrappers
  import opened ByteStrings
  import opened StreamIds
  import opened Envelopes
  import opened ChainVerify
  import opened SqliteStore

  /** A stream's rows at or below a position. */
  function HistoryUpTo(rows: seq<Envelope>, upto: nat, sid: StreamId): seq<Envelope> {
    StreamRows(rows[..CountUpTo(rows, upto)], sid)
  }

  /** The log verifies, and its rows are what the encodings can carry. */
  ghost predicate Verified(sha: Sha, rows: seq<Envelope>) {
    LogOk(Chain(sha), rows) && |rows| < TWO64 && forall i | 0 <= i < |rows| :: Envelopes.Encodable(rows[i])
  }

  // ---------------------------------------------------------------- heads and streams

  /** The last of a stream's first rows is that stream's head among them. */
  lemma {:induction false} LastRowIsHead(h: Hasher, rows: seq<Envelope>, n: nat, sid: StreamId) returns (i: nat)
    requires LogOk(h, rows) && n <= |rows| && StreamRows(rows[..n], sid) != []
    ensures i < n && IsHead(rows, n, i) && rows[i].sid == sid
    ensures var mine := StreamRows(rows[..n], sid); mine[|mine| - 1] == rows[i]
    decreases n
  {
    assert rows[..n][..n - 1] == rows[..n - 1];
    if rows[n - 1].sid == sid {
      i := n - 1;
      forall j | 0 <= j < n && rows[j].sid == sid
        ensures rows[j].version <= rows[i].version
      {
        if j < i {
          VersionsGrow(h, rows, j, i);
        }
      }
    } else {
      i := LastRowIsHead(h, rows, n - 1, sid);
    }
  }

  lemma HeadIsLastRow(h: Hasher, rows: seq<Envelope>, n: nat, k: nat)
    requires LogOk(h, rows) && k < n <= |rows| && IsHead(rows, n, k)
    ensures var mine := StreamRows(rows[..n], rows[k].sid); mine != [] && mine[|mine| - 1] == rows[k]
  {
    var sid := rows[k].sid;
    assert rows[..n][..k + 1] == rows[..k + 1] && rows[..k + 1][..k] == rows[..k];
    StreamRowsPrefix(rows[..n], k + 1, sid);
    var i := LastRowIsHead(h, rows, n, sid);
    if i < k {
      VersionsGrow(h, rows, i, k);
    } else if k < i {
      VersionsGrow(h, rows, k, i);
    }
  }

  lemma {:induction false} RowsAreFromLog(rows: seq<Envelope>, sid: StreamId, e: Envelope)
    requires e in StreamRows(rows, sid)
    ensures e in rows
  {
    if e != rows[|rows| - 1] {
      RowsAreFromLog(rows[..|rows| - 1], sid, e);
    }
  }

  /** A stream's rows up to a position are a chain from version 1. */
  lemma HistoryIsChain(sha: Sha, rows: seq<Envelope>, upto: nat, sid: StreamId)
    requires Verified(sha, rows)
    ensures var mine := HistoryUpTo(rows, upto, sid);
            && IsChain(Chain(sha), sid, None, mine)
            && (forall i | 0 <= i < |mine| :: mine[i].version == i + 1 && Envelopes.Encodable(mine[i]))
  {
    var mine, all := HistoryUpTo(rows, upto, sid), StreamRows(rows, sid);
    StreamRowsPrefix(rows, CountUpTo(rows, upto), sid);
    assert ChainedStream(Chain(sha), sid, all);
    forall i | 0 <= i < |mine|
      ensures RowOk(Chain(sha), sid, None, mine, i) && mine[i].version == i + 1 && Envelopes.Encodable(mine[i])
    {
      assert mine[i] == all[i] && all[i] in all;
      assert RowOk(Chain(sha), sid, None, all, i);
      RowsAreFromLog(rows, sid, all[i]);
    }
  }

  // ---------------------------------------------------------------- one stream

  /** The summary of a stream's last row below the position is in the root. */
  lemma LastRowIsSummarised(sha: Sha, rows: seq<Envelope>, upto: nat, sid: StreamId)
    requires Verified(sha, rows) && HistoryUpTo(rows, upto, sid) != []
    ensures var mine := HistoryUpTo(rows, upto, sid);
            A.SummaryOf(sha, HeadOf(mine[|mine| - 1])) in
            A.Summaries(sha, A.Sorted(HeadsAt(rows, CountUpTo(rows, upto))))
  {
    var n := CountUpTo(rows, upto);
    var i := LastRowIsHead(Chain(sha), rows, n, sid);
    CollectHas(rows, n, n, i);
    SummaryIn(sha, HeadsAt(rows, n), HeadOf(rows[i]));
  }

  /** A summary in the root is that of its stream's last row. */
  lemma SummaryIsOfLastRow(sha: Sha, rows: seq<Envelope>, upto: nat, s: A.Summary)
    requires Verified(sha, rows) && s in A.Summaries(sha, A.Sorted(HeadsAt(rows, CountUpTo(rows, upto))))
    ensures var mine := HistoryUpTo(rows, upto, s.sid);
            mine != [] && s == A.SummaryOf(sha, HeadOf(mine[|mine| - 1]))
  {
    var n := CountUpTo(rows, upto);
    var k := SummaryOfHead(sha, rows, n, s);
    HeadIsLastRow(Chain(sha), rows, n, k);
  }

  /** Two chained heads of one version with one effective hash store the same hash, or collide. */
  lemma SameEffectiveHash(sha: Sha, e: Envelope, f: Envelope) returns (x: Bytes, y: Bytes)
    requires e.sid == f.sid && e.version == f.version
    requires e.hash.Some? ==> e.hash.value == EnvelopeHash(sha, e)
    requires f.hash.Some? ==> f.hash.value == EnvelopeHash(sha, f)
    requires A.EffectiveHash(sha, HeadOf(e)) == A.EffectiveHash(sha, HeadOf(f))
    ensures e.hash == f.hash || Collision(sha, x, y)
  {
    var chained := if e.hash.Some? then e else f;
    x, y := CanonicalEnvelope(chained), EncodeFields(UnchainedFields(e.sid, e.version));
    DomainsDisjoint(chained, e.sid, e.version, []);
  }

  ghost predicate SameSummaries(sha: Sha, a: seq<Envelope>, b: seq<Envelope>, upto: nat) {
    A.Summaries(sha, A.Sorted(HeadsAt(a, CountUpTo(a, upto)))) ==
    A.Summaries(sha, A.Sorted(HeadsAt(b, CountUpTo(b, upto))))
  }

  lemma LastRowVersion(sha: Sha, rows: seq<Envelope>, upto: nat, sid: StreamId)
    requires Verified(sha, rows) && HistoryUpTo(rows, upto, sid) != []
    ensures var mine := HistoryUpTo(rows, upto, sid); mine[|mine| - 1].version == |mine| && mine[|mine| - 1].sid == sid
  {
    var mine := HistoryUpTo(rows, upto, sid);
    HistoryIsChain(sha, rows, upto, sid);
    assert RowOk(Chain(sha), sid, None, mine, |mine| - 1);
  }

  /** A stream the one log has below the position the other has too, at the same length and hash. */
  lemma SameLastRow(sha: Sha, a: seq<Envelope>, b: seq<Envelope>, upto: nat, sid: StreamId)
    requires Verified(sha, a) && Verified(sha, b) && SameSummaries(sha, a, b, upto)
    requires HistoryUpTo(a, upto, sid) != []
    ensures var mine, theirs := HistoryUpTo(a, upto, sid), HistoryUpTo(b, upto, sid);
            && |theirs| == |mine|
            && A.SummaryOf(sha, HeadOf(mine[|mine| - 1])) == A.SummaryOf(sha, HeadOf(theirs[|theirs| - 1]))
  {
    var mine := HistoryUpTo(a, upto, sid);
    LastRowVersion(sha, a, upto, sid);
    LastRowIsSummarised(sha, a, upto, sid);
    SummaryIsOfLastRow(sha, b, upto, A.SummaryOf(sha, HeadOf(mine[|mine| - 1])));
    LastRowVersion(sha, b, upto, sid);
  }

  lemma StreamAgrees(sha: Sha, a: seq<Envelope>, b: seq<Envelope>, upto: nat, sid: StreamId)
    returns (x: Bytes, y: Bytes)
    requires Verified(sha, a) && Verified(sha, b) && SameSummaries(sha, a, b, upto)
    ensures SameAttested(HistoryUpTo(a, upto, sid), HistoryUpTo(b, upto, sid)) || Collision(sha, x, y)
  {
    x, y := [], [];
    var mine, theirs := HistoryUpTo(a, upto, sid), HistoryUpTo(b, upto, sid);
    if mine == [] {
      if theirs != [] {
        SameLastRow(sha, b, a, upto, sid);
      }
      return;
    }
    SameLastRow(sha, a, b, upto, sid);
    HistoryIsChain(sha, a, upto, sid);
    HistoryIsChain(sha, b, upto, sid);
    var n := |mine| - 1;
    assert RowOk(Chain(sha), sid, None, mine, n) && RowOk(Chain(sha), sid, None, theirs, n);
    x, y := SameEffectiveHash(sha, mine[n], theirs[n]);
    if mine[n].hash == theirs[n].hash {
      forall i | 0 <= i < |mine|
        ensures BothEncodable(mine, theirs, i)
      {
      }
      x, y := EqualHeadsEqualHistory(sha, sid, None, mine, theirs);
    }
  }

  // ---------------------------------------------------------------- the whole log

  /** Anchored history. Two logs that verify and have the same root at a position agree, for every stream, on
      how many rows lie at or below it, from which of them the chain runs, and on every attested field of every
      chained row; or a hash collision is exhibited. A checked anchor thus pins the whole log below it. */
  lemma EqualRootsEqualHistory(sha: Sha, a: seq<Envelope>, b: seq<Envelope>, upto: nat) returns (x: Bytes, y: Bytes)
    requires Verified(sha, a) && Verified(sha, b)
    ensures AnchorAt(sha, a, upto).root == AnchorAt(sha, b, upto).root ==>
              || Collision(sha, x, y)
              || forall sid: StreamId :: SameAttested(HistoryUpTo(a, upto, sid), HistoryUpTo(b, upto, sid))
  {
    x, y := [], [];
    if AnchorAt(sha, a, upto).root == AnchorAt(sha, b, upto).root {
      x, y := SameRootSameHistory(sha, a, b, upto);
    }
  }

  lemma SameRootSameHistory(sha: Sha, a: seq<Envelope>, b: seq<Envelope>, upto: nat) returns (x: Bytes, y: Bytes)
    requires Verified(sha, a) && Verified(sha, b) && AnchorAt(sha, a, upto).root == AnchorAt(sha, b, upto).root
    ensures || Collision(sha, x, y)
            || forall sid: StreamId :: SameAttested(HistoryUpTo(a, upto, sid), HistoryUpTo(b, upto, sid))
  {
    var n, m := CountUpTo(a, upto), CountUpTo(b, upto);
    HeadsEncodable(Chain(sha), a, n, n);
    HeadsEncodable(Chain(sha), b, m, m);
    x, y := A.EqualRootsEqualHeads(sha, HeadsAt(a, n), HeadsAt(b, m));
    if !Collision(sha, x, y) {
      if sid: StreamId :| !SameAttested(HistoryUpTo(a, upto, sid), HistoryUpTo(b, upto, sid)) {
        x, y := StreamAgrees(sha, a, b, upto, sid);
      }
    }
  }

  lemma HistoryUpToHead(rows: seq<Envelope>, sid: StreamId)
    requires InOrder(rows)
    ensures HistoryUpTo(rows, LastPosition(rows), sid) == StreamRows(rows, sid)
  {
    CountUpToIs(rows, LastPosition(rows), |rows|);
    assert rows[..|rows|] == rows;
  }

  /** An anchor over the whole log: any later log that verifies and checks against it still holds, stream by
      stream, everything the log held when the anchor was taken. */
  lemma CheckedAnchorKeepsHistory(sha: Sha, anchored: seq<Envelope>, now: seq<Envelope>) returns (x: Bytes, y: Bytes)
    requires Verified(sha, anchored) && Verified(sha, now)
    ensures AnchorAt(sha, now, LastPosition(anchored)) == AnchorAt(sha, anchored, LastPosition(anchored)) ==>
              || Collision(sha, x, y)
              || forall sid: StreamId ::
                   SameAttested(StreamRows(anchored, sid), HistoryUpTo(now, LastPosition(anchored), sid))
  {
    x, y := EqualRootsEqualHistory(sha, anchored, now, LastPosition(anchored));
    forall sid: StreamId
      ensures HistoryUpTo(anchored, LastPosition(anchored), sid) == StreamRows(anchored, sid)
    {
      HistoryUpToHead(anchored, sid);
    }
  }
}
