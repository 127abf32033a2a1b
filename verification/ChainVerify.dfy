/** Verification of one stream's hash chain (es/verify.go): the incremental checker, and what
    a sequence of rows it accepts is known to be. */
module ChainVerify {
  import opened Wrappers
  import opened ByteStrings
  import opened StreamIds
  import opened Envelopes

  datatype Break =
    | WrongStream | NotContiguous | VersionZero
    | PrevOnUnhashed | UnhashedAfterChained | UnhashedTooLate
    | BadHashLength | BadPrevLength | DoesNotLink | HashMismatch
    | NotStrict

  datatype Report = Report(chainedFrom: nat, head: nat, headHash: Option<Bytes>, brokenAt: nat, err: Option<Break>)

  /** The checker's state: last is None before the first envelope. chainedSince is None when the check is off. */
  datatype Checker = Checker(sid: StreamId, chainedSince: Option<Time>, last: Option<Envelope>, rep: Report)

  function Start(sid: StreamId, chainedSince: Option<Time>): Checker {
    Checker(sid, chainedSince, None, Report(0, 0, None, 0, None))
  }

  /** What e's prev_hash must be, when the checker can know it. */
  function Wanted(h: Hasher, c: Checker, e: Envelope): Option<Bytes> {
    if c.last.None? then (if e.version == 1 then Some(ZeroHash()) else None)
    else if c.last.value.hash.None? then Some(h.unchained(c.sid, c.last.value.version))
    else c.last.value.hash
  }

  function Check(h: Hasher, c: Checker, e: Envelope): Option<Break> {
    if e.sid != c.sid then Some(WrongStream)
    else if c.last.Some? && e.version != c.last.value.version + 1 then Some(NotContiguous)
    else if c.last.None? && e.version == 0 then Some(VersionZero)
    else if e.hash.None? then
      if e.prevHash.Some? then Some(PrevOnUnhashed)
      else if c.last.Some? && c.last.value.hash.Some? then Some(UnhashedAfterChained)
      else if c.chainedSince.Some? && e.recordedAt > c.chainedSince.value then Some(UnhashedTooLate)
      else None
    else if |e.hash.value| != HASH_SIZE then Some(BadHashLength)
    else if e.prevHash.None? || |e.prevHash.value| != HASH_SIZE then Some(BadPrevLength)
    else if Wanted(h, c, e).Some? && e.prevHash != Wanted(h, c, e) then Some(DoesNotLink)
    else if h.envelope(e) != e.hash.value then Some(HashMismatch)
    else None
  }

  function Step(h: Hasher, c: Checker, e: Envelope): Checker {
    if c.rep.err.Some? then c
    else
      match Check(h, c, e)
      case Some(b) => c.(rep := c.rep.(brokenAt := e.version, err := Some(b)))
      case None =>
        var from := if e.hash.Some? && c.rep.chainedFrom == 0 then e.version else c.rep.chainedFrom;
        c.(last := Some(e), rep := c.rep.(chainedFrom := from, head := e.version, headHash := e.hash))
  }

  function CheckAll(h: Hasher, c: Checker, rows: seq<Envelope>): Checker {
    if rows == [] then c else Step(h, CheckAll(h, c, rows[..|rows| - 1]), rows[|rows| - 1])
  }

  ghost predicate Accepts(h: Hasher, sid: StreamId, since: Option<Time>, rows: seq<Envelope>) {
    CheckAll(h, Start(sid, since), rows).rep.err.None?
  }

  lemma CheckAllSnoc(h: Hasher, c: Checker, rows: seq<Envelope>, e: Envelope)
    ensures CheckAll(h, c, rows + [e]) == Step(h, CheckAll(h, c, rows), e)
  {
    assert (rows + [e])[..|rows|] == rows;
  }

  /** ChainChecker as the code keeps it. */
  class ChainChecker {
    const sid: StreamId
    const chainedSince: Option<Time>
    var last: Option<Envelope>
    var rep: Report

    ghost const h: Hasher
    ghost var seen: seq<Envelope>

    ghost function State(): Checker
      reads this
    {
      Checker(sid, chainedSince, last, rep)
    }

    /** The fields are what the envelopes seen so far determine. */
    ghost predicate Valid()
      reads this
    {
      State() == CheckAll(h, Start(sid, chainedSince), seen)
    }

    constructor (ghost h: Hasher, sid: StreamId, chainedSince: Option<Time>)
      ensures Valid() && this.h == h && this.sid == sid && this.chainedSince == chainedSince
      ensures seen == [] && rep.err.None?
    {
      this.h := h;
      this.sid := sid;
      this.chainedSince := chainedSince;
      last := None;
      rep := Report(0, 0, None, 0, None);
      seen := [];
    }

    /** Next: verify e against the envelope before it; once broken, stay broken. */
    method Next(h: Hasher, e: Envelope) returns (err: Option<Break>)
      requires Valid() && h == this.h
      modifies this
      ensures Valid() && seen == old(seen) + [e]
      ensures err == rep.err
    {
      CheckAllSnoc(h, Start(sid, chainedSince), seen, e);
      ghost var before := State();
      seen := seen + [e];
      if rep.err.Some? {
        return rep.err;
      }
      var bad := CheckOne(h, e);
      if bad.Some? {
        rep := rep.(brokenAt := e.version, err := bad);
        assert State() == Step(h, before, e);
        return bad;
      }
      if e.hash.Some? && rep.chainedFrom == 0 {
        rep := rep.(chainedFrom := e.version);
      }
      rep := rep.(head := e.version, headHash := e.hash);
      last := Some(e);
      err := None;
      assert State() == Step(h, before, e);
    }

    /** check. */
    method CheckOne(h: Hasher, e: Envelope) returns (bad: Option<Break>)
      ensures bad == Check(h, State(), e)
    {
      if e.sid != sid { return Some(WrongStream); }
      if last.Some? && e.version != last.value.version + 1 { return Some(NotContiguous); }
      if last.None? && e.version == 0 { return Some(VersionZero); }
      if e.hash.None? {
        if e.prevHash.Some? { return Some(PrevOnUnhashed); }
        if last.Some? && last.value.hash.Some? { return Some(UnhashedAfterChained); }
        if chainedSince.Some? && e.recordedAt > chainedSince.value { return Some(UnhashedTooLate); }
        return None;
      }
      if |e.hash.value| != HASH_SIZE { return Some(BadHashLength); }
      if e.prevHash.None? || |e.prevHash.value| != HASH_SIZE { return Some(BadPrevLength); }
      var want: Option<Bytes>;
      if last.None? && e.version == 1 {
        want := Some(ZeroHash());
      } else if last.None? {
        want := None;
      } else if last.value.hash.None? {
        want := Some(h.unchained(sid, last.value.version));
      } else {
        want := last.value.hash;
      }
      if want.Some? && e.prevHash != want { return Some(DoesNotLink); }
      if h.envelope(e) != e.hash.value { return Some(HashMismatch); }
      return None;
    }
  }

  // ---------------------------------------------------------------- what acceptance means

  /** e continues a chain after last: same stream, next version, and either an unhashed row among
      unhashed ones or a row whose hash covers its fields and whose prev_hash is the link required here. */
  ghost predicate Continues(h: Hasher, sid: StreamId, since: Option<Time>, last: Option<Envelope>, e: Envelope) {
    && e.sid == sid
    && (if last.Some? then e.version == last.value.version + 1 else e.version > 0)
    && (e.hash.None? ==>
          && e.prevHash.None?
          && (last.Some? ==> last.value.hash.None?)
          && (since.Some? ==> e.recordedAt <= since.value))
    && (e.hash.Some? ==>
          && e.prevHash.Some? && |e.prevHash.value| == HASH_SIZE
          && (last.None? && e.version == 1 ==> e.prevHash.value == ZeroHash())
          && (last.Some? && last.value.hash.None? ==>
                e.prevHash.value == h.unchained(sid, last.value.version))
          && (last.Some? && last.value.hash.Some? ==> e.prevHash == last.value.hash)
          && e.hash.value == h.envelope(e))
  }

  lemma CheckDecides(h: Hasher, c: Checker, e: Envelope)
    ensures Check(h, c, e).None? <==> Continues(h, c.sid, c.chainedSince, c.last, e)
  {
  }

  function Before(rows: seq<Envelope>, i: nat): Option<Envelope>
    requires i <= |rows|
  {
    if i == 0 then None else Some(rows[i - 1])
  }

  /** A chain, stated row by row without the checker. */
  ghost predicate IsChain(h: Hasher, sid: StreamId, since: Option<Time>, rows: seq<Envelope>) {
    forall i | 0 <= i < |rows| :: RowOk(h, sid, since, rows, i)
  }

  ghost predicate RowOk(h: Hasher, sid: StreamId, since: Option<Time>, rows: seq<Envelope>, i: nat)
    requires i < |rows|
  {
    Continues(h, sid, since, Before(rows, i), rows[i])
  }

  function FirstChained(rows: seq<Envelope>): nat {
    if rows == [] then 0
    else
      var before := FirstChained(rows[..|rows| - 1]);
      if before == 0 && rows[|rows| - 1].hash.Some? then rows[|rows| - 1].version else before
  }

  lemma ChainSteps(h: Hasher, sid: StreamId, since: Option<Time>, rows: seq<Envelope>)
    requires rows != []
    ensures IsChain(h, sid, since, rows) <==>
            var n := |rows| - 1;
            IsChain(h, sid, since, rows[..n]) && RowOk(h, sid, since, rows, n)
  {
    var n := |rows| - 1;
    forall i | 0 <= i < n
      ensures RowOk(h, sid, since, rows, i) <==> RowOk(h, sid, since, rows[..n], i)
    {
      assert rows[..n][i] == rows[i] && Before(rows[..n], i) == Before(rows, i);
    }
  }

  ghost predicate Reports(c: Checker, rows: seq<Envelope>) {
    var n := |rows|;
    && c.last == Before(rows, n)
    && c.rep == Report(FirstChained(rows), if n == 0 then 0 else rows[n - 1].version,
                       if n == 0 then None else rows[n - 1].hash, 0, None)
  }

  lemma {:induction false} CheckAllFrame(h: Hasher, c: Checker, rows: seq<Envelope>)
    ensures CheckAll(h, c, rows).sid == c.sid && CheckAll(h, c, rows).chainedSince == c.chainedSince
  {
    if rows != [] {
      CheckAllFrame(h, c, rows[..|rows| - 1]);
    }
  }

  /** The checker accepts exactly the chains, and reports their first hashed version and their head. */
  lemma {:induction false} AcceptsExactlyChains(h: Hasher, sid: StreamId, since: Option<Time>, rows: seq<Envelope>)
    ensures Accepts(h, sid, since, rows) <==> IsChain(h, sid, since, rows)
    ensures Accepts(h, sid, since, rows) ==> Reports(CheckAll(h, Start(sid, since), rows), rows)
  {
    if rows != [] {
      var n := |rows| - 1;
      AcceptsExactlyChains(h, sid, since, rows[..n]);
      ChainSteps(h, sid, since, rows);
      var c := CheckAll(h, Start(sid, since), rows[..n]);
      CheckAllFrame(h, Start(sid, since), rows[..n]);
      CheckDecides(h, c, rows[n]);
    }
  }

  // ---------------------------------------------------------------- tamper evidence

  /** The chained rows of a and b attest the same fields. */
  ghost predicate SameAttested(a: seq<Envelope>, b: seq<Envelope>) {
    && |a| == |b|
    && forall i | 0 <= i < |a| ::
         (a[i].hash.Some? <==> b[i].hash.Some?) && (a[i].hash.Some? ==> AttestedBy(a[i]) == AttestedBy(b[i]))
  }

  lemma {:induction false} ChainVersions(h: Hasher, sid: StreamId, since: Option<Time>, rows: seq<Envelope>, i: nat)
    requires IsChain(h, sid, since, rows) && i < |rows|
    ensures rows[i].version == rows[0].version + i && rows[i].sid == sid
    ensures rows[i].hash.None? ==> rows[0].hash.None?
  {
    assert RowOk(h, sid, since, rows, i);
    if i > 0 {
      ChainVersions(h, sid, since, rows, i - 1);
    }
  }

  /** An unhashed row has only unhashed rows before it. */
  lemma {:induction false} UnhashedBelow(h: Hasher, sid: StreamId, since: Option<Time>, rows: seq<Envelope>, i: nat,
                                         j: nat)
    requires IsChain(h, sid, since, rows) && j <= i < |rows| && rows[i].hash.None?
    ensures rows[j].hash.None?
    decreases i
  {
    if j < i {
      assert RowOk(h, sid, since, rows, i);
      UnhashedBelow(h, sid, since, rows, i - 1, j);
    }
  }

  /** Two chained rows of the same hash attest the same fields, or are a collision. */
  lemma SameHashSameFields(sha: Sha, a: Envelope, b: Envelope)
    requires Encodable(a) && Encodable(b)
    requires EnvelopeHash(sha, a) == EnvelopeHash(sha, b)
    ensures AttestedBy(a) == AttestedBy(b) || Collision(sha, CanonicalEnvelope(a), CanonicalEnvelope(b))
  {
    if CanonicalEnvelope(a) == CanonicalEnvelope(b) {
      CanonicalEnvelopeInjective(a, b);
    }
  }

  predicate BothEncodable(a: seq<Envelope>, b: seq<Envelope>, i: nat)
    requires i < |a| && i < |b|
  {
    Encodable(a[i]) && Encodable(b[i])
  }

  ghost predicate Comparable(sha: Sha, sid: StreamId, since: Option<Time>, a: seq<Envelope>, b: seq<Envelope>) {
    && IsChain(Chain(sha), sid, since, a) && IsChain(Chain(sha), sid, since, b)
    && |a| == |b| && a != [] && a[0].version == 1 && b[0].version == 1
    && (forall i | 0 <= i < |a| :: BothEncodable(a, b, i))
    && a[|a| - 1].hash == b[|b| - 1].hash
  }

  /** A row of a chain, as the rows above it rely on it. */
  ghost predicate Stored(sha: Sha, e: Envelope) {
    Encodable(e) && (e.hash.Some? ==> e.hash.value == EnvelopeHash(sha, e))
  }

  /** Equal links mean equal rows below, or one side's unchained-head input collides with the other's envelope. */
  lemma LinkDown(sha: Sha, sid: StreamId, since: Option<Time>, p: Envelope, a: Envelope, q: Envelope, b: Envelope)
    returns (x: Bytes, y: Bytes)
    requires Continues(Chain(sha), sid, since, Some(p), a) && Continues(Chain(sha), sid, since, Some(q), b)
    requires Stored(sha, p) && Stored(sha, q) && p.version == q.version
    requires a.hash.Some? && b.hash.Some? && a.prevHash.value == b.prevHash.value
    ensures Collision(sha, x, y) || p.hash == q.hash
  {
    var chained := if p.hash.Some? then p else q;
    x, y := CanonicalEnvelope(chained), EncodeFields(UnchainedFields(sid, p.version));
    DomainsDisjoint(chained, sid, p.version, []);
  }

  /** Equal hashes at one row force equal attested fields there, or an explicit collision. */
  lemma TopRow(sha: Sha, sid: StreamId, since: Option<Time>, p: Option<Envelope>, a: Envelope, q: Option<Envelope>,
               b: Envelope)
    returns (x: Bytes, y: Bytes)
    requires Continues(Chain(sha), sid, since, p, a) && Continues(Chain(sha), sid, since, q, b)
    requires Encodable(a) && Encodable(b) && a.hash == b.hash && a.hash.Some?
    ensures Collision(sha, x, y) || (AttestedBy(a) == AttestedBy(b) && a.prevHash == b.prevHash)
  {
    SameHashSameFields(sha, a, b);
    x, y := CanonicalEnvelope(a), CanonicalEnvelope(b);
  }

  lemma ComparableRow(sha: Sha, sid: StreamId, since: Option<Time>, a: seq<Envelope>, b: seq<Envelope>, i: nat)
    requires Comparable(sha, sid, since, a, b) && i < |a|
    ensures Continues(Chain(sha), sid, since, Before(a, i), a[i])
            && Continues(Chain(sha), sid, since, Before(b, i), b[i])
    ensures Stored(sha, a[i]) && Stored(sha, b[i]) && a[i].version == b[i].version
  {
    ChainVersions(Chain(sha), sid, since, a, i);
    ChainVersions(Chain(sha), sid, since, b, i);
    assert RowOk(Chain(sha), sid, since, a, i) && RowOk(Chain(sha), sid, since, b, i);
    assert BothEncodable(a, b, i);
  }

  lemma ComparablePrefix(sha: Sha, sid: StreamId, since: Option<Time>, a: seq<Envelope>, b: seq<Envelope>)
    requires Comparable(sha, sid, since, a, b) && |a| > 1 && a[|a| - 2].hash == b[|b| - 2].hash
    ensures Comparable(sha, sid, since, a[..|a| - 1], b[..|b| - 1])
  {
    ChainSteps(Chain(sha), sid, since, a);
    ChainSteps(Chain(sha), sid, since, b);
    var initA, initB := a[..|a| - 1], b[..|b| - 1];
    forall i | 0 <= i < |a| - 1
      ensures BothEncodable(initA, initB, i)
    {
      assert BothEncodable(a, b, i);
    }
  }

  /** The top two rows on either side, as LinkDown needs them. */
  lemma LinkedRows(sha: Sha, sid: StreamId, since: Option<Time>, a: seq<Envelope>, b: seq<Envelope>)
    requires Comparable(sha, sid, since, a, b) && |a| > 1
    ensures var n := |a| - 1;
            && Continues(Chain(sha), sid, since, Some(a[n - 1]), a[n])
               && Continues(Chain(sha), sid, since, Some(b[n - 1]), b[n])
            && Stored(sha, a[n - 1]) && Stored(sha, b[n - 1]) && a[n - 1].version == b[n - 1].version
  {
    StoredRow(sha, sid, since, a, b, |a| - 2);
    ComparableRow(sha, sid, since, a, b, |a| - 1);
  }

  lemma StoredRow(sha: Sha, sid: StreamId, since: Option<Time>, a: seq<Envelope>, b: seq<Envelope>, i: nat)
    requires Comparable(sha, sid, since, a, b) && i < |a|
    ensures Stored(sha, a[i]) && Stored(sha, b[i]) && a[i].version == b[i].version
  {
    ComparableRow(sha, sid, since, a, b, i);
  }

  lemma RowBelow(sha: Sha, sid: StreamId, since: Option<Time>, a: seq<Envelope>, b: seq<Envelope>)
    returns (x: Bytes, y: Bytes)
    requires Comparable(sha, sid, since, a, b) && |a| > 1 && a[|a| - 1].hash.Some?
             && a[|a| - 1].prevHash == b[|b| - 1].prevHash
    ensures Collision(sha, x, y) || a[|a| - 2].hash == b[|b| - 2].hash
  {
    var n := |a| - 1;
    LinkedRows(sha, sid, since, a, b);
    x, y := LinkDown(sha, sid, since, a[n - 1], a[n], b[n - 1], b[n]);
  }

  lemma TopRowsContinue(sha: Sha, sid: StreamId, since: Option<Time>, a: seq<Envelope>, b: seq<Envelope>)
    requires Comparable(sha, sid, since, a, b)
    ensures var n := |a| - 1;
            && Continues(Chain(sha), sid, since, Before(a, n), a[n])
               && Continues(Chain(sha), sid, since, Before(b, n), b[n])
            && Encodable(a[n]) && Encodable(b[n]) && a[n].hash == b[n].hash
  {
    ComparableRow(sha, sid, since, a, b, |a| - 1);
  }

  lemma TopFields(sha: Sha, sid: StreamId, since: Option<Time>, a: seq<Envelope>, b: seq<Envelope>)
    returns (x: Bytes, y: Bytes)
    requires Comparable(sha, sid, since, a, b) && a[|a| - 1].hash.Some?
    ensures Collision(sha, x, y) ||
            (AttestedBy(a[|a| - 1]) == AttestedBy(b[|b| - 1]) && a[|a| - 1].prevHash == b[|b| - 1].prevHash)
  {
    var n := |a| - 1;
    TopRowsContinue(sha, sid, since, a, b);
    x, y := TopRow(sha, sid, since, Before(a, n), a[n], Before(b, n), b[n]);
  }

  /** The top row of two comparable chains: the same fields, and the same hash (or none) one row below. */
  lemma TopTwoRows(sha: Sha, sid: StreamId, since: Option<Time>, a: seq<Envelope>, b: seq<Envelope>)
    returns (x: Bytes, y: Bytes)
    requires Comparable(sha, sid, since, a, b) && a[|a| - 1].hash.Some?
    ensures Collision(sha, x, y) ||
            (&& AttestedBy(a[|a| - 1]) == AttestedBy(b[|b| - 1])
             && (|a| > 1 ==> a[|a| - 2].hash == b[|b| - 2].hash))
  {
    x, y := TopFields(sha, sid, since, a, b);
    if !Collision(sha, x, y) && |a| > 1 {
      x, y := RowBelow(sha, sid, since, a, b);
    }
  }

  /** Tamper evidence. Two row sequences of one stream that the checker accepts from version 1 on,
      of equal length and with the same head hash, start their chains at the same version and agree on
      every attested field of every chained row, or a hash collision is exhibited. */
  lemma {:induction false} EqualHeadsEqualHistory(sha: Sha, sid: StreamId, since: Option<Time>, a: seq<Envelope>,
                                                  b: seq<Envelope>)
    returns (x: Bytes, y: Bytes)
    requires Comparable(sha, sid, since, a, b)
    ensures SameAttested(a, b) || Collision(sha, x, y)
    decreases |a|
  {
    var n := |a| - 1;
    x, y := [], [];
    if a[n].hash.None? {
      AllUnhashed(sha, sid, since, a, b);
    } else {
      x, y := TopTwoRows(sha, sid, since, a, b);
      if Collision(sha, x, y) {
        return;
      }
      if n > 0 {
        ComparablePrefix(sha, sid, since, a, b);
        x, y := EqualHeadsEqualHistory(sha, sid, since, a[..n], b[..n]);
        if Collision(sha, x, y) {
          return;
        }
      }
      SameAttestedExtends(a, b);
    }
  }

  lemma AllUnhashed(sha: Sha, sid: StreamId, since: Option<Time>, a: seq<Envelope>, b: seq<Envelope>)
    requires Comparable(sha, sid, since, a, b) && a[|a| - 1].hash.None?
    ensures SameAttested(a, b)
  {
    forall i | 0 <= i < |a|
      ensures a[i].hash.None? && b[i].hash.None?
    {
      UnhashedBelow(Chain(sha), sid, since, a, |a| - 1, i);
      UnhashedBelow(Chain(sha), sid, since, b, |b| - 1, i);
    }
  }

  lemma SameAttestedExtends(a: seq<Envelope>, b: seq<Envelope>)
    requires |a| == |b| && a != [] && SameAttested(a[..|a| - 1], b[..|b| - 1])
    requires a[|a| - 1].hash == b[|b| - 1].hash && AttestedBy(a[|a| - 1]) == AttestedBy(b[|b| - 1])
    ensures SameAttested(a, b)
  {
    var n := |a| - 1;
    forall i | 0 <= i < |a|
      ensures (a[i].hash.Some? <==> b[i].hash.Some?) && (a[i].hash.Some? ==> AttestedBy(a[i]) == AttestedBy(b[i]))
    {
      if i < n {
        assert a[..n][i] == a[i] && b[..n][i] == b[i];
      }
    }
  }
}
