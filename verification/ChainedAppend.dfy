/** The append body (postgres/wsstore.go, sqlite/store.go): the link read from the stream's head, and the
    loop that builds a batch of chained envelopes, rewriting prev after each. */
module ChainedAppend {
  import opened Wrappers
  import opened ByteStrings
  import opened StreamIds
  import opened Envelopes
  import opened ChainVerify

  /** One event to append; the adapter supplies an id when the caller gives none. */
  datatype EventData = EventData(eventId: Uuid, typeUrl: Bytes, schemaVersion: nat, payload: Bytes)

  /** One append: where the stream should stand, what to add, and the audit fields all its events share. */
  datatype AppendParams = AppendParams(
    sid: StreamId, expectedVersion: nat, events: seq<EventData>,
    commandId: Uuid, correlationId: Uuid, causationId: Uuid, actor: Actor, occurredAt: Time)

  /** What the next event of a stream must link to, from its head row if there is one. */
  function LinkAfter(h: Hasher, sid: StreamId, head: Option<Envelope>): Digest {
    if head.None? then ZeroHash()
    else if head.value.hash.Some? && |head.value.hash.value| == HASH_SIZE then head.value.hash.value
    else h.unchained(sid, head.value.version)
  }

  function Unhashed(p: AppendParams, ws: Bytes, i: nat, prev: Digest, recorded: Time): Envelope
    requires i < |p.events|
  {
    var ev := p.events[i];
    Envelope(ev.eventId, p.sid, p.expectedVersion + i + 1, 0, ws, ev.typeUrl, ev.schemaVersion,
             TruncateMicros(p.occurredAt), recorded, p.correlationId, p.causationId, p.commandId, p.actor,
             ev.payload, Some(prev), None)
  }

  /** Event i of the batch, chained to prev. */
  function Chained(h: Hasher, p: AppendParams, ws: Bytes, i: nat, prev: Digest, recorded: Time): Envelope
    requires i < |p.events|
  {
    var env := Unhashed(p, ws, i, prev, recorded);
    env.(hash := Some(h.envelope(env)))
  }

  /** The hash covers neither the hash column nor the global position, so hashing before the INSERT
      is hashing the row. */
  ghost predicate IgnoresStoreColumns(h: Hasher) {
    forall e: Envelope, hash: Option<Bytes>, pos: nat ::
      h.envelope(e.(hash := hash, globalPosition := pos)) == h.envelope(e)
  }

  lemma ChainIgnoresStoreColumns(sha: Sha)
    ensures IgnoresStoreColumns(Chain(sha))
  {
    forall e: Envelope, hash: Option<Bytes>, pos: nat
      ensures Chain(sha).envelope(e.(hash := hash, globalPosition := pos)) == Chain(sha).envelope(e)
    {
      assert EnvelopeFields(e.(hash := hash, globalPosition := pos)) == EnvelopeFields(e);
    }
  }

  /** Global positions are assigned by the INSERT; they only ever grow. */
  function Placed(e: Envelope, pos: nat): Envelope {
    e.(globalPosition := pos)
  }

  function HashOf(e: Envelope): Digest {
    FixedHash(e.hash)
  }

  /** The batch so far: envelopes 0..n, each linked to the one before, the first to prev. Positions
      are at[0], at[1], ... */
  function Batch(h: Hasher, p: AppendParams, ws: Bytes, prev: Digest, recorded: Time, at: seq<nat>,
                 n: nat): (b: seq<Envelope>)
    requires n <= |p.events| && n <= |at|
    ensures |b| == n
  {
    if n == 0 then []
    else
      var before := Batch(h, p, ws, prev, recorded, at, n - 1);
      before + [Placed(Chained(h, p, ws, n - 1, LinkIn(before, prev), recorded), at[n - 1])]
  }

  function LinkIn(batch: seq<Envelope>, prev: Digest): Digest {
    if batch == [] then prev else HashOf(batch[|batch| - 1])
  }

  /** The insert loop, with prev rewritten after each event. */
  method BuildBatch(h: Hasher, p: AppendParams, ws: Bytes, head: Digest, recorded: Time, at: seq<nat>)
    returns (b: seq<Envelope>)
    requires |at| == |p.events|
    ensures b == Batch(h, p, ws, head, recorded, at, |p.events|)
  {
    b := [];
    var prev := head;
    for i := 0 to |p.events|
      invariant b == Batch(h, p, ws, head, recorded, at, i)
      invariant prev == LinkIn(b, head)
    {
      var env := Unhashed(p, ws, i, prev, recorded);
      var hash := h.envelope(env);
      b := b + [env.(hash := Some(hash), globalPosition := at[i])];
      prev := hash;
    }
  }

  // ---------------------------------------------------------------- what a batch does to a stream

  /** A stream as the store keeps it: k rows that predate the chain, the rest chained, versions 1, 2, ... */
  ghost predicate StreamOk(h: Hasher, sid: StreamId, since: Option<Time>, rows: seq<Envelope>, k: nat) {
    && k <= |rows|
    && IsChain(h, sid, since, rows)
    && (forall i | 0 <= i < |rows| :: rows[i].version == i + 1 && (rows[i].hash.None? <==> i < k))
  }

  lemma ChainedContinues(h: Hasher, sid: StreamId, since: Option<Time>, rows: seq<Envelope>, k: nat,
                         p: AppendParams, ws: Bytes, i: nat, recorded: Time, pos: nat)
    requires StreamOk(h, sid, since, rows, k) && IgnoresStoreColumns(h)
    requires p.sid == sid && i < |p.events| && |rows| == p.expectedVersion + i
    ensures var e := Placed(Chained(h, p, ws, i, LinkAfter(h, sid, Head(rows)), recorded), pos);
            && StreamOk(h, sid, since, rows + [e], k)
            && HashOf(e) == LinkAfter(h, sid, Some(e))
  {
    var e := Placed(Chained(h, p, ws, i, LinkAfter(h, sid, Head(rows)), recorded), pos);
    var more := rows + [e];
    assert more[..|rows|] == rows;
    NewRowLinks(h, sid, since, rows, k, p, ws, i, recorded, pos);
    ChainSteps(h, sid, since, more);
  }

  lemma NewRowLinks(h: Hasher, sid: StreamId, since: Option<Time>, rows: seq<Envelope>, k: nat,
                    p: AppendParams, ws: Bytes, i: nat, recorded: Time, pos: nat)
    requires StreamOk(h, sid, since, rows, k) && IgnoresStoreColumns(h)
    requires p.sid == sid && i < |p.events| && |rows| == p.expectedVersion + i
    ensures var e := Placed(Chained(h, p, ws, i, LinkAfter(h, sid, Head(rows)), recorded), pos);
            RowOk(h, sid, since, rows + [e], |rows|)
  {
    var prev := LinkAfter(h, sid, Head(rows));
    var env := Unhashed(p, ws, i, prev, recorded);
    var e := Placed(Chained(h, p, ws, i, prev, recorded), pos);
    assert e == env.(hash := e.hash, globalPosition := pos);
    assert h.envelope(e) == h.envelope(env);
    if |rows| > 0 {
      assert RowOk(h, sid, since, rows, |rows| - 1);
    }
  }

  function Head(rows: seq<Envelope>): Option<Envelope> {
    Before(rows, |rows|)
  }

  /** rows + b is again a stream, and the next link is the last one rewritten. */
  ghost predicate Extended(h: Hasher, sid: StreamId, since: Option<Time>, rows: seq<Envelope>, k: nat, prev: Digest,
                           recorded: Time, b: seq<Envelope>)
  {
    && StreamOk(h, sid, since, rows + b, k)
    && LinkIn(b, prev) == LinkAfter(h, sid, Head(rows + b))
    && forall i | 0 <= i < |b| :: b[i].recordedAt == recorded
  }

  lemma BatchStep(h: Hasher, sid: StreamId, since: Option<Time>, rows: seq<Envelope>, k: nat, prev: Digest,
                  p: AppendParams, ws: Bytes, recorded: Time, b: seq<Envelope>, pos: nat)
    requires IgnoresStoreColumns(h) && Extended(h, sid, since, rows, k, prev, recorded, b)
    requires p.sid == sid && |rows| == p.expectedVersion && |b| < |p.events|
    ensures var e := Placed(Chained(h, p, ws, |b|, LinkIn(b, prev), recorded), pos);
            Extended(h, sid, since, rows, k, prev, recorded, b + [e])
  {
    var e := Placed(Chained(h, p, ws, |b|, LinkIn(b, prev), recorded), pos);
    ChainedContinues(h, sid, since, rows + b, k, p, ws, |b|, recorded, pos);
    assert rows + (b + [e]) == (rows + b) + [e];
  }

  /** Appending a batch built on the stream's own head keeps the stream a chain. */
  lemma {:induction false} BatchExtends(h: Hasher, sid: StreamId, since: Option<Time>, rows: seq<Envelope>, k: nat,
                                        p: AppendParams, ws: Bytes, recorded: Time, at: seq<nat>, n: nat)
    requires StreamOk(h, sid, since, rows, k) && IgnoresStoreColumns(h)
    requires p.sid == sid && |rows| == p.expectedVersion && n <= |p.events| && n <= |at|
    ensures var prev := LinkAfter(h, sid, Head(rows));
            Extended(h, sid, since, rows, k, prev, recorded, Batch(h, p, ws, prev, recorded, at, n))
  {
    var prev := LinkAfter(h, sid, Head(rows));
    if n == 0 {
      assert rows + [] == rows;
    } else {
      BatchExtends(h, sid, since, rows, k, p, ws, recorded, at, n - 1);
      BatchStep(h, sid, since, rows, k, prev, p, ws, recorded, Batch(h, p, ws, prev, recorded, at, n - 1), at[n - 1]);
    }
  }

  /** The checker accepts every such stream, reports the first chained version as k + 1 (0 when there is
      none) and its length as the head. */
  lemma StreamVerifies(h: Hasher, sid: StreamId, since: Option<Time>, rows: seq<Envelope>, k: nat)
    requires StreamOk(h, sid, since, rows, k)
    ensures Accepts(h, sid, since, rows)
    ensures CheckAll(h, Start(sid, since), rows).rep ==
            Report(if k < |rows| then k + 1 else 0, |rows|, if rows == [] then None else rows[|rows| - 1].hash, 0, None)
  {
    AcceptsExactlyChains(h, sid, since, rows);
    FirstChainedIs(rows, k);
  }

  lemma {:induction false} FirstChainedIs(rows: seq<Envelope>, k: nat)
    requires forall i | 0 <= i < |rows| :: rows[i].version == i + 1 && (rows[i].hash.None? <==> i < k)
    ensures FirstChained(rows) == if k < |rows| then k + 1 else 0
  {
    if rows != [] {
      FirstChainedIs(rows[..|rows| - 1], k);
    }
  }
}
