/** The stored event envelope and the canonical bytes its chain hash covers (es/envelope.go,
    es/hash.go). SHA-256 (section 6.2 of FIPS 180-4) is a parameter: any function from byte
    strings to 32 bytes. */
module Envelopes {
  import opened Wrappers
  import opened ByteStrings
  import opened StreamIds

  const HASH_SIZE := 32

  type Digest = b: Bytes | |b| == HASH_SIZE witness seq(32, _ => 0)

  type Uuid = b: Bytes | |b| == 16 witness seq(16, _ => 0)

  type Sha = Bytes -> Digest

  function ZeroHash(): Digest {
    seq(32, _ => 0)
  }

  /** Nanoseconds since the Unix epoch; Go's zero time is year 1. */
  type Time = int

  const ZERO_TIME: Time := -62_135_596_800_000_000_000

  datatype Actor = Actor(typ: Bytes, id: Bytes)

  /** prevHash and hash are None on rows written before the chain existed. */
  datatype Envelope = Envelope(
    eventId: Uuid, sid: StreamId, version: nat, globalPosition: nat, workspace: Bytes,
    typeUrl: Bytes, schemaVersion: nat, occurredAt: Time, recordedAt: Time,
    correlationId: Uuid, causationId: Uuid, commandId: Uuid, actor: Actor,
    payload: Bytes, prevHash: Option<Bytes>, hash: Option<Bytes>)

  /** The zero time encodes as 0; otherwise microseconds, rounded down. */
  function UnixMicros(t: Time): int {
    if t == ZERO_TIME then 0 else t / 1000
  }

  function TruncateMicros(t: Time): Time {
    t / 1000 * 1000
  }

  /** int64 reinterpreted as uint64. */
  function AsUint64(n: int): nat {
    n % TWO64
  }

  /** appendFixedHash: exactly 32 bytes, zeros for anything else. */
  function FixedHash(h: Option<Bytes>): Digest {
    if h.Some? && |h.value| == HASH_SIZE then h.value else ZeroHash()
  }

  const ENVELOPE_DOMAIN: Bytes := [101, 115, 45, 108, 105, 116, 101, 46, 101, 110, 118, 101, 108, 111, 112, 101, 46,
                                   118, 49]
  const UNCHAINED_DOMAIN: Bytes := [101, 115, 45, 108, 105, 116, 101, 46, 117, 110, 99, 104, 97, 105, 110, 101, 100, 45,
                                    104, 101, 97, 100, 46, 118, 49]
  const ANCHOR_DOMAIN: Bytes := [101, 115, 45, 108, 105, 116, 101, 46, 97, 110, 99, 104, 111, 114, 46, 118, 49]

  /** The fields of CanonicalEnvelope, in order. */
  function EnvelopeFields(e: Envelope): seq<Field> {
    [ Var(ENVELOPE_DOMAIN), Var(e.workspace), Var(Canonical(e.sid)), Fixed(U64(e.version)), Fixed(e.eventId),
      Var(e.typeUrl), Fixed(U32(e.schemaVersion)),
      Fixed(U64(AsUint64(UnixMicros(e.occurredAt)))), Fixed(U64(AsUint64(UnixMicros(e.recordedAt)))),
      Fixed(e.correlationId), Fixed(e.causationId), Fixed(e.commandId),
      Var(e.actor.typ), Var(e.actor.id), Var(e.payload), Fixed(FixedHash(e.prevHash)) ]
  }

  function CanonicalEnvelope(e: Envelope): Bytes {
    EncodeFields(EnvelopeFields(e))
  }

  function EnvelopeHash(sha: Sha, e: Envelope): Digest {
    sha(CanonicalEnvelope(e))
  }

  function UnchainedFields(sid: StreamId, headVersion: nat): seq<Field> {
    [Var(UNCHAINED_DOMAIN), Var(Canonical(sid)), Fixed(U64(headVersion))]
  }

  function UnchainedHeadHash(sha: Sha, sid: StreamId, headVersion: nat): Digest {
    sha(EncodeFields(UnchainedFields(sid, headVersion)))
  }

  /** The two hashes a chain is made of. The checker and the append path only ever apply them. */
  datatype Hasher = Hasher(envelope: Envelope -> Digest, unchained: (StreamId, nat) -> Digest)

  /** The chain hashes of one digest function. */
  function Chain(sha: Sha): Hasher {
    Hasher(e => EnvelopeHash(sha, e), (sid, v) => UnchainedHeadHash(sha, sid, v))
  }

  /** What the hash attests, and nothing else. */
  datatype Attested = Attested(
    workspace: Bytes, sid: StreamId, version: nat, eventId: Bytes, typeUrl: Bytes, schemaVersion: nat,
    occurredMicros: int, recordedMicros: int, correlationId: Bytes, causationId: Bytes, commandId: Bytes,
    actor: Actor, payload: Bytes, prevHash: Bytes)

  function AttestedBy(e: Envelope): Attested {
    Attested(e.workspace, e.sid, e.version, e.eventId, e.typeUrl, e.schemaVersion,
             UnixMicros(e.occurredAt), UnixMicros(e.recordedAt), e.correlationId, e.causationId, e.commandId,
             e.actor, e.payload, FixedHash(e.prevHash))
  }

  predicate IsInt64(n: int) {
    -0x8000_0000_0000_0000 <= n < 0x8000_0000_0000_0000
  }

  /** The Go types' ranges, a valid stream id, and every length below 2^32. */
  predicate Encodable(e: Envelope) {
    && Valid(e.sid) && e.version < TWO64 && e.schemaVersion < TWO32
    && IsInt64(UnixMicros(e.occurredAt)) && IsInt64(UnixMicros(e.recordedAt))
    && |e.workspace| < TWO32 && |e.typeUrl| < TWO32 && |e.actor.typ| < TWO32 && |e.actor.id| < TWO32
    && |e.payload| < TWO32
  }

  function SignedFrom(b: Bytes): int {
    var n := FromBigEndian(b);
    if n < 0x8000_0000_0000_0000 then n else n - TWO64
  }

  function EnvelopeKinds(): seq<Kind> {
    [ VarKind, VarKind, VarKind, FixedKind(8), FixedKind(16), VarKind, FixedKind(4), FixedKind(8), FixedKind(8),
      FixedKind(16), FixedKind(16), FixedKind(16), VarKind, VarKind, VarKind, FixedKind(32) ]
  }

  /** A decoder for CanonicalEnvelope. */
  function DecodeEnvelope(b: Bytes): Option<Attested> {
    match DecodeFields(EnvelopeKinds(), b)
    case None => None
    case Some((v, rest)) =>
      if rest != [] || |v| != 16 || v[0] != ENVELOPE_DOMAIN then None
      else
        match ParseCanonical(v[2])
        case None => None
        case Some(sid) =>
          Some(Attested(v[1], sid, FromBigEndian(v[3]), v[4], v[5], FromBigEndian(v[6]), SignedFrom(v[7]),
                        SignedFrom(v[8]),
                        v[9], v[10], v[11], Actor(v[12], v[13]), v[14], v[15]))
  }

  lemma SignedRoundTrip(n: int)
    requires IsInt64(n)
    ensures SignedFrom(U64(AsUint64(n))) == n
  {
    var u := AsUint64(n);
    assert u == if n < 0 then n + TWO64 else n by {
      if n < 0 {
        SmallMod(n + TWO64, TWO64);
      } else {
        SmallMod(n, TWO64);
      }
    }
    U64RoundTrip(u);
  }

  lemma EnvelopeFits(e: Envelope)
    requires Encodable(e)
    ensures Fits(EnvelopeFields(e)) && Kinds(EnvelopeFields(e)) == EnvelopeKinds()
  {
    var f, k := EnvelopeFields(e), EnvelopeKinds();
    assert |f| == 16 && |k| == 16;
    assert |Canonical(e.sid)| < TWO32;
    forall i | 0 <= i < 16
      ensures (f[i].Var? ==> |f[i].b| < TWO32) && KindOf(f[i]) == k[i]
    {
    }
    assert Kinds(f) == k;
  }

  /** The canonical encoding can be read back: every attested field is recovered. */
  lemma DecodeEnvelopeRoundTrip(e: Envelope)
    requires Encodable(e)
    ensures DecodeEnvelope(CanonicalEnvelope(e)) == Some(AttestedBy(e))
  {
    EnvelopeFits(e);
    FieldsRoundTrip(EnvelopeFields(e), []);
    assert CanonicalEnvelope(e) + [] == CanonicalEnvelope(e);
    ParseIsInverse(Canonical(e.sid), e.sid);
    U64RoundTrip(e.version);
    U32RoundTrip(e.schemaVersion);
    SignedRoundTrip(UnixMicros(e.occurredAt));
    SignedRoundTrip(UnixMicros(e.recordedAt));
  }

  lemma CanonicalEnvelopeInjective(a: Envelope, b: Envelope)
    requires Encodable(a) && Encodable(b) && CanonicalEnvelope(a) == CanonicalEnvelope(b)
    ensures AttestedBy(a) == AttestedBy(b)
  {
    DecodeEnvelopeRoundTrip(a);
    DecodeEnvelopeRoundTrip(b);
  }

  /** The three hash domains never share an encoding: an anchor's bytes start with its own
      length-prefixed domain, whatever heads follow. */
  lemma DomainsDisjoint(e: Envelope, sid: StreamId, v: nat, anchored: Bytes)
    ensures CanonicalEnvelope(e) != EncodeFields(UnchainedFields(sid, v))
    ensures CanonicalEnvelope(e) != EncodeField(Var(ANCHOR_DOMAIN)) + anchored
    ensures EncodeFields(UnchainedFields(sid, v)) != EncodeField(Var(ANCHOR_DOMAIN)) + anchored
  {
    assert |ENVELOPE_DOMAIN| == 19 && |UNCHAINED_DOMAIN| == 25 && |ANCHOR_DOMAIN| == 17;
    DomainsSeparate(ENVELOPE_DOMAIN, EncodeFields(EnvelopeFields(e)[1..]), UNCHAINED_DOMAIN,
                    EncodeFields(UnchainedFields(sid, v)[1..]));
    DomainsSeparate(ENVELOPE_DOMAIN, EncodeFields(EnvelopeFields(e)[1..]), ANCHOR_DOMAIN, anchored);
    DomainsSeparate(UNCHAINED_DOMAIN, EncodeFields(UnchainedFields(sid, v)[1..]), ANCHOR_DOMAIN, anchored);
  }

  ghost predicate Collision(sha: Sha, x: Bytes, y: Bytes) {
    x != y && sha(x) == sha(y)
  }
}
