/** Byte strings, big-endian integers, and the length-prefixed field lists of the canonical
    encodings (es/hash.go), with a decoder for any such list. */
module ByteStrings {
  import opened Wrappers

  type Byte = b: int | 0 <= b < 256

  type Bytes = seq<Byte>

  // ---------------------------------------------------------------- integers

  function Pow256(k: nat): (p: nat)
    ensures p > 0
  {
    if k == 0 then 1 else 256 * Pow256(k - 1)
  }

  const TWO32: nat := 0x1_0000_0000
  const TWO64: nat := 0x1_0000_0000_0000_0000

  /** The low k bytes of n, most significant first. */
  function BigEndian(n: nat, k: nat): (b: Bytes)
    ensures |b| == k
    decreases k
  {
    if k == 0 then [] else BigEndian(n / 256, k - 1) + [n % 256]
  }

  function FromBigEndian(b: Bytes): nat {
    if b == [] then 0 else FromBigEndian(b[..|b| - 1]) * 256 + b[|b| - 1]
  }

  lemma {:induction false} BigEndianRoundTrip(n: nat, k: nat)
    requires n < Pow256(k)
    ensures FromBigEndian(BigEndian(n, k)) == n
    decreases k
  {
    if k > 0 {
      BigEndianRoundTrip(n / 256, k - 1);
      var b := BigEndian(n, k);
      assert b[..|b| - 1] == BigEndian(n / 256, k - 1);
    }
  }

  lemma Powers()
    ensures Pow256(4) == TWO32 && Pow256(8) == TWO64
  {
    assert Pow256(1) == 256 && Pow256(2) == 65536 && Pow256(3) == 16777216;
    assert Pow256(5) == 256 * Pow256(4) && Pow256(6) == 256 * Pow256(5) && Pow256(7) == 256 * Pow256(6);
  }

  /** An integer cast to a k-byte word: reduced modulo the word's range, then encoded. */
  function Word(n: nat, range: nat, k: nat): (b: Bytes)
    requires range > 0
    ensures |b| == k
  {
    BigEndian(n % range, k)
  }

  lemma WordRoundTrip(n: nat, range: nat, k: nat)
    requires n < range && range == Pow256(k)
    ensures FromBigEndian(Word(n, range, k)) == n
  {
    SmallMod(n, range);
    BigEndianRoundTrip(n, k);
  }

  lemma SmallMod(n: nat, range: nat)
    requires n < range
    ensures n % range == n
  {
  }

  function U32(n: nat): (b: Bytes)
    ensures |b| == 4
  {
    Word(n, TWO32, 4)
  }

  function U64(n: nat): (b: Bytes)
    ensures |b| == 8
  {
    Word(n, TWO64, 8)
  }

  lemma U32RoundTrip(n: nat)
    requires n < TWO32
    ensures FromBigEndian(U32(n)) == n
  {
    Powers();
    WordRoundTrip(n, TWO32, 4);
  }

  lemma U64RoundTrip(n: nat)
    requires n < TWO64
    ensures FromBigEndian(U64(n)) == n
  {
    Powers();
    WordRoundTrip(n, TWO64, 8);
  }

  // ---------------------------------------------------------------- field lists

  /** A variable-length field carries a uint32 length prefix, a fixed one does not. */
  datatype Field = Var(b: Bytes) | Fixed(b: Bytes)

  datatype Kind = VarKind | FixedKind(size: nat)

  function KindOf(f: Field): Kind {
    match f
    case Var(_) => VarKind
    case Fixed(b) => FixedKind(|b|)
  }

  function Kinds(fields: seq<Field>): (ks: seq<Kind>)
    ensures |ks| == |fields|
    ensures forall i :: 0 <= i < |fields| ==> ks[i] == KindOf(fields[i])
  {
    seq(|fields|, i requires 0 <= i < |fields| => KindOf(fields[i]))
  }

  function Values(fields: seq<Field>): (vs: seq<Bytes>)
    ensures |vs| == |fields|
    ensures forall i :: 0 <= i < |fields| ==> vs[i] == fields[i].b
  {
    seq(|fields|, i requires 0 <= i < |fields| => fields[i].b)
  }

  function EncodeField(f: Field): Bytes {
    match f
    case Var(b) => U32(|b|) + b
    case Fixed(b) => b
  }

  function EncodeFields(fields: seq<Field>): Bytes {
    if fields == [] then [] else EncodeField(fields[0]) + EncodeFields(fields[1..])
  }

  function Take(b: Bytes, n: nat): Option<(Bytes, Bytes)> {
    if n <= |b| then Some((b[..n], b[n..])) else None
  }

  function DecodeField(k: Kind, b: Bytes): Option<(Bytes, Bytes)> {
    match k
    case FixedKind(n) => Take(b, n)
    case VarKind =>
      match Take(b, 4)
      case None => None
      case Some((len, rest)) => Take(rest, FromBigEndian(len))
  }

  function DecodeFields(ks: seq<Kind>, b: Bytes): Option<(seq<Bytes>, Bytes)>
    decreases |ks|
  {
    if ks == [] then Some(([], b))
    else
      match DecodeField(ks[0], b)
      case None => None
      case Some((v, rest)) =>
        match DecodeFields(ks[1..], rest)
        case None => None
        case Some((vs, end)) => Some(([v] + vs, end))
  }

  ghost predicate Fits(fields: seq<Field>) {
    forall i | 0 <= i < |fields| :: fields[i].Var? ==> |fields[i].b| < TWO32
  }

  lemma DecodeFieldRoundTrip(f: Field, rest: Bytes)
    requires f.Var? ==> |f.b| < TWO32
    ensures DecodeField(KindOf(f), EncodeField(f) + rest) == Some((f.b, rest))
  {
    match f
    case Fixed(b) =>
      assert (b + rest)[..|b|] == b && (b + rest)[|b|..] == rest;
    case Var(b) =>
      U32RoundTrip(|b|);
      var all := U32(|b|) + b + rest;
      assert all == U32(|b|) + (b + rest);
      assert all[..4] == U32(|b|) && all[4..] == b + rest;
      assert (b + rest)[..|b|] == b && (b + rest)[|b|..] == rest;
  }

  /** Any field list can be read back, whatever follows it. */
  lemma {:induction false} FieldsRoundTrip(fields: seq<Field>, rest: Bytes)
    requires Fits(fields)
    ensures DecodeFields(Kinds(fields), EncodeFields(fields) + rest) == Some((Values(fields), rest))
    decreases |fields|
  {
    if fields == [] {
      assert EncodeFields(fields) + rest == rest;
    } else {
      FieldsRoundTrip(fields[1..], rest);
      FirstFieldRoundTrip(fields, rest);
    }
  }

  lemma Joined(a: Bytes, b: Bytes, c: Bytes)
    ensures (a + b) + c == a + (b + c)
  {
  }

  lemma FirstOfEach(fields: seq<Field>)
    requires fields != []
    ensures Kinds(fields)[0] == KindOf(fields[0]) && Kinds(fields)[1..] == Kinds(fields[1..])
    ensures Values(fields) == [fields[0].b] + Values(fields[1..])
  {
  }

  lemma FirstFieldRoundTrip(fields: seq<Field>, rest: Bytes)
    requires Fits(fields) && fields != []
    requires DecodeFields(Kinds(fields[1..]), EncodeFields(fields[1..]) + rest) == Some((Values(fields[1..]), rest))
    ensures DecodeFields(Kinds(fields), EncodeFields(fields) + rest) == Some((Values(fields), rest))
  {
    var after := EncodeFields(fields[1..]) + rest;
    Joined(EncodeField(fields[0]), EncodeFields(fields[1..]), rest);
    DecodeFieldRoundTrip(fields[0], after);
    FirstOfEach(fields);
  }

  /** Two field lists of one shape with the same encoding are the same list. */
  lemma FieldsInjective(a: seq<Field>, b: seq<Field>)
    requires Fits(a) && Fits(b) && Kinds(a) == Kinds(b)
    requires EncodeFields(a) == EncodeFields(b)
    ensures Values(a) == Values(b)
  {
    FieldsRoundTrip(a, []);
    FieldsRoundTrip(b, []);
    assert EncodeFields(a) + [] == EncodeFields(a) && EncodeFields(b) + [] == EncodeFields(b);
  }

  /** Byte strings that start with different length-prefixed domains are different. */
  lemma DomainsSeparate(a: Bytes, restA: Bytes, b: Bytes, restB: Bytes)
    requires a != b && |a| < TWO32 && |b| < TWO32
    ensures EncodeField(Var(a)) + restA != EncodeField(Var(b)) + restB
  {
    DecodeFieldRoundTrip(Var(a), restA);
    DecodeFieldRoundTrip(Var(b), restB);
  }
}
