/** Stream identity (es/streamid.go): the slug rule, the canonical storage form and its parser. */
module StreamIds {
  import opened Wrappers
  import opened ByteStrings

  datatype StreamId = StreamId(typ: Bytes, id: Bytes)

  const SEP: Byte := 58

  predicate Alnum(b: Byte) {
    97 <= b <= 122 || 48 <= b <= 57
  }

  /** ^[a-z0-9][a-z0-9_-]{0,127}$ */
  predicate Slug(s: Bytes) {
    && 1 <= |s| <= 128
    && Alnum(s[0])
    && forall i | 1 <= i < |s| :: Alnum(s[i]) || s[i] == 95 || s[i] == 45
  }

  predicate Valid(sid: StreamId) {
    Slug(sid.typ) && Slug(sid.id)
  }

  function Canonical(sid: StreamId): Bytes {
    sid.typ + [SEP] + sid.id
  }

  /** strings.IndexByte: the first occurrence, or -1. */
  function IndexByte(s: Bytes, b: Byte): (i: int)
    ensures -1 <= i < |s|
    ensures i >= 0 ==> s[i] == b
    ensures forall j :: 0 <= j < (if i < 0 then |s| else i) ==> s[j] != b
  {
    if s == [] then -1
    else if s[0] == b then 0
    else
      var i := IndexByte(s[1..], b);
      assert forall j :: 1 <= j < |s| ==> s[j] == s[1..][j - 1];
      if i < 0 then -1 else i + 1
  }

  function ParseCanonical(c: Bytes): Option<StreamId> {
    var i := IndexByte(c, SEP);
    if i <= 0 || i == |c| - 1 then None
    else
      var sid := StreamId(c[..i], c[i + 1..]);
      if Valid(sid) then Some(sid) else None
  }

  /** Parsing accepts exactly the canonical forms of valid ids, and gives the id back. */
  lemma ParseIsInverse(c: Bytes, sid: StreamId)
    ensures ParseCanonical(c) == Some(sid) <==> Valid(sid) && c == Canonical(sid)
  {
    if ParseCanonical(c) == Some(sid) {
      var i := IndexByte(c, SEP);
      assert c == c[..i] + [c[i]] + c[i + 1..];
    }
    if Valid(sid) && c == Canonical(sid) {
      var n := |sid.typ|;
      assert c[n] == SEP;
      forall j | 0 <= j < n
        ensures c[j] != SEP
      {
        assert c[j] == sid.typ[j];
      }
      assert IndexByte(c, SEP) == n;
      assert c[..n] == sid.typ && c[n + 1..] == sid.id;
    }
  }

  /** Canonical forms of valid ids are distinct for distinct ids. */
  lemma CanonicalInjective(a: StreamId, b: StreamId)
    requires Valid(a) && Valid(b) && Canonical(a) == Canonical(b)
    ensures a == b
  {
    ParseIsInverse(Canonical(a), a);
    ParseIsInverse(Canonical(a), b);
  }
}
