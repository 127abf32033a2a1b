/** AnchorRoot (es/anchor.go): one hash over every stream's head, sorted by workspace and stream id. */
module Anchors {
  import opened Wrappers
  import opened ByteStrings
  import opened StreamIds
  import opened Envelopes

  datatype StreamHead = StreamHead(workspace: Bytes, sid: StreamId, version: nat, hash: Option<Bytes>)

  // ---------------------------------------------------------------- the order

  /** Go's string order: bytewise, a proper prefix first. */
  predicate Less(a: Bytes, b: Bytes) {
    b != [] && (a == [] || a[0] < b[0] || (a[0] == b[0] && Less(a[1..], b[1..])))
  }

  lemma {:induction false} LessIrreflexive(a: Bytes)
    ensures !Less(a, a)
  {
    if a != [] {
      LessIrreflexive(a[1..]);
    }
  }

  lemma {:induction false} LessTransitive(a: Bytes, b: Bytes, c: Bytes)
    requires Less(a, b) && Less(b, c)
    ensures Less(a, c)
  {
    if a != [] && a[0] == b[0] == c[0] {
      LessTransitive(a[1..], b[1..], c[1..]);
    }
  }

  lemma {:induction false} LessTotal(a: Bytes, b: Bytes)
    ensures Less(a, b) || a == b || Less(b, a)
  {
    if a != [] && b != [] && a[0] == b[0] {
      LessTotal(a[1..], b[1..]);
      assert a == [a[0]] + a[1..] && b == [b[0]] + b[1..];
    }
  }

  predicate Before(a: StreamHead, b: StreamHead) {
    if a.workspace != b.workspace then Less(a.workspace, b.workspace) else Less(Canonical(a.sid), Canonical(b.sid))
  }

  predicate SameKey(a: StreamHead, b: StreamHead) {
    a.workspace == b.workspace && Canonical(a.sid) == Canonical(b.sid)
  }

  lemma BeforeIsAnOrder(a: StreamHead, b: StreamHead, c: StreamHead)
    ensures Before(a, b) ==> !SameKey(a, b) && !Before(b, a)
    ensures Before(a, b) || SameKey(a, b) || Before(b, a)
    ensures Before(a, b) && Before(b, c) ==> Before(a, c)
  {
    LessTotal(a.workspace, b.workspace);
    LessTotal(Canonical(a.sid), Canonical(b.sid));
    LessAsymmetric(a.workspace, b.workspace);
    LessAsymmetric(Canonical(a.sid), Canonical(b.sid));
    if Before(a, b) && Before(b, c) {
      if a.workspace != b.workspace && b.workspace != c.workspace {
        LessTransitive(a.workspace, b.workspace, c.workspace);
        LessAsymmetric(a.workspace, b.workspace);
      } else if a.workspace == b.workspace == c.workspace {
        LessTransitive(Canonical(a.sid), Canonical(b.sid), Canonical(c.sid));
      }
    }
  }

  lemma LessAsymmetric(a: Bytes, b: Bytes)
    ensures !(Less(a, b) && Less(b, a)) && !Less(a, a)
  {
    LessIrreflexive(a);
    if Less(a, b) && Less(b, a) {
      LessTransitive(a, b, a);
    }
  }

  // ---------------------------------------------------------------- sorting

  ghost predicate DistinctKeys(s: seq<StreamHead>) {
    forall i, j | 0 <= i < j < |s| :: !SameKey(s[i], s[j])
  }

  /** No head comes before one that stands to its left. */
  ghost predicate SortedByKey(s: seq<StreamHead>) {
    forall i, j | 0 <= i < j < |s| :: !Before(s[j], s[i])
  }

  function Insert(h: StreamHead, s: seq<StreamHead>): seq<StreamHead> {
    if s == [] then [h]
    else if Before(h, s[0]) then [h] + s
    else [s[0]] + Insert(h, s[1..])
  }

  lemma {:induction false} InsertAdds(h: StreamHead, s: seq<StreamHead>)
    ensures multiset(Insert(h, s)) == multiset(s) + multiset{h}
  {
    if s != [] && !Before(h, s[0]) {
      InsertAdds(h, s[1..]);
      assert s == [s[0]] + s[1..];
    }
  }

  /** Everything inserted or there before still respects a lower bound. */
  lemma {:induction false} InsertStaysAbove(h: StreamHead, s: seq<StreamHead>, low: StreamHead)
    requires !Before(h, low) && forall j | 0 <= j < |s| :: !Before(s[j], low)
    ensures forall j | 0 <= j < |Insert(h, s)| :: !Before(Insert(h, s)[j], low)
  {
    if s != [] && !Before(h, s[0]) {
      InsertStaysAbove(h, s[1..], low);
    }
  }

  lemma SortedCons(low: StreamHead, s: seq<StreamHead>)
    requires SortedByKey(s) && forall j | 0 <= j < |s| :: !Before(s[j], low)
    ensures SortedByKey([low] + s)
  {
  }

  lemma {:induction false} InsertSorts(h: StreamHead, s: seq<StreamHead>)
    requires SortedByKey(s)
    ensures SortedByKey(Insert(h, s))
  {
    if s == [] {
    } else if Before(h, s[0]) {
      forall j | 0 <= j < |s|
        ensures !Before(s[j], h)
      {
        BeforeIsAnOrder(s[j], h, s[0]);
        BeforeIsAnOrder(h, s[0], s[0]);
      }
      SortedCons(h, s);
    } else {
      InsertSorts(h, s[1..]);
      InsertStaysAbove(h, s[1..], s[0]);
      SortedCons(s[0], Insert(h, s[1..]));
    }
  }

  /** sort.Slice on the copy: any order-respecting permutation; this one inserts head by head. */
  method Sort(heads: seq<StreamHead>) returns (sorted: seq<StreamHead>)
    ensures SortedByKey(sorted) && multiset(sorted) == multiset(heads)
    ensures sorted == Sorted(heads)
  {
    sorted := [];
    for i := 0 to |heads|
      invariant sorted == Sorted(heads[..i])
    {
      assert heads[..i + 1][..i] == heads[..i];
      sorted := Insert(heads[i], sorted);
    }
    assert heads[..|heads|] == heads;
    SortedSorts(heads);
  }

  function Sorted(heads: seq<StreamHead>): seq<StreamHead> {
    if heads == [] then [] else Insert(heads[|heads| - 1], Sorted(heads[..|heads| - 1]))
  }

  lemma {:induction false} SortedSorts(heads: seq<StreamHead>)
    ensures SortedByKey(Sorted(heads)) && multiset(Sorted(heads)) == multiset(heads)
  {
    if heads != [] {
      var n := |heads| - 1;
      SortedSorts(heads[..n]);
      InsertSorts(heads[n], Sorted(heads[..n]));
      InsertAdds(heads[n], Sorted(heads[..n]));
      assert heads == heads[..n] + [heads[n]];
    }
  }

  lemma SameFirst(a: seq<StreamHead>, b: seq<StreamHead>)
    requires SortedByKey(a) && SortedByKey(b) && multiset(a) == multiset(b) && DistinctKeys(a) && a != [] && b != []
    ensures a[0] == b[0]
  {
    assert a[0] in multiset(b) && b[0] in multiset(a);
    var i :| 0 <= i < |b| && b[i] == a[0];
    var j :| 0 <= j < |a| && a[j] == b[0];
    if j > 0 {
      assert i > 0;
      assert !Before(b[i], b[0]) && !Before(a[j], a[0]) && !SameKey(a[0], a[j]);
      BeforeIsAnOrder(a[0], b[0], b[0]);
    }
  }

  lemma TailMultiset(a: seq<StreamHead>)
    requires a != []
    ensures multiset(a[1..]) == multiset(a) - multiset{a[0]}
  {
    assert a == [a[0]] + a[1..];
  }

  /** With distinct keys there is only one sorted order, whatever algorithm produced it. */
  lemma {:induction false} SortedIsUnique(a: seq<StreamHead>, b: seq<StreamHead>)
    requires SortedByKey(a) && SortedByKey(b) && multiset(a) == multiset(b) && DistinctKeys(a)
    ensures a == b
    decreases |a|
  {
    assert |a| == |multiset(a)| == |multiset(b)| == |b|;
    if a != [] {
      SameFirst(a, b);
      TailMultiset(a);
      TailMultiset(b);
      SortedIsUnique(a[1..], b[1..]);
      assert a == [a[0]] + a[1..] && b == [b[0]] + b[1..];
    }
  }

  lemma DistinctKeysByMultiset(a: seq<StreamHead>, b: seq<StreamHead>)
    requires DistinctKeys(a) && multiset(a) == multiset(b)
    ensures DistinctKeys(b)
  {
    forall i, j | 0 <= i < j < |b|
      ensures !SameKey(b[i], b[j])
    {
      if SameKey(b[i], b[j]) {
        assert b[i] in multiset(a) && b[j] in multiset(a);
        var x :| 0 <= x < |a| && a[x] == b[i];
        var y :| 0 <= y < |a| && a[y] == b[j];
        assert x == y;
        TwiceInMultiset(b, i, j);
        OnceInMultiset(a, x);
      }
    }
  }

  lemma TwiceInMultiset(b: seq<StreamHead>, i: nat, j: nat)
    requires i < j < |b| && b[i] == b[j]
    ensures multiset(b)[b[i]] >= 2
  {
    assert b == b[..j] + ([b[j]] + b[j + 1..]);
    assert b[i] in b[..j];
  }

  lemma OnceInMultiset(a: seq<StreamHead>, x: nat)
    requires DistinctKeys(a) && x < |a|
    ensures multiset(a)[a[x]] == 1
  {
    assert a == a[..x] + ([a[x]] + a[x + 1..]);
    assert a[x] !in a[..x] && a[x] !in a[x + 1..];
  }

  // ---------------------------------------------------------------- the root

  /** The head's stored hash, or the unchained-head hash when there is none. */
  function EffectiveHash(sha: Sha, h: StreamHead): Digest {
    if h.hash.Some? && |h.hash.value| == HASH_SIZE then h.hash.value else UnchainedHeadHash(sha, h.sid, h.version)
  }

  /** What one head contributes to the root. */
  datatype Summary = Summary(workspace: Bytes, sid: StreamId, version: nat, hash: Bytes)

  function SummaryOf(sha: Sha, h: StreamHead): Summary {
    Summary(h.workspace, h.sid, h.version, EffectiveHash(sha, h))
  }

  function Summaries(sha: Sha, heads: seq<StreamHead>): (s: seq<Summary>)
    ensures |s| == |heads| && forall i | 0 <= i < |s| :: s[i] == SummaryOf(sha, heads[i])
  {
    seq(|heads|, i requires 0 <= i < |heads| => SummaryOf(sha, heads[i]))
  }

  function SummaryFields(s: Summary): seq<Field> {
    [Var(s.workspace), Var(Canonical(s.sid)), Fixed(U64(s.version)), Fixed(s.hash)]
  }

  function HeadBytes(ss: seq<Summary>): Bytes {
    if ss == [] then [] else EncodeFields(SummaryFields(ss[0])) + HeadBytes(ss[1..])
  }

  /** The bytes the root hashes: the domain, the number of heads, the heads. */
  function AnchorBytes(ss: seq<Summary>): Bytes {
    EncodeField(Var(ANCHOR_DOMAIN)) + (U64(|ss|) + HeadBytes(ss))
  }

  function Root(sha: Sha, heads: seq<StreamHead>): Digest {
    sha(AnchorBytes(Summaries(sha, Sorted(heads))))
  }

  /** AnchorRoot: sort a copy, then extend the buffer head by head. */
  method AnchorRoot(sha: Sha, heads: seq<StreamHead>) returns (root: Digest)
    ensures root == Root(sha, heads)
  {
    var sorted := Sort(heads);
    ghost var ss := Summaries(sha, sorted);
    var b := EncodeField(Var(ANCHOR_DOMAIN)) + U64(|sorted|);
    assert ss[0..] == ss;
    for i := 0 to |sorted|
      invariant b + HeadBytes(ss[i..]) == AnchorBytes(ss)
    {
      var part := EncodeFields(SummaryFields(SummaryOf(sha, sorted[i])));
      HeadBytesStep(ss, i, b);
      b := b + part;
    }
    assert ss[|sorted|..] == [] && b + [] == b;
    root := sha(b);
  }

  lemma HeadBytesStep(ss: seq<Summary>, i: nat, b: Bytes)
    requires i < |ss|
    ensures b + HeadBytes(ss[i..]) == (b + EncodeFields(SummaryFields(ss[i]))) + HeadBytes(ss[i + 1..])
  {
    assert ss[i..][0] == ss[i] && ss[i..][1..] == ss[i + 1..];
  }

  /** The root does not depend on the order the heads come in. */
  lemma RootIgnoresOrder(sha: Sha, a: seq<StreamHead>, b: seq<StreamHead>)
    requires multiset(a) == multiset(b) && DistinctKeys(a)
    ensures Root(sha, a) == Root(sha, b)
  {
    SortedSorts(a);
    SortedSorts(b);
    DistinctKeysByMultiset(a, Sorted(a));
    SortedIsUnique(Sorted(a), Sorted(b));
  }

  // ---------------------------------------------------------------- equal roots

  predicate EncodableSummary(s: Summary) {
    |s.workspace| < TWO32 && Valid(s.sid) && s.version < TWO64 && |s.hash| == HASH_SIZE
  }

  predicate EncodableHead(h: StreamHead) {
    |h.workspace| < TWO32 && Valid(h.sid) && h.version < TWO64
  }

  ghost predicate AllEncodable(ss: seq<Summary>) {
    forall i | 0 <= i < |ss| :: EncodableSummary(ss[i])
  }

  lemma SummaryFieldsInjective(a: Summary, b: Summary)
    requires EncodableSummary(a) && EncodableSummary(b) && Values(SummaryFields(a)) == Values(SummaryFields(b))
    ensures a == b
  {
    var f, g := SummaryFields(a), SummaryFields(b);
    assert forall i | 0 <= i < 4 :: Values(f)[i] == Values(g)[i];
    assert f[0].b == g[0].b && f[1].b == g[1].b && f[2].b == g[2].b && f[3].b == g[3].b;
    CanonicalInjective(a.sid, b.sid);
    U64RoundTrip(a.version);
    U64RoundTrip(b.version);
  }

  lemma SummaryFits(s: Summary)
    requires EncodableSummary(s)
    ensures Fits(SummaryFields(s)) && Kinds(SummaryFields(s)) == [VarKind, VarKind, FixedKind(8), FixedKind(32)]
  {
    assert |Canonical(s.sid)| < TWO32;
    assert Kinds(SummaryFields(s)) == [VarKind, VarKind, FixedKind(8), FixedKind(32)];
  }

  /** One head can be read off the front of the buffer. */
  lemma HeadReadsBack(a: Summary, restA: Bytes, b: Summary, restB: Bytes)
    requires EncodableSummary(a) && EncodableSummary(b)
    requires EncodeFields(SummaryFields(a)) + restA == EncodeFields(SummaryFields(b)) + restB
    ensures a == b && restA == restB
  {
    SummaryFits(a);
    SummaryFits(b);
    FieldsRoundTrip(SummaryFields(a), restA);
    FieldsRoundTrip(SummaryFields(b), restB);
    SummaryFieldsInjective(a, b);
  }

  lemma FirstHeadReadsBack(a: seq<Summary>, b: seq<Summary>)
    requires AllEncodable(a) && AllEncodable(b) && a != [] && b != [] && HeadBytes(a) == HeadBytes(b)
    ensures a[0] == b[0] && HeadBytes(a[1..]) == HeadBytes(b[1..])
  {
    assert EncodableSummary(a[0]) && EncodableSummary(b[0]);
    HeadReadsBack(a[0], HeadBytes(a[1..]), b[0], HeadBytes(b[1..]));
  }

  lemma {:induction false} HeadBytesInjective(a: seq<Summary>, b: seq<Summary>)
    requires AllEncodable(a) && AllEncodable(b) && |a| == |b| && HeadBytes(a) == HeadBytes(b)
    ensures a == b
    decreases |a|
  {
    if a != [] {
      FirstHeadReadsBack(a, b);
      HeadBytesInjective(a[1..], b[1..]);
      assert a == [a[0]] + a[1..] && b == [b[0]] + b[1..];
    }
  }

  /** The encoding determines how many heads there are, and then each of them. */
  lemma AnchorBytesInjective(a: seq<Summary>, b: seq<Summary>)
    requires AllEncodable(a) && AllEncodable(b) && |a| < TWO64 && |b| < TWO64 && AnchorBytes(a) == AnchorBytes(b)
    ensures a == b
  {
    var domain := EncodeField(Var(ANCHOR_DOMAIN));
    var x, y := U64(|a|) + HeadBytes(a), U64(|b|) + HeadBytes(b);
    assert x == (domain + x)[|domain|..] && y == (domain + y)[|domain|..];
    assert U64(|a|) == x[..8] && U64(|b|) == y[..8];
    assert HeadBytes(a) == x[8..] && HeadBytes(b) == y[8..];
    U64RoundTrip(|a|);
    U64RoundTrip(|b|);
    HeadBytesInjective(a, b);
  }

  lemma SummariesEncodable(sha: Sha, heads: seq<StreamHead>)
    requires forall h | h in heads :: EncodableHead(h)
    ensures AllEncodable(Summaries(sha, Sorted(heads))) && |Sorted(heads)| == |heads|
  {
    SortedSorts(heads);
    forall i | 0 <= i < |Sorted(heads)|
      ensures EncodableHead(Sorted(heads)[i])
    {
      assert Sorted(heads)[i] in multiset(heads);
    }
    assert |Sorted(heads)| == |multiset(Sorted(heads))| == |multiset(heads)| == |heads|;
  }

  /** Equal roots mean the same keys, versions and effective hashes, or an explicit collision. */
  lemma EqualRootsEqualHeads(sha: Sha, a: seq<StreamHead>, b: seq<StreamHead>) returns (x: Bytes, y: Bytes)
    requires (forall h | h in a :: EncodableHead(h)) && (forall h | h in b :: EncodableHead(h))
    requires |a| < TWO64 && |b| < TWO64 && Root(sha, a) == Root(sha, b)
    ensures Summaries(sha, Sorted(a)) == Summaries(sha, Sorted(b)) || Collision(sha, x, y)
  {
    SummariesEncodable(sha, a);
    SummariesEncodable(sha, b);
    x, y := AnchorBytes(Summaries(sha, Sorted(a))), AnchorBytes(Summaries(sha, Sorted(b)));
    if x == y {
      AnchorBytesInjective(Summaries(sha, Sorted(a)), Summaries(sha, Sorted(b)));
    }
  }
}
