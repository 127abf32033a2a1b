/** Uniqueness claims (es/constraint.go, sqlite/store.go): within one append the releases run first, then
    the claims, and a claim of a value that is taken refuses the whole append. */
module Claims {
  import opened Wrappers
  import opened ByteStrings
  import opened StreamIds

  datatype Value = Value(scope: Bytes, value: Bytes)

  datatype Op = Claim(v: Value) | Release(v: Value)

  /** unique_claims: which stream holds a value. */
  type Holders = map<Value, StreamId>

  predicate WellFormed(ops: seq<Op>) {
    forall i | 0 <= i < |ops| :: ops[i].v.scope != []
  }

  /** The holders once the first n operations, if releases by this stream, have run. */
  function Released(h: Holders, sid: StreamId, ops: seq<Op>, n: nat): Holders
    requires n <= |ops|
  {
    map v | v in h && !(h[v] == sid && Release(v) in ops[..n]) :: h[v]
  }

  /** Values claimed among the first n operations. */
  function Claimed(ops: seq<Op>, n: nat): set<Value>
    requires n <= |ops|
  {
    set i | 0 <= i < n && ops[i].Claim? :: ops[i].v
  }

  /** The claims among the first n operations take values that are free, each once. */
  ghost predicate Free(h: Holders, ops: seq<Op>, n: nat)
    requires n <= |ops|
  {
    forall i | 0 <= i < n && ops[i].Claim? :: ops[i].v !in h && ops[i].v !in Claimed(ops, i)
  }

  /** The holders once the claims among the first n operations have been granted too. */
  function Granted(h: Holders, sid: StreamId, ops: seq<Op>, n: nat): Holders
    requires n <= |ops|
  {
    map v | v in h.Keys + Claimed(ops, n) :: if v in Claimed(ops, n) then sid else h[v]
  }

  /** applyClaims: refused exactly when a claimed value is held after the releases, by anyone, or claimed twice. */
  method ApplyClaims(h: Holders, sid: StreamId, ops: seq<Op>) returns (r: Option<Holders>)
    ensures r.Some? <==> Free(Released(h, sid, ops, |ops|), ops, |ops|)
    ensures r.Some? ==> r.value == Granted(Released(h, sid, ops, |ops|), sid, ops, |ops|)
  {
    var free := RunReleases(h, sid, ops);
    var held := free;
    assert Granted(free, sid, ops, 0) == free;
    for i := 0 to |ops|
      invariant held == Granted(free, sid, ops, i) && Free(free, ops, i)
    {
      ClaimOne(free, sid, ops, i);
      if ops[i].Claim? {
        if ops[i].v in held {
          return None;
        }
        held := held[ops[i].v := sid];
      }
    }
    r := Some(held);
  }

  lemma ClaimOne(h: Holders, sid: StreamId, ops: seq<Op>, i: nat)
    requires i < |ops|
    ensures Claimed(ops, i + 1) == Claimed(ops, i) + if ops[i].Claim? then {ops[i].v} else {}
    ensures Granted(h, sid, ops, i + 1) == if ops[i].Claim? then Granted(h, sid, ops, i)[ops[i].v := sid]
            else Granted(h, sid, ops, i)
  {
    assert Claimed(ops, i + 1) == Claimed(ops, i) + if ops[i].Claim? then {ops[i].v} else {};
  }

  method RunReleases(h: Holders, sid: StreamId, ops: seq<Op>) returns (free: Holders)
    ensures free == Released(h, sid, ops, |ops|)
  {
    free := h;
    for i := 0 to |ops|
      invariant free == Released(h, sid, ops, i)
    {
      assert ops[..i + 1] == ops[..i] + [ops[i]];
      if ops[i].Release? && ops[i].v in free && free[ops[i].v] == sid {
        free := free - {ops[i].v};
      }
    }
  }

  /** One stream per value for good: what another stream holds, no append of this one takes or frees. */
  lemma ForeignClaimsStay(h: Holders, sid: StreamId, ops: seq<Op>, v: Value)
    requires Free(Released(h, sid, ops, |ops|), ops, |ops|) && v in h && h[v] != sid
    ensures var after := Granted(Released(h, sid, ops, |ops|), sid, ops, |ops|); v in after && after[v] == h[v]
  {
    var free := Released(h, sid, ops, |ops|);
    assert v in free;
    assert v !in Claimed(ops, |ops|);
  }

  /** A stream may release a value it holds and claim it again in one append, in either order. */
  lemma ReclaimIsFree(h: Holders, sid: StreamId, v: Value, first: bool)
    requires v in h && h[v] == sid
    ensures var ops := if first then [Claim(v), Release(v)] else [Release(v), Claim(v)];
            && Free(Released(h, sid, ops, 2), ops, 2)
            && Granted(Released(h, sid, ops, 2), sid, ops, 2) == h
  {
    var ops := if first then [Claim(v), Release(v)] else [Release(v), Claim(v)];
    assert ops[..2] == ops && Release(v) in ops;
    assert Claimed(ops, 2) == {v} by {
      assert ops[if first then 0 else 1] == Claim(v);
    }
    var free := Released(h, sid, ops, 2);
    assert free == h - {v};
    assert v !in Claimed(ops, if first then 0 else 1);
  }
}
