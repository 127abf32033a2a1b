/** Counting in ascending keys: what a position or version bound selects of an ordered sequence. */
module Ascending {
  ghost predicate Ascends(keys: seq<nat>) {
    forall i, j | 0 <= i < j < |keys| :: keys[i] < keys[j]
  }

  /** The indices of the keys at or below a bound. */
  function AtOrBelow(keys: seq<nat>, bound: nat): set<nat> {
    set i: nat | i < |keys| && keys[i] <= bound
  }

  function CountUpTo(keys: seq<nat>, bound: nat): (n: nat)
    ensures n <= |keys|
  {
    CountAtMost(keys, bound);
    |AtOrBelow(keys, bound)|
  }

  lemma OneMore(keys: seq<nat>, bound: nat)
    requires keys != []
    ensures |AtOrBelow(keys, bound)| ==
            |AtOrBelow(keys[..|keys| - 1], bound)| + if keys[|keys| - 1] <= bound then 1 else 0
  {
    var n: nat := |keys| - 1;
    assert AtOrBelow(keys, bound) == AtOrBelow(keys[..n], bound) + if keys[n] <= bound then {n} else {};
  }

  lemma {:induction false} CountAtMost(keys: seq<nat>, bound: nat)
    ensures |AtOrBelow(keys, bound)| <= |keys|
  {
    if keys != [] {
      OneMore(keys, bound);
      CountAtMost(keys[..|keys| - 1], bound);
    }
  }

  /** In ascending keys they are the first so many. */
  lemma {:induction false} CountMeans(keys: seq<nat>, bound: nat)
    requires Ascends(keys)
    ensures forall i | 0 <= i < |keys| :: keys[i] <= bound <==> i < CountUpTo(keys, bound)
  {
    if keys != [] {
      var n := |keys| - 1;
      var init := keys[..n];
      OneMore(keys, bound);
      CountMeans(init, bound);
      forall i | 0 <= i < n
        ensures keys[i] <= bound <==> i < CountUpTo(init, bound)
      {
        assert init[i] == keys[i];
      }
      assert n > 0 && keys[n] <= bound ==> keys[n - 1] < bound;
    }
  }
}
