/** The batching marker (projection/buffered_marker.go): saves are buffered per projection and written
    through when enough have gathered or the oldest has waited long enough, over an inner marker that may
    fail at any write, before or after it took effect. */
module BufferedMarker {
  import opened Wrappers
  import P = Projection

  type Key = string

  /** What one inner write came to; a failed one may have been written all the same. */
  datatype Write = Succeeds | Fails(written: bool)

  /** The first n inner writes succeed. */
  ghost predicate AllSucceed(writes: nat -> Write, n: nat) {
    forall i: nat | i < n :: writes(i).Succeeds?
  }

  /** n inner writes are due: done of them were made, and no more because all were or the next failed. */
  ghost predicate StopsAt(writes: nat -> Write, n: nat, done: nat) {
    done <= n && AllSucceed(writes, done) && (done < n ==> writes(done).Fails?)
  }

  function At(m: map<Key, nat>, k: Key): nat {
    if k in m then m[k] else 0
  }

  /** What a reader is told: the buffered position, or else the persisted one. */
  function Seen(inner: map<Key, nat>, pending: map<Key, nat>, k: Key): nat {
    if k in pending then pending[k] else At(inner, k)
  }

  /** The larger of the persisted and the pending position. */
  function Furthest(inner: map<Key, nat>, pending: map<Key, nat>, k: Key): nat {
    Larger(At(inner, k), At(pending, k))
  }

  /** No projection is seen below its highest saved position, and what is pending is that position. */
  ghost predicate Sound(inner: map<Key, nat>, pending: map<Key, nat>, highest: map<Key, nat>) {
    && (forall k | k in highest :: highest[k] <= Seen(inner, pending, k))
    && (forall k | k in pending :: k in highest && pending[k] == highest[k])
  }

  /** From one buffer to another by writing some of it through: every reader is told the same. */
  ghost predicate WrittenThrough(inner: map<Key, nat>, pending: map<Key, nat>, inner': map<Key, nat>,
                                 pending': map<Key, nat>) {
    && (forall k :: Seen(inner, pending, k) == Seen(inner', pending', k))
    && (forall k | k in pending' :: k in pending && pending'[k] == pending[k])
  }

  lemma WriteOne(inner: map<Key, nat>, pending: map<Key, nat>, key: Key)
    requires key in pending
    ensures WrittenThrough(inner, pending, inner[key := pending[key]], pending - {key})
    ensures WrittenThrough(inner, pending, inner[key := pending[key]], pending)
  {
  }

  lemma RemoveOne(m: map<Key, nat>, k: Key)
    requires k in m
    ensures |m - {k}| == |m| - 1
  {
    assert m.Keys == (m - {k}).Keys + {k};
  }

  lemma WriteMore(i: map<Key, nat>, p: map<Key, nat>, i1: map<Key, nat>, p1: map<Key, nat>, i2: map<Key, nat>,
                  p2: map<Key, nat>)
    requires WrittenThrough(i, p, i1, p1) && WrittenThrough(i1, p1, i2, p2)
    ensures WrittenThrough(i, p, i2, p2)
  {
    forall k
      ensures Seen(i, p, k) == Seen(i2, p2, k)
    {
      assert Seen(i1, p1, k) == Seen(i2, p2, k);
    }
  }

  lemma SoundAfterWrites(i: map<Key, nat>, p: map<Key, nat>, i': map<Key, nat>, p': map<Key, nat>,
                         highest: map<Key, nat>)
    requires Sound(i, p, highest) && WrittenThrough(i, p, i', p')
    ensures Sound(i', p', highest)
  {
    forall k | k in highest
      ensures highest[k] <= Seen(i', p', k)
    {
      assert Seen(i, p, k) == Seen(i', p', k);
    }
  }

  function Raised(highest: map<Key, nat>, k: Key, position: nat): map<Key, nat> {
    highest[k := if position > At(highest, k) then position else At(highest, k)]
  }

  /** The buffer after a save of one position. */
  function Buffer(pending: map<Key, nat>, k: Key, position: nat): map<Key, nat> {
    if position > At(pending, k) then pending[k := position] else pending
  }

  lemma SoundAfterSave(inner: map<Key, nat>, pending: map<Key, nat>, highest: map<Key, nat>, k: Key, position: nat)
    requires Sound(inner, pending, highest) && position >= At(highest, k)
    ensures Sound(inner, Buffer(pending, k, position), Raised(highest, k, position))
  {
    var pending', highest' := Buffer(pending, k, position), Raised(highest, k, position);
    forall j | j in highest'
      ensures highest'[j] <= Seen(inner, pending', j)
    {
      assert j != k ==> Seen(inner, pending', j) == Seen(inner, pending, j);
    }
  }

  /** A save takes a reader back exactly when nothing is pending for the projection and the inner marker
      is already past the position saved. */
  lemma SaveRewindsExactlyWhen(
    inner: map<Key, nat>, pending: map<Key, nat>, k: Key, position: nat, inner': map<Key, nat>, pending': map<Key, nat>)
    requires WrittenThrough(inner, Buffer(pending, k, position), inner', pending')
    ensures Seen(inner', pending', k) < Seen(inner, pending, k) <==> k !in pending && 0 < position < At(inner, k)
  {
    assert Seen(inner', pending', k) == Seen(inner, Buffer(pending, k, position), k);
  }

  // ---------------------------------------------------------------- as a marker port

  /** The port one projection sees. */
  function PortOf(inner: map<Key, nat>, pending: map<Key, nat>, unflushed: map<Key, nat>, k: Key): P.Port {
    P.Port(At(inner, k), if k in pending then Some(pending[k]) else None, At(unflushed, k))
  }

  /** Nothing happened to a port, or its buffer was written out. */
  predicate Drained(p: P.Port, p': P.Port) {
    p' == p || p' == P.FlushPort(p, true) || p' == P.FlushPort(p, false)
  }

  ghost predicate AllDrained(
    i: map<Key, nat>, p: map<Key, nat>, u: map<Key, nat>, i': map<Key, nat>, p': map<Key, nat>, u': map<Key, nat>) {
    forall k: Key :: Drained(PortOf(i, p, u, k), PortOf(i', p', u', k))
  }

  lemma DrainOne(inner: map<Key, nat>, pending: map<Key, nat>, unflushed: map<Key, nat>, key: Key)
    requires key in pending
    ensures AllDrained(inner, pending, unflushed, inner[key := pending[key]], pending - {key}, unflushed[key := 0])
    ensures AllDrained(inner, pending, unflushed, inner[key := pending[key]], pending, unflushed[key := 0])
  {
  }

  lemma DrainMore(
    i: map<Key, nat>, p: map<Key, nat>, u: map<Key, nat>, i1: map<Key, nat>, p1: map<Key, nat>, u1: map<Key, nat>,
    i2: map<Key, nat>, p2: map<Key, nat>, u2: map<Key, nat>)
    requires AllDrained(i, p, u, i1, p1, u1) && AllDrained(i1, p1, u1, i2, p2, u2)
    ensures AllDrained(i, p, u, i2, p2, u2)
  {
    forall k: Key
      ensures Drained(PortOf(i, p, u, k), PortOf(i2, p2, u2, k))
    {
      assert Drained(PortOf(i, p, u, k), PortOf(i1, p1, u1, k))
             && Drained(PortOf(i1, p1, u1, k), PortOf(i2, p2, u2, k));
    }
  }

  /** One of the port's save outcomes, a failure exactly when an error is returned. */
  ghost predicate SavedAs(p: P.Port, p': P.Port, position: nat, ok: bool) {
    exists r: P.SaveResult :: p' == P.SaveTo(p, position, r) && ok == !r.Failed?
  }

  /** A save that entered the buffer, whatever was then written out, is one of the port's. */
  lemma BufferedSaveIsASave(p: P.Port, position: nat, p': P.Port, ok: bool)
    requires Drained(p.(pending := Some(P.Held(p, position))), p')
    requires ok ==> p'.pending.None? || p' == p.(pending := Some(P.Held(p, position)))
    ensures SavedAs(p, if ok && p'.pending.Some? then p'.(unflushed := p'.unflushed + 1) else p', position, ok)
  {
    var held := P.Held(p, position);
    var r := if ok then if p'.pending.Some? then P.Buffered else P.Flushed
             else if p'.pending.None? then P.Failed(P.OnDisk)
             else if p' == p.(pending := Some(held)) then P.Failed(P.InBuffer) else P.Failed(P.Both);
    var q := if ok && p'.pending.Some? then p'.(unflushed := p'.unflushed + 1) else p';
    assert q == P.SaveTo(p, position, r);
  }

  class BufferedMarker {
    const maxCount: nat
    const maxInterval: int
    var inner: map<Key, nat>
    var pending: map<Key, nat>
    var count: nat
    var firstDirty: Option<int>

    /** The highest position saved per projection, and whether saves never went back. */
    ghost var highest: map<Key, nat>
    ghost var ascending: bool
    /** How many acknowledged saves of a projection only the buffer holds. */
    ghost var unflushed: map<Key, nat>

    ghost function PortAt(k: Key): P.Port
      reads this
    {
      PortOf(inner, pending, unflushed, k)
    }

    ghost predicate Valid()
      reads this
    {
      maxCount > 0 && maxInterval > 0 && (ascending ==> Sound(inner, pending, highest))
    }

    constructor (inner: map<Key, nat>, maxCount: int, maxInterval: int)
      ensures Valid() && this.inner == inner && pending == map[] && count == 0 && firstDirty == None
      ensures highest == map[] && ascending && unflushed == map[]
      ensures this.maxCount == (if maxCount <= 0 then 100 else maxCount)
      ensures this.maxInterval == (if maxInterval <= 0 then 1_000_000_000 else maxInterval)
    {
      this.maxCount := if maxCount <= 0 then 100 else maxCount;
      this.maxInterval := if maxInterval <= 0 then 1_000_000_000 else maxInterval;
      this.inner, this.pending, this.count, this.firstDirty := inner, map[], 0, None;
      this.highest, this.ascending, this.unflushed := map[], true, map[];
    }

    /** One inner.Save and, if it succeeds, the delete. */
    method WriteKey(key: Key, write: Write) returns (ok: bool)
      requires key in pending
      modifies this`inner, this`pending, this`unflushed
      ensures WrittenThrough(old(inner), old(pending), inner, pending) && ok == write.Succeeds?
      ensures AllDrained(old(inner), old(pending), old(unflushed), inner, pending, unflushed)
      ensures pending == if ok then old(pending) - {key} else old(pending)
      ensures ok ==> |pending| == |old(pending)| - 1
    {
      WriteOne(inner, pending, key);
      DrainOne(inner, pending, unflushed, key);
      if write.Succeeds? || write.written {
        inner := inner[key := pending[key]];
        unflushed := unflushed[key := 0];
      }
      if write.Succeeds? {
        RemoveOne(pending, key);
        pending := pending - {key};
      }
      ok := write.Succeeds?;
    }

    /** The write loop of flush, in any key order, up to the first failure. */
    method WriteEach(writes: nat -> Write) returns (ok: bool)
      modifies this`inner, this`pending, this`unflushed
      ensures WrittenThrough(old(inner), old(pending), inner, pending) && ok == (pending == map[])
      ensures AllDrained(old(inner), old(pending), old(unflushed), inner, pending, unflushed)
      ensures |pending| <= |old(pending)| && StopsAt(writes, |old(pending)|, |old(pending)| - |pending|)
    {
      ghost var i0, p0, u0 := inner, pending, unflushed;
      var n: nat := 0;
      while pending != map[]
        invariant WrittenThrough(i0, p0, inner, pending) && AllDrained(i0, p0, u0, inner, pending, unflushed)
        invariant |pending| + n == |p0| && AllSucceed(writes, n)
        decreases |pending|
      {
        var key :| key in pending;
        ghost var i1, p1, u1 := inner, pending, unflushed;
        ok := WriteKey(key, writes(n));
        WriteMore(i0, p0, i1, p1, inner, pending);
        DrainMore(i0, p0, u0, i1, p1, u1, inner, pending, unflushed);
        if !ok {
          return;
        }
        n := n + 1;
      }
      ok := true;
    }

    /** flush: one write per pending projection up to the first failure. Whatever happens, no reader is
        told anything else than before. It fails exactly when a write does. */
    method FlushPending(writes: nat -> Write) returns (ok: bool)
      requires Valid()
      modifies this`inner, this`pending, this`unflushed, this`count, this`firstDirty
      ensures Valid() && WrittenThrough(old(inner), old(pending), inner, pending) && ok == (pending == map[])
      ensures AllDrained(old(inner), old(pending), old(unflushed), inner, pending, unflushed)
      ensures ok <==> AllSucceed(writes, |old(pending)|)
      ensures |pending| <= |old(pending)| && StopsAt(writes, |old(pending)|, |old(pending)| - |pending|)
      ensures ok ==> count == 0 && firstDirty == None
      ensures !ok ==> count == old(count) && firstDirty == old(firstDirty)
    {
      ok := WriteEach(writes);
      if ascending {
        SoundAfterWrites(old(inner), old(pending), inner, pending, highest);
      }
      if ok {
        count, firstDirty := 0, None;
      }
    }

    /** One more save now would trigger a flush. */
    predicate Due(count: nat, firstDirty: Option<int>, now: int) {
      count + 1 >= maxCount || (firstDirty.Some? && now - firstDirty.value >= maxInterval)
    }

    /** Counts one save and flushes when enough have gathered or the oldest has waited long enough. */
    method Trigger(now: int, writes: nat -> Write) returns (ok: bool)
      requires Valid()
      modifies this`inner, this`pending, this`unflushed, this`count, this`firstDirty
      ensures Valid() && WrittenThrough(old(inner), old(pending), inner, pending)
      ensures AllDrained(old(inner), old(pending), old(unflushed), inner, pending, unflushed)
      ensures ok ==> count < maxCount && (count == 0 || (firstDirty.Some? && now - firstDirty.value < maxInterval))
      ensures !ok ==> pending != map[] && count == old(count) + 1
      ensures if Due(old(count), old(firstDirty), now) then ok <==> AllSucceed(writes, |old(pending)|)
              else ok && inner == old(inner) && pending == old(pending) && unflushed == old(unflushed)
      ensures ok && Due(old(count), old(firstDirty), now) ==> pending == map[]
    {
      if firstDirty.None? {
        firstDirty := Some(now);
      }
      count := count + 1;
      ok := true;
      if count >= maxCount || now - firstDirty.value >= maxInterval {
        ok := FlushPending(writes);
      }
    }

    /** Trigger, as the ports of the projections see it: a save of this one, at most a flush of any other. */
    method Settle(k: Key, position: nat, now: int, writes: nat -> Write, ghost port: P.Port) returns (ok: bool)
      requires Valid() && PortAt(k) == port.(pending := Some(P.Held(port, position)))
      modifies this`inner, this`pending, this`unflushed, this`count, this`firstDirty
      ensures Valid() && WrittenThrough(old(inner), old(pending), inner, pending)
      ensures SavedAs(port, PortAt(k), position, ok) && forall j: Key | j != k :: Drained(old(PortAt(j)), PortAt(j))
      ensures ok ==> count < maxCount && (count == 0 || (firstDirty.Some? && now - firstDirty.value < maxInterval))
      ensures !ok ==> pending != map[] && count == old(count) + 1
      ensures if Due(old(count), old(firstDirty), now) then ok <==> AllSucceed(writes, |old(pending)|)
              else ok && inner == old(inner) && pending == old(pending)
    {
      ok := Trigger(now, writes);
      assert Drained(old(PortAt(k)), PortAt(k));
      BufferedSaveIsASave(port, position, PortAt(k), ok);
      if ok && k in pending {
        unflushed := unflushed[k := At(unflushed, k) + 1];
      }
    }

    /** A save moves only its own projection, and only up from what is pending. After a nil return fewer
        than maxCount saves wait, except after a save of zero with nothing pending, which does nothing. */
    method Save(k: Key, position: nat, now: int, writes: nat -> Write) returns (ok: bool)
      requires Valid()
      modifies this
      ensures Valid()
      ensures highest == Raised(old(highest), k, position)
      ensures ascending == (old(ascending) && position >= At(old(highest), k))
      ensures WrittenThrough(old(inner), Buffer(old(pending), k, position), inner, pending)
      ensures !ok ==> pending != map[] && count == old(count) + 1
      ensures position == 0 && k !in old(pending) ==>
                ok && inner == old(inner) && pending == old(pending) && count == old(count)
                  && firstDirty == old(firstDirty)
      ensures position > 0 || k in old(pending) ==>
                if Due(old(count), old(firstDirty), now)
                then ok <==> AllSucceed(writes, |Buffer(old(pending), k, position)|)
                else ok && inner == old(inner) && pending == Buffer(old(pending), k, position)
      ensures ok ==> (count < maxCount <==> !(position == 0 && k !in old(pending) && old(count) >= maxCount))
      ensures ok && count > 0 && (position > 0 || k in old(pending)) ==>
                firstDirty.Some? && now - firstDirty.value < maxInterval
      ensures forall j: Key | j != k :: Drained(old(PortAt(j)), PortAt(j))
      ensures if position == 0 && k !in old(pending) then PortAt(k) == old(PortAt(k))
              else SavedAs(old(PortAt(k)), PortAt(k), position, ok)
    {
      ghost var port := PortAt(k);
      ascending := ascending && position >= At(highest, k);
      if ascending {
        SoundAfterSave(inner, pending, highest, k, position);
      }
      highest := Raised(highest, k, position);
      if position == 0 && k !in pending {
        return true;
      }
      pending := Buffer(pending, k, position);
      assert PortAt(k) == port.(pending := Some(P.Held(port, position)));
      ok := Settle(k, position, now, writes, port);
    }

    /** Load flushes first, then reads; when both succeed it returns what a reader saw before, so never
        less than the highest position saved. */
    method Load(k: Key, loads: bool, writes: nat -> Write) returns (r: Option<nat>)
      requires Valid()
      modifies this`inner, this`pending, this`unflushed, this`count, this`firstDirty
      ensures Valid() && WrittenThrough(old(inner), old(pending), inner, pending)
      ensures AllDrained(old(inner), old(pending), old(unflushed), inner, pending, unflushed)
      ensures r.Some? <==> loads && AllSucceed(writes, |old(pending)|)
      ensures AllSucceed(writes, |old(pending)|) <==> pending == map[]
      ensures r.Some? ==> r.value == old(Seen(inner, pending, k)) && count == 0
      ensures r.Some? && ascending && k in highest ==> r.value >= highest[k]
    {
      var waiting := At(pending, k);
      var flushed := FlushPending(writes);
      if !flushed || !loads {
        return None;
      }
      var got := At(inner, k);
      assert Seen(inner, pending, k) == old(Seen(inner, pending, k));
      r := Some(if waiting > got then waiting else got);
    }

    /** Flush: everything pending is persisted, or the failure is reported and what is left stays pending. */
    method Flush(writes: nat -> Write) returns (ok: bool)
      requires Valid()
      modifies this`inner, this`pending, this`unflushed, this`count, this`firstDirty
      ensures Valid() && WrittenThrough(old(inner), old(pending), inner, pending) && ok == (pending == map[])
      ensures AllDrained(old(inner), old(pending), old(unflushed), inner, pending, unflushed)
      ensures ok <==> AllSucceed(writes, |old(pending)|)
      ensures ok ==> forall k :: At(inner, k) == old(Seen(inner, pending, k))
    {
      ok := FlushPending(writes);
      if ok {
        forall k
          ensures At(inner, k) == old(Seen(inner, pending, k))
        {
          assert Seen(inner, pending, k) == old(Seen(inner, pending, k));
        }
      }
    }
  }

  /** With saves that never go back, the larger of the persisted and pending positions is never below the
      highest one saved; and it is more than a reader is told only if an earlier process got further. */
  lemma FurthestCoversHighest(inner: map<Key, nat>, pending: map<Key, nat>, highest: map<Key, nat>, k: Key)
    requires Sound(inner, pending, highest)
    ensures At(highest, k) <= Seen(inner, pending, k) <= Furthest(inner, pending, k)
    ensures Seen(inner, pending, k) < Furthest(inner, pending, k) ==>
              k in pending && pending[k] == highest[k] < At(inner, k)
  {
  }

  /** A marker nothing was saved to, over an empty inner one. */
  ghost predicate Untouched(m: BufferedMarker)
    reads m
  {
    && m.Valid() && m.inner == map[] && m.pending == map[] && m.count == 0 && m.firstDirty == None
    && m.highest == map[] && m.ascending
  }

  /** The rewind is real: 10 is saved and flushed, 5 is saved, and the next load returns 5. */
  method RewindAfterFlush(m: BufferedMarker) returns (saved: bool, flushed: bool, lower: bool, loaded: Option<nat>)
    requires Untouched(m)
    modifies m
    ensures m.Valid() && m.highest == map["p" := 10] && !m.ascending && m.pending == map[]
    ensures saved && flushed && lower && loaded == Some(5)
  {
    var works: nat -> Write := _ => Succeeds;
    saved := m.Save("p", 10, 0, works);
    flushed := m.Flush(works);
    assert Seen(m.inner, m.pending, "p") == 10;
    lower := m.Save("p", 5, 0, works);
    assert Seen(m.inner, m.pending, "p") == 5;
    loaded := m.Load("p", true, works);
  }

  /** So is the exception to the count: with a window of one save, a failed write leaves one waiting, and
      a save of zero for another projection then returns nil all the same. */
  method ZeroSaveOverAFullWindow(m: BufferedMarker) returns (saved: bool, zero: bool)
    requires Untouched(m) && m.maxCount == 1
    modifies m
    ensures m.Valid() && m.highest == map["a" := 5, "b" := 0] && m.pending == map["a" := 5]
    ensures !saved && zero && m.count == 1
  {
    var fails: nat -> Write := _ => Fails(false);
    ghost var buffered := Buffer(map[], "a", 5);
    assert buffered == map["a" := 5] && |buffered| == 1;
    assert !AllSucceed(fails, 1) by {
      assert fails(0).Fails?;
    }
    saved := m.Save("a", 5, 0, fails);
    assert !saved && m.count == 1 && "b" !in m.pending;
    zero := m.Save("b", 0, 0, fails);
  }
}
