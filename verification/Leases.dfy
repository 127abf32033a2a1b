/** The feed's checkpoint and lease stores (postgres/feed.go, sqlite/feed.go) and the server's renewal schedule
    (feed/server.go). Expiry is an absolute instant on the one clock the store reads. */
module Leases {
  import opened Wrappers

  /** (scope, projection, instance). */
  datatype Key = Key(scope: string, projection: string, instance: string)

  // ---------------------------------------------------------------- checkpoints

  datatype Checkpoint = Checkpoint(position: nat, definition: string)

  /** The upsert's definition column: an empty fingerprint preserves the stored one. */
  function KeptDefinition(row: Option<Checkpoint>, definition: string): string {
    if definition == "" && row.Some? then row.value.definition else definition
  }

  function Saved(row: Option<Checkpoint>, definition: string, position: nat): Checkpoint {
    var p := if row.Some? then Larger(row.value.position, position) else position;
    Checkpoint(p, KeptDefinition(row, definition))
  }

  function Reset(row: Option<Checkpoint>, definition: string, position: nat): Checkpoint {
    Checkpoint(position, KeptDefinition(row, definition))
  }

  /** In whatever order two saves land, the position is the highest of what was there and both; the rows
      are the same altogether exactly when the fingerprints do not compete, being equal or one of them empty. */
  lemma SavesCommute(row: Option<Checkpoint>, d: string, p: nat, e: string, q: nat)
    ensures var pq, qp := Saved(Some(Saved(row, d, p)), e, q), Saved(Some(Saved(row, e, q)), d, p);
            && pq.position == qp.position == Larger(if row.Some? then Larger(row.value.position, p) else p, q)
            && (pq == qp <==> d == e || d == "" || e == "")
  {
  }

  class CheckpointStore {
    var rows: map<Key, Checkpoint>

    constructor ()
      ensures rows == map[]
    {
      rows := map[];
    }

    method Save(key: Key, definition: string, position: nat)
      modifies this
      ensures rows == old(rows)[key := Saved(old(Lookup(key)), definition, position)]
    {
      if key in rows {
        var stored := rows[key];
        var hash := if definition == "" then stored.definition else definition;
        rows := rows[key := Checkpoint(if stored.position < position then position else stored.position, hash)];
      } else {
        rows := rows[key := Checkpoint(position, definition)];
      }
    }

    method ResetTo(key: Key, definition: string, position: nat)
      modifies this
      ensures rows == old(rows)[key := Reset(old(Lookup(key)), definition, position)]
    {
      var hash := if key in rows && definition == "" then rows[key].definition else definition;
      rows := rows[key := Checkpoint(position, hash)];
    }

    method Delete(key: Key)
      modifies this
      ensures rows == old(rows) - {key}
    {
      rows := rows - {key};
    }

    function Lookup(key: Key): Option<Checkpoint>
      reads this
    {
      if key in rows then Some(rows[key]) else None
    }
  }

  // ---------------------------------------------------------------- leases

  datatype Lease = Lease(owner: string, consumer: string, expires: nat)

  /** Acquire wins when the key is free, already this owner's, or expired. */
  predicate CanAcquire(row: Option<Lease>, now: nat, owner: string) {
    row.None? || row.value.owner == owner || row.value.expires <= now
  }

  /** Renew extends the owner's row, expired or not. */
  predicate CanRenew(row: Option<Lease>, owner: string) {
    row.Some? && row.value.owner == owner
  }

  /** Holder reports unexpired rows only. */
  predicate Holds(row: Option<Lease>, now: nat, owner: string) {
    row.Some? && row.value.expires > now && row.value.owner == owner
  }

  class LeaseStore {
    var rows: map<Key, Lease>
    var now: nat

    constructor ()
      ensures rows == map[] && now == 0
    {
      rows, now := map[], 0;
    }

    function Lookup(key: Key): Option<Lease>
      reads this
    {
      if key in rows then Some(rows[key]) else None
    }

    method Acquire(key: Key, owner: string, consumer: string, ttl: nat) returns (acquired: bool)
      modifies this
      ensures now == old(now)
      ensures acquired == CanAcquire(old(Lookup(key)), now, owner)
      ensures acquired ==> rows == old(rows)[key := Lease(owner, consumer, now + ttl)]
      ensures acquired && ttl > 0 ==> Holds(Lookup(key), now, owner)
      ensures !acquired ==> rows == old(rows)
    {
      if key in rows && rows[key].owner != owner && rows[key].expires > now {
        return false;
      }
      rows := rows[key := Lease(owner, consumer, now + ttl)];
      acquired := true;
    }

    method Renew(key: Key, owner: string, ttl: nat) returns (renewed: bool)
      modifies this
      ensures now == old(now)
      ensures renewed == CanRenew(old(Lookup(key)), owner)
      ensures rows == if renewed then old(rows)[key := old(rows[key]).(expires := now + ttl)] else old(rows)
    {
      renewed := key in rows && rows[key].owner == owner;
      if renewed {
        rows := rows[key := rows[key].(expires := now + ttl)];
      }
    }

    method Release(key: Key, owner: string)
      modifies this
      ensures now == old(now)
      ensures rows == if CanRenew(old(Lookup(key)), owner) then old(rows) - {key} else old(rows)
    {
      if key in rows && rows[key].owner == owner {
        rows := rows - {key};
      }
    }

    method Holder(key: Key) returns (lease: Option<Lease>)
      ensures forall owner :: (lease.Some? && lease.value.owner == owner) <==> Holds(Lookup(key), now, owner)
      ensures lease.Some? ==> lease == Lookup(key)
    {
      if key in rows && rows[key].expires > now {
        lease := Some(rows[key]);
      } else {
        lease := None;
      }
    }
  }

  // ---------------------------------------------------------------- one key over time

  datatype State = State(lease: Option<Lease>, now: nat)

  datatype Step =
    | Tick(d: nat)
    | AcquireBy(owner: string, consumer: string)
    | RenewBy(owner: string)
    | ReleaseBy(owner: string)
    | Fire(owner: string)

  /** Fire is the renewal ticker; it changes nothing by itself. */
  function Next(s: State, step: Step, ttl: nat): State {
    match step
    case Tick(d) => s.(now := s.now + d)
    case AcquireBy(o, c) => if CanAcquire(s.lease, s.now, o) then s.(lease := Some(Lease(o, c, s.now + ttl))) else s
    case RenewBy(o) => if CanRenew(s.lease, o) then s.(lease := Some(s.lease.value.(expires := s.now + ttl))) else s
    case ReleaseBy(o) => if CanRenew(s.lease, o) then s.(lease := None) else s
    case Fire(_) => s
  }

  function Run(s: State, steps: seq<Step>, ttl: nat): State {
    if steps == [] then s else Next(Run(s, steps[..|steps| - 1], ttl), steps[|steps| - 1], ttl)
  }

  /** When owner's latest renewal in the run completed; `last` if none did. */
  function LastRenewal(s: State, owner: string, last: nat, steps: seq<Step>, ttl: nat): nat {
    if steps == [] then last
    else if steps[|steps| - 1] == RenewBy(owner) then Run(s, steps, ttl).now
    else LastRenewal(s, owner, last, steps[..|steps| - 1], ttl)
  }

  /** Renewals complete on schedule: no instant of the run is `gap` or more past the latest one. */
  ghost predicate OnSchedule(s: State, owner: string, last: nat, steps: seq<Step>, ttl: nat, gap: nat) {
    forall k | 0 <= k <= |steps| ::
      Run(s, steps[..k], ttl).now < LastRenewal(s, owner, last, steps[..k], ttl) + gap
  }

  ghost predicate HeldThroughout(s: State, owner: string, steps: seq<Step>, ttl: nat) {
    forall k | 0 <= k <= |steps| :: Holds(Run(s, steps[..k], ttl).lease, Run(s, steps[..k], ttl).now, owner)
  }

  ghost predicate NeverReleased(owner: string, steps: seq<Step>) {
    forall k | 0 <= k < |steps| :: steps[k] != ReleaseBy(owner)
  }

  lemma {:induction false} OnScheduleStays(s: State, owner: string, last: nat, steps: seq<Step>, ttl: nat)
    requires CanRenew(s.lease, owner) && s.lease.value.expires >= last + ttl && last <= s.now
    requires OnSchedule(s, owner, last, steps, ttl, ttl)
    requires NeverReleased(owner, steps)
    ensures CanRenew(Run(s, steps, ttl).lease, owner)
    ensures Run(s, steps, ttl).lease.value.expires >= LastRenewal(s, owner, last, steps, ttl) + ttl
    ensures LastRenewal(s, owner, last, steps, ttl) <= Run(s, steps, ttl).now
            < LastRenewal(s, owner, last, steps, ttl) + ttl
  {
    assert steps[..|steps|] == steps;
    if steps != [] {
      var n := |steps| - 1;
      var init := steps[..n];
      forall k | 0 <= k <= |init|
        ensures Run(s, init[..k], ttl).now < LastRenewal(s, owner, last, init[..k], ttl) + ttl
      {
        assert init[..k] == steps[..k];
      }
      OnScheduleStays(s, owner, last, init, ttl);
    }
  }

  /** A stream whose renewals complete on schedule keeps its lease at every instant exactly as
      long as nobody releases the key under its own token. No foreign owner can take it over;
      a release that a same-owner stream sends late can drop it. */
  lemma OnScheduleHoldsExactlyWhen(s: State, owner: string, last: nat, steps: seq<Step>, ttl: nat)
    requires CanRenew(s.lease, owner) && s.lease.value.expires >= last + ttl && last <= s.now
    requires OnSchedule(s, owner, last, steps, ttl, ttl)
    ensures HeldThroughout(s, owner, steps, ttl) <==> NeverReleased(owner, steps)
  {
    if NeverReleased(owner, steps) {
      forall k | 0 <= k <= |steps|
        ensures Holds(Run(s, steps[..k], ttl).lease, Run(s, steps[..k], ttl).now, owner)
      {
        forall j | 0 <= j <= k
          ensures Run(s, steps[..k][..j], ttl).now < LastRenewal(s, owner, last, steps[..k][..j], ttl) + ttl
        {
          assert steps[..k][..j] == steps[..j];
        }
        OnScheduleStays(s, owner, last, steps[..k], ttl);
      }
    }
    if k :| 0 <= k < |steps| && steps[k] == ReleaseBy(owner) {
      assert steps[..k + 1][..k] == steps[..k];
      assert Run(s, steps[..k + 1], ttl) == Next(Run(s, steps[..k], ttl), ReleaseBy(owner), ttl);
      assert !Holds(Run(s, steps[..k + 1], ttl).lease, Run(s, steps[..k + 1], ttl).now, owner);
    }
  }

  /** The same-owner release is real: a stream that was replaced by a reconnect under the same
      token releases the key when it finally ends; the live stream, renewed an instant ago, is
      then unfenced and a foreign owner takes the key. */
  lemma LateReleaseUnfencesTheLiveStream()
    ensures var s := State(Some(Lease("feed", "old", 30)), 0);
            var steps := [Tick(5), AcquireBy("feed", "new"), RenewBy("feed"), ReleaseBy("feed"),
                          AcquireBy("other", "c")];
            && OnSchedule(s, "feed", 0, steps, 30, 30)
            && Holds(Run(s, steps, 30).lease, Run(s, steps, 30).now, "other")
  {
    var s := State(Some(Lease("feed", "old", 30)), 0);
    var steps := [Tick(5), AcquireBy("feed", "new"), RenewBy("feed"), ReleaseBy("feed"), AcquireBy("other", "c")];
    var s1 := Next(s, steps[0], 30);
    var s2 := Next(s1, steps[1], 30);
    var s3 := Next(s2, steps[2], 30);
    var s4 := Next(s3, steps[3], 30);
    assert steps[..1][..0] == steps[..0] && steps[..2][..1] == steps[..1] && steps[..3][..2] == steps[..2];
    assert steps[..4][..3] == steps[..3] && steps[..5][..4] == steps[..4] && steps[..5] == steps;
    assert Run(s, steps[..0], 30) == s && Run(s, steps[..1], 30) == s1 && Run(s, steps[..2], 30) == s2;
    assert Run(s, steps[..3], 30) == s3 && Run(s, steps[..4], 30) == s4 && Run(s, steps, 30) == Next(s4, steps[4], 30);
    forall k | 0 <= k <= |steps|
      ensures Run(s, steps[..k], 30).now < LastRenewal(s, "feed", 0, steps[..k], 30) + 30
    {
      assert k == 0 || k == 1 || k == 2 || k == 3 || k == 4 || k == 5;
    }
  }

  /** After a takeover the old owner is fenced out for good: until it acquires again, each of its
      renewals fails and no holder check of its acknowledgements passes, at any later time. */
  lemma {:induction false} LostStaysLost(s: State, owner: string, steps: seq<Step>, ttl: nat)
    requires !CanRenew(s.lease, owner)
    requires forall k | 0 <= k < |steps| :: !(steps[k].AcquireBy? && steps[k].owner == owner)
    ensures !CanRenew(Run(s, steps, ttl).lease, owner)
    ensures !Holds(Run(s, steps, ttl).lease, Run(s, steps, ttl).now, owner)
  {
    if steps != [] {
      LostStaysLost(s, owner, steps[..|steps| - 1], ttl);
    }
  }

  // ---------------------------------------------------------------- the renewal interval

  const DEFAULT_TTL := 30_000_000_000
  const DEFAULT_EVERY := 10_000_000_000

  /** NewServer's normalisation of LeaseTTL and RenewEvery (nanoseconds). It fails only for a
      lifetime of one nanosecond; otherwise a renewal always falls due before expiry, and an
      interval that already did is kept. */
  function NormaliseIntervals(leaseTtl: int, renewEvery: int): (r: Result<(nat, nat), string>)
    ensures r.Err? <==> leaseTtl == 1
    ensures r.Ok? ==> 0 < r.value.1 < r.value.0
    ensures r.Ok? && leaseTtl > 0 ==> r.value.0 == leaseTtl
    ensures r.Ok? && 0 < renewEvery < leaseTtl ==> r.value.1 == renewEvery
    ensures r.Ok? && leaseTtl <= 0 ==> r.value.0 == DEFAULT_TTL
  {
    var ttl := if leaseTtl <= 0 then DEFAULT_TTL else leaseTtl;
    var every := if renewEvery <= 0 then DEFAULT_EVERY else renewEvery;
    if every < ttl then Ok((ttl, every))
    else
      var third := ttl / 3;
      var derived := if third <= 0 then ttl / 2 else third;
      if derived <= 0 then Err("too small to renew safely") else Ok((ttl, derived))
  }

  /** The renewal loop: it waits for the ticker, then has a renewal in flight until it completes. */
  datatype Renewal = Waiting(since: nat) | InFlight(since: nat)

  function RenewalAt(s: State, owner: string, last: nat, steps: seq<Step>, ttl: nat): Renewal {
    if steps == [] then Waiting(last)
    else
      var before := RenewalAt(s, owner, last, steps[..|steps| - 1], ttl);
      var now := Run(s, steps, ttl).now;
      if steps[|steps| - 1] == Fire(owner) then InFlight(now)
      else if steps[|steps| - 1] == RenewBy(owner) then Waiting(now)
      else before
  }

  /** The ticker fires within `every` of the last completion, and a renewal completes within `latency`. */
  predicate InTime(r: Renewal, now: nat, every: nat, latency: nat) {
    match r
    case Waiting(t) => now <= t + every
    case InFlight(t) => now <= t + latency
  }

  /** ... at every instant of the run; the ticker is not looked at while a renewal is in flight. */
  ghost predicate Ticking(s: State, owner: string, last: nat, steps: seq<Step>, ttl: nat, every: nat, latency: nat) {
    if steps == [] then InTime(Waiting(last), s.now, every, latency)
    else
      var init := steps[..|steps| - 1];
      && Ticking(s, owner, last, init, ttl, every, latency)
      && (steps[|steps| - 1] == Fire(owner) ==> RenewalAt(s, owner, last, init, ttl).Waiting?)
      && InTime(RenewalAt(s, owner, last, steps, ttl), Run(s, steps, ttl).now, every, latency)
  }

  lemma {:induction false} TickingBounds(s: State, owner: string, last: nat, steps: seq<Step>, ttl: nat, every: nat,
                                         latency: nat)
    requires Ticking(s, owner, last, steps, ttl, every, latency)
    ensures var r, done := RenewalAt(s, owner, last, steps, ttl), LastRenewal(s, owner, last, steps, ttl);
            && (r.Waiting? ==> r.since == done) && (r.InFlight? ==> r.since <= done + every)
            && Run(s, steps, ttl).now <= done + every + latency
  {
    if steps != [] {
      TickingBounds(s, owner, last, steps[..|steps| - 1], ttl, every, latency);
    }
  }

  lemma {:induction false} TickingPrefix(s: State, owner: string, last: nat, steps: seq<Step>, ttl: nat, every: nat,
                                         latency: nat, k: nat)
    requires Ticking(s, owner, last, steps, ttl, every, latency) && k <= |steps|
    ensures Ticking(s, owner, last, steps[..k], ttl, every, latency)
  {
    if k < |steps| {
      TickingPrefix(s, owner, last, steps[..|steps| - 1], ttl, every, latency, k);
      assert steps[..|steps| - 1][..k] == steps[..k];
    } else {
      assert steps[..k] == steps;
    }
  }

  /** Renewals are on schedule when the interval and the time one takes fit into the lifetime together. */
  lemma TickingIsOnSchedule(s: State, owner: string, last: nat, steps: seq<Step>, ttl: nat, every: nat, latency: nat)
    requires Ticking(s, owner, last, steps, ttl, every, latency) && every + latency < ttl
    ensures OnSchedule(s, owner, last, steps, ttl, ttl)
  {
    forall k | 0 <= k <= |steps|
      ensures Run(s, steps[..k], ttl).now < LastRenewal(s, owner, last, steps[..k], ttl) + ttl
    {
      TickingPrefix(s, owner, last, steps, ttl, every, latency, k);
      TickingBounds(s, owner, last, steps[..k], ttl, every, latency);
    }
  }

  /** A stream that has just acquired, and the slowest renewal the ticker and the latency allow. */
  function Acquired(owner: string, ttl: nat): State {
    State(Some(Lease(owner, "", ttl)), 0)
  }

  function Slowest(owner: string, every: nat, latency: nat): seq<Step> {
    [Tick(every), Fire(owner), Tick(latency)]
  }

  /** Every run of the ticker keeps the lease, as long as nobody releases it, exactly when the interval and
      the latency fit into the lifetime together. */
  ghost predicate AlwaysHeld(owner: string, ttl: nat, every: nat, latency: nat) {
    forall steps | Ticking(Acquired(owner, ttl), owner, 0, steps, ttl, every, latency) && NeverReleased(owner, steps) ::
      HeldThroughout(Acquired(owner, ttl), owner, steps, ttl)
  }

  lemma AlwaysHeldExactlyWhen(owner: string, ttl: nat, every: nat, latency: nat)
    ensures AlwaysHeld(owner, ttl, every, latency) <==> every + latency < ttl
  {
    var s := Acquired(owner, ttl);
    if every + latency < ttl {
      forall steps | Ticking(s, owner, 0, steps, ttl, every, latency) && NeverReleased(owner, steps)
        ensures HeldThroughout(s, owner, steps, ttl)
      {
        TickingIsOnSchedule(s, owner, 0, steps, ttl, every, latency);
        OnScheduleHoldsExactlyWhen(s, owner, 0, steps, ttl);
      }
    } else {
      SlowestLapses(owner, ttl, every, latency);
    }
  }

  lemma SlowestLapses(owner: string, ttl: nat, every: nat, latency: nat)
    requires every + latency >= ttl
    ensures var s, steps := Acquired(owner, ttl), Slowest(owner, every, latency);
            && Ticking(s, owner, 0, steps, ttl, every, latency) && NeverReleased(owner, steps)
            && !HeldThroughout(s, owner, steps, ttl)
  {
    var s, steps := Acquired(owner, ttl), Slowest(owner, every, latency);
    assert steps[..1] == [Tick(every)] && steps[..2] == [Tick(every), Fire(owner)] && steps[..3] == steps;
    assert steps[..1][..0] == [] && steps[..2][..1] == steps[..1] && steps[..3][..2] == steps[..2];
    assert Run(s, steps[..1], ttl) == s.(now := every);
    assert Run(s, steps[..2], ttl) == s.(now := every);
    assert Run(s, steps[..3], ttl) == s.(now := every + latency);
    assert RenewalAt(s, owner, 0, steps[..1], ttl) == Waiting(0);
    assert RenewalAt(s, owner, 0, steps[..2], ttl) == InFlight(every);
    assert Ticking(s, owner, 0, steps[..1], ttl, every, latency);
    assert Ticking(s, owner, 0, steps[..2], ttl, every, latency);
  }

  /** Postgres keeps a lifetime in whole microseconds. */
  function InMicroseconds(ttl: nat): nat {
    ttl / 1000 * 1000
  }

  /** NewServer accepts a lifetime of 1500 ns renewed every 1200 ns. On Postgres that lease lapses even if
      renewals take no time at all; with the lifetime as configured it would not. */
  lemma SubMicrosecondLifetimeLapses()
    ensures NormaliseIntervals(1500, 1200) == Ok((1500, 1200))
    ensures AlwaysHeld("a", 1500, 1200, 0) && !AlwaysHeld("a", InMicroseconds(1500), 1200, 0)
  {
    AlwaysHeldExactlyWhen("a", 1500, 1200, 0);
    AlwaysHeldExactlyWhen("a", InMicroseconds(1500), 1200, 0);
  }
}
