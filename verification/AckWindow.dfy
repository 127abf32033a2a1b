/** The consumer adapter's attempt (eventfeed/eventfeed.go) and the server call it acknowledges through
    (feed/server.go), as the code runs them: two fields under a mutex, and the two stores. Whatever an
    attempt does is a run of the delivery protocol, and the stores hold what that run says. */
module AckWindow {
  import opened Wrappers
  import opened EventLog
  import F = FeedDelivery
  import L = Leases

  datatype AckError = LeaseLost | LeaseHeld(holder: string)

  /** Send gives up when its context ends before the handler succeeded, or when its acknowledgement fails. */
  datatype SendError = ContextEnded | AckFailed(error: AckError)

  /** What the stores hold at some instant. */
  datatype Stores = Stores(leases: map<L.Key, L.Lease>, now: nat, checkpoints: map<L.Key, L.Checkpoint>)

  /** For this key, the stores hold what the protocol's state says. */
  ghost predicate Matches(s: Stores, key: L.Key, w: F.World) {
    && w.lease == L.State(if key in s.leases then Some(s.leases[key]) else None, s.now)
    && w.cp == if key in s.checkpoints then Some(s.checkpoints[key].position) else None
  }

  class Server {
    const leases: L.LeaseStore
    const checkpoints: L.CheckpointStore

    constructor (leases: L.LeaseStore, checkpoints: L.CheckpointStore)
      ensures this.leases == leases && this.checkpoints == checkpoints
    {
      this.leases := leases;
      this.checkpoints := checkpoints;
    }

    function Holding(): Stores
      reads leases, checkpoints
    {
      Stores(leases.rows, leases.now, checkpoints.rows)
    }

    /** Server.Checkpoint. The holder check decides; meanwhile is whatever the stores have become by the
        time the save runs, which no longer matters. A rejected ack leaves the checkpoint to others. */
    method Checkpoint(key: L.Key, owner: string, definition: string, position: nat, meanwhile: Stores)
      returns (r: Result<nat, AckError>)
      modifies leases, checkpoints
      ensures r.Ok? <==> L.Holds(old(leases.Lookup(key)), old(leases.now), owner)
      ensures r.Ok? ==> r.value == position
      ensures r.Err? ==> Holding() == meanwhile
      ensures r.Err? && r.error.LeaseHeld? ==>
                L.Holds(old(leases.Lookup(key)), old(leases.now), r.error.holder) && r.error.holder != owner
      ensures r.Ok? ==> Holding() == meanwhile.(checkpoints := Saved(meanwhile.checkpoints, key, definition, position))
    {
      var holder := leases.Holder(key);
      assert holder.Some? && holder.value.owner == owner <==> L.Holds(leases.Lookup(key), leases.now, owner);
      leases.rows, leases.now, checkpoints.rows := meanwhile.leases, meanwhile.now, meanwhile.checkpoints;
      if holder.None? {
        return Err(LeaseLost);
      }
      if holder.value.owner != owner {
        return Err(LeaseHeld(holder.value.owner));
      }
      checkpoints.Save(key, definition, position);
      r := Ok(position);
    }
  }

  function Saved(rows: map<L.Key, L.Checkpoint>, key: L.Key, definition: string,
                 position: nat): map<L.Key, L.Checkpoint> {
    rows[key := L.Saved(if key in rows then Some(rows[key]) else None, definition, position)]
  }

  // ---------------------------------------------------------------- steps in between

  /** Everything may run meanwhile, this attempt's own tick, renewal and end too, except the acknowledgement
      of window k itself. */
  ghost predicate Leaves(steps: seq<F.Step>, a: nat, k: nat) {
    forall i | 0 <= i < |steps| :: steps[i] != F.CheckHolder(a, k) && steps[i] != F.SaveAck(a, k)
  }

  lemma OneStepLeaves(c: F.Config, w: F.World, step: F.Step, a: nat, k: nat)
    requires a in w.attempts && k < |w.attempts[a].windows| && step != F.CheckHolder(a, k) && step != F.SaveAck(a, k)
    ensures var w' := F.Next(c, w, step);
            && a in w'.attempts && w'.attempts[a].owner == w.attempts[a].owner
            && k < |w'.attempts[a].windows| && w'.attempts[a].windows[k] == w.attempts[a].windows[k]
  {
  }

  lemma {:induction false} WindowStays(c: F.Config, w: F.World, steps: seq<F.Step>, a: nat, k: nat)
    requires a in w.attempts && k < |w.attempts[a].windows| && Leaves(steps, a, k)
    ensures var w' := F.Run(c, w, steps);
            && a in w'.attempts && w'.attempts[a].owner == w.attempts[a].owner
            && k < |w'.attempts[a].windows| && w'.attempts[a].windows[k] == w.attempts[a].windows[k]
  {
    if steps != [] {
      WindowStays(c, w, steps[..|steps| - 1], a, k);
      OneStepLeaves(c, F.Run(c, w, steps[..|steps| - 1]), steps[|steps| - 1], a, k);
    }
  }

  lemma {:induction false} AttemptStays(c: F.Config, w: F.World, steps: seq<F.Step>, a: nat)
    requires a in w.attempts
    ensures a in F.Run(c, w, steps).attempts && F.Run(c, w, steps).attempts[a].owner == w.attempts[a].owner
  {
    if steps != [] {
      AttemptStays(c, w, steps[..|steps| - 1], a);
    }
  }

  /** While Send has an envelope, the stream itself stands still: of this attempt only the tick loop, the
      renewal and the end run. */
  ghost predicate BesidesSend(steps: seq<F.Step>, a: nat) {
    forall i | 0 <= i < |steps| :: F.OfAttempt(steps[i]) && steps[i].a == a ==> GoesOn(steps[i])
  }

  predicate GoesOn(step: F.Step) {
    step.ClaimTick? || step.CheckHolder? || step.SaveAck? || step.Renew? || step.End? || step.Release?
  }

  lemma WindowWaitsOneStep(c: F.Config, w: F.World, step: F.Step, a: nat)
    requires a in w.attempts && w.attempts[a].pageAck.None? && (F.OfAttempt(step) && step.a == a ==> GoesOn(step))
    ensures a in F.Next(c, w, step).attempts && Waits(w.attempts[a], F.Next(c, w, step).attempts[a])
  {
  }

  predicate Waits(t: F.Attempt, t': F.Attempt) {
    t'.pageAck.None? && (t'.count == t.count || t'.count == 0) && t'.pending == t.pending && t'.buf == t.buf
  }

  /** ... so the window it filled is still there in full, or a tick has claimed it. */
  lemma {:induction false} WindowWaits(c: F.Config, w: F.World, steps: seq<F.Step>, a: nat)
    requires a in w.attempts && w.attempts[a].pageAck.None? && BesidesSend(steps, a)
    ensures a in F.Run(c, w, steps).attempts && Waits(w.attempts[a], F.Run(c, w, steps).attempts[a])
  {
    if steps != [] {
      WindowWaits(c, w, steps[..|steps| - 1], a);
      WindowWaitsOneStep(c, F.Run(c, w, steps[..|steps| - 1]), steps[|steps| - 1], a);
    }
  }

  lemma RunOneMore(c: F.Config, w: F.World, steps: seq<F.Step>, step: F.Step)
    ensures F.Run(c, w, steps + [step]) == F.Next(c, F.Run(c, w, steps), step)
  {
    assert (steps + [step])[..|steps|] == steps;
  }

  /** The stream's own steps that touch neither store: resuming, heads, pages, its end, and the log's. */
  predicate OfStream(step: F.Step, a: nat) {
    step.Log? || ((step.LoadCheckpoint? || step.SeeHead? || step.SeeRawHead? || step.ReadPage? || step.End?)
                  && step.a == a)
  }

  lemma SubscribeEffect(c: F.Config, w: F.World, a: nat, owner: string, consumer: string)
    requires a !in w.attempts
    ensures var w' := F.Next(c, w, F.Subscribe(a, owner, consumer));
            && w'.cp == w.cp
            && if L.CanAcquire(w.lease.lease, w.lease.now, owner)
               then && w'.lease == L.State(Some(L.Lease(owner, consumer, w.lease.now + c.ttl)), w.lease.now)
                    && w'.attempts == w.attempts[a := NewAttempt(owner)]
               else w'.lease == w.lease && w'.attempts == w.attempts
  {
  }

  function NewAttempt(owner: string): F.Attempt {
    F.Attempt(owner, F.Acquired, 0, [], [], 0, 0, [], None, None, false)
  }

  /** The lease store after an acquire is what the protocol's subscription makes of it. */
  lemma AcquiredMatches(s: Stores, key: L.Key, w: F.World, w': F.World, ok: bool, lease: L.Lease)
    requires Matches(s, key, w) && w'.cp == w.cp
    requires w'.lease == if ok then L.State(Some(lease), w.lease.now) else w.lease
    ensures Matches(if ok then s.(leases := s.leases[key := lease]) else s, key, w')
  {
  }

  /** A window step changes its own attempt only, and the checkpoint only when a save lands. */
  lemma WindowEffect(c: F.Config, w: F.World, step: F.Step)
    requires F.OfWindow(step) && step.a in w.attempts
    ensures var w' := F.Next(c, w, step);
            && w'.lease == w.lease
            && w'.attempts == w.attempts[step.a := F.WindowNext(c, w, w.attempts[step.a], step)]
            && w'.cp == (if step.SaveAck? && F.CanSave(w.attempts[step.a], step.k)
                         then Some(Larger(F.Position(w.cp), w.attempts[step.a].windows[step.k].pos)) else w.cp)
  {
  }

  lemma StreamEffect(c: F.Config, w: F.World, step: F.Step, a: nat)
    requires OfStream(step, a) && a in w.attempts
    ensures var w' := F.Next(c, w, step);
            && w'.lease == w.lease && w'.cp == w.cp && a in w'.attempts
            && w'.attempts[a].owner == w.attempts[a].owner
            && w'.attempts[a].pending == w.attempts[a].pending && w'.attempts[a].count == w.attempts[a].count
  {
  }

  // ---------------------------------------------------------------- the attempt

  /** A full page claims inside Send; the tick and the stream's end claim from the loop. */
  function ClaimStep(a: nat, page: bool): F.Step {
    if page then F.ClaimPage(a) else F.ClaimTick(a)
  }

  /** Nobody else of the same kind waits for an acknowledgement; a page claim finds its full window, or none
      when a tick came first. */
  predicate MayClaim(c: F.Config, t: F.Attempt, page: bool) {
    if page then t.pageAck.None? && (t.count == 0 || c.window <= t.count) else t.tickAck.None?
  }

  /** What the stores and the attempt's two fields are at some instant. */
  datatype Scene = Scene(stores: Stores, pending: nat, count: nat)

  /** A stretch of time: what runs in it, and how it leaves things. */
  datatype Interval = Interval(steps: seq<F.Step>, scene: Scene)

  ghost predicate Passes(c: F.Config, w: F.World, i: Interval, key: L.Key, a: nat) {
    Shows(i.scene, key, a, F.Run(c, w, i.steps))
  }

  ghost predicate Shows(s: Scene, key: L.Key, a: nat, w: F.World) {
    && Matches(s.stores, key, w) && a in w.attempts
    && w.attempts[a].pending == s.pending && w.attempts[a].count == s.count
  }

  /** attempt: the position and the number of the events handled since the last claim. world is the
      protocol's state, trace the run that led there. */
  class Attempt {
    const c: F.Config
    const a: nat
    const owner: string
    const key: L.Key
    const definition: string
    const server: Server
    var pending: nat
    var count: nat
    ghost const start: F.World
    ghost var trace: seq<F.Step>
    ghost var world: F.World

    /** Between subscriptions. */
    ghost predicate Linked()
      reads this, server.leases, server.checkpoints
    {
      && F.Init(start) && world == F.Run(c, start, trace)
      && Matches(server.Holding(), key, world)
    }

    ghost predicate Valid()
      reads this, server.leases, server.checkpoints
    {
      && Linked() && a in world.attempts
      && world.attempts[a].owner == owner && world.attempts[a].pending == pending && world.attempts[a].count == count
    }

    constructor (c: F.Config, a: nat, owner: string, key: L.Key, definition: string, server: Server,
                 ghost start: F.World, ghost trace: seq<F.Step>)
      requires F.Init(start) && Matches(server.Holding(), key, F.Run(c, start, trace))
      requires a !in F.Run(c, start, trace).attempts
      ensures Linked() && a !in world.attempts && this.trace == trace && this.start == start
      ensures this.c == c && this.a == a && this.owner == owner && this.key == key && this.server == server
      ensures this.definition == definition && pending == 0 && count == 0
    {
      this.c, this.a, this.owner, this.key, this.definition, this.server := c, a, owner, key, definition, server;
      this.start, this.trace, this.world := start, trace, F.Run(c, start, trace);
      pending, count := 0, 0;
    }

    /** Server.Subscribe's acquire. */
    method Subscribe(consumer: string) returns (ok: bool)
      requires Linked() && a !in world.attempts && pending == 0 && count == 0
      modifies this, server.leases
      ensures Linked() && trace == old(trace) + [F.Subscribe(a, owner, consumer)]
      ensures ok <==> L.CanAcquire(old(server.leases.Lookup(key)), old(server.leases.now), owner)
      ensures ok ==> Valid() && world.attempts[a].phase == F.Acquired
      ensures !ok ==> a !in world.attempts && server.Holding() == old(server.Holding())
    {
      ghost var next := F.Next(c, world, F.Subscribe(a, owner, consumer));
      SubscribeEffect(c, world, a, owner, consumer);
      ok := server.leases.Acquire(key, owner, consumer, c.ttl);
      AcquiredMatches(old(server.Holding()), key, world, next, ok, L.Lease(owner, consumer, server.leases.now + c.ttl));
      RunOneMore(c, start, trace, F.Subscribe(a, owner, consumer));
      trace, world := trace + [F.Subscribe(a, owner, consumer)], next;
    }

    /** The server's stream goes on: it resumes, reads a page into its buffer, ends. */
    ghost method Stream(step: F.Step)
      requires Valid() && OfStream(step, a)
      modifies this`trace, this`world
      ensures Valid() && trace == old(trace) + [step] && world == F.Next(c, old(world), step)
    {
      StreamEffect(c, world, step, a);
      RunOneMore(c, start, trace, step);
      trace, world := trace + [step], F.Next(c, world, step);
    }

    /** Time passes: others and this attempt's own loops go on, and stores and fields become what that makes them. */
    method Meanwhile(i: Interval)
      requires Valid() && Passes(c, world, i, key, a)
      modifies this, server.leases, server.checkpoints
      ensures Valid() && trace == old(trace) + i.steps && world == F.Run(c, old(world), i.steps)
      ensures server.Holding() == i.scene.stores && pending == i.scene.pending && count == i.scene.count
    {
      AttemptStays(c, world, i.steps, a);
      F.RunConcat(c, start, trace, i.steps);
      server.leases.rows, server.leases.now := i.scene.stores.leases, i.scene.stores.now;
      server.checkpoints.rows := i.scene.stores.checkpoints;
      pending, count := i.scene.pending, i.scene.count;
      trace, world := trace + i.steps, F.Run(c, world, i.steps);
    }

    /** A handled event is accounted in the window; the result says whether that filled it. */
    method Account(env: Entry) returns (full: bool)
      requires Valid() && F.CanDeliver(c, world.attempts[a]) && world.attempts[a].buf[0] == env
      modifies this
      ensures Valid() && trace == old(trace) + [F.Deliver(a)] && world == F.Next(c, old(world), F.Deliver(a))
      ensures world.attempts[a] == F.DeliverTo(old(world.attempts[a])) && pending == env.pos && count == old(count) + 1
      ensures full <==> c.window <= count
    {
      WindowEffect(c, world, F.Deliver(a));
      RunOneMore(c, start, trace, F.Deliver(a));
      pending := env.pos;
      count := count + 1;
      full := c.window <= count;
      trace, world := trace + [F.Deliver(a)], F.Next(c, world, F.Deliver(a));
    }

    /** ack's critical section: claim the whole window atomically, if there is one. */
    method Claim(page: bool) returns (pos: Option<nat>)
      requires Valid() && MayClaim(c, world.attempts[a], page)
      modifies this
      ensures Valid()
      ensures pos.None? <==> old(count) == 0
      ensures pos.None? ==> trace == old(trace) && world == old(world)
      ensures pos.Some? ==>
                trace == old(trace) + [ClaimStep(a, page)] && world == F.Next(c, old(world), ClaimStep(a, page))
      ensures pos.Some? ==>
                && count == 0 && pos.value == old(pending)
                && |world.attempts[a].windows| == old(|world.attempts[a].windows|) + 1
      ensures pos.Some? ==>
                var t := world.attempts[a];
                t.windows[|t.windows| - 1].pos == old(pending) && t.windows[|t.windows| - 1].stage == F.Claimed
    {
      if count == 0 {
        return None;
      }
      WindowEffect(c, world, ClaimStep(a, page));
      RunOneMore(c, start, trace, ClaimStep(a, page));
      pos := Some(pending);
      count := 0;
      trace, world := trace + [ClaimStep(a, page)], F.Next(c, world, ClaimStep(a, page));
    }

    /** The acknowledgement of window k through Server.Checkpoint, with anything running between its check and
        its save. */
    method Confirm(ghost k: nat, position: nat, between: Interval) returns (r: Result<nat, AckError>)
      requires Valid() && IsClaimed(world.attempts[a], k, position) && Leaves(between.steps, a, k)
      requires Passes(c, F.Next(c, world, F.CheckHolder(a, k)), between, key, a)
      modifies this, server.leases, server.checkpoints
      ensures Valid() && pending == between.scene.pending && count == between.scene.count
      ensures trace == old(trace) + [F.CheckHolder(a, k)] + between.steps + [F.SaveAck(a, k)]
      ensures r.Ok? <==> L.Holds(old(world.lease.lease), old(world.lease.now), owner)
      ensures r.Ok? ==> r.value == position
      ensures Settled(world.attempts[a], k, r.Ok?)
    {
      r := server.Checkpoint(key, owner, definition, position, between.scene.stores);
      pending, count := between.scene.pending, between.scene.count;
      ghost var checked, steps := F.Next(c, world, F.CheckHolder(a, k)), between.steps;
      ghost var later := F.Run(c, checked, steps);
      ConfirmEffect(c, world, a, k, steps, position);
      SavedMatches(between.scene.stores, key, later, F.Next(c, later, F.SaveAck(a, k)), definition, position);
      RunOneMore(c, start, trace, F.CheckHolder(a, k));
      F.RunConcat(c, start, trace + [F.CheckHolder(a, k)], steps);
      RunOneMore(c, start, trace + [F.CheckHolder(a, k)] + steps, F.SaveAck(a, k));
      trace, world := trace + [F.CheckHolder(a, k)] + steps + [F.SaveAck(a, k)], F.Next(c, later, F.SaveAck(a, k));
    }

    /** The acknowledgement of window k some time after its claim. */
    method ConfirmLater(ghost k: nat, position: nat, before: Interval, between: Interval)
      returns (r: Result<nat, AckError>)
      requires Valid() && IsClaimed(world.attempts[a], k, position)
      requires Leaves(before.steps, a, k) && Leaves(between.steps, a, k) && Passes(c, world, before, key, a)
      requires Passes(c, F.Next(c, F.Run(c, world, before.steps), F.CheckHolder(a, k)), between, key, a)
      modifies this, server.leases, server.checkpoints
      ensures Valid() && pending == between.scene.pending && count == between.scene.count
      ensures trace == old(trace) + before.steps + [F.CheckHolder(a, k)] + between.steps + [F.SaveAck(a, k)]
      ensures var w := F.Run(c, old(world), before.steps); r.Ok? <==> L.Holds(w.lease.lease, w.lease.now, owner)
      ensures r.Ok? ==> r.value == position
      ensures Settled(world.attempts[a], k, r.Ok?)
    {
      WindowStays(c, world, before.steps, a, k);
      Meanwhile(before);
      r := Confirm(k, position, between);
    }

    /** ack: one fenced acknowledgement per claimed window, never beyond what was handled, with anything else
        running after the claim and again between the holder check and the save: the racing acks of a full
        page, a tick and the stream's end among it. */
    method Ack(page: bool, before: Interval, between: Interval) returns (r: Result<nat, AckError>)
      requires Valid() && MayClaim(c, world.attempts[a], page)
      requires count > 0 ==> Surroundings(c, world, a, page, key, before, between)
      modifies this, server.leases, server.checkpoints
      ensures Valid()
      ensures old(count) == 0 ==>
                r == Ok(0) && trace == old(trace) && world == old(world) && server.Holding() == old(server.Holding())
      ensures old(count) > 0 ==> Acknowledged(c, old(world), a, page, before, between, old(trace), trace, r.Ok?)
      ensures old(count) > 0 ==> Settled(world.attempts[a], old(|world.attempts[a].windows|), r.Ok?)
      ensures old(count) > 0 && r.Ok? ==> r.value == old(pending)
    {
      ghost var k, was := |world.attempts[a].windows|, trace;
      var pos := Claim(page);
      if pos.None? {
        return Ok(0);
      }
      r := ConfirmLater(k, pos.value, before, between);
      Grouped(was, ClaimStep(a, page), before.steps, F.CheckHolder(a, k), between.steps, F.SaveAck(a, k));
    }

    /** The retry loop of Send: the handler is called again until it succeeds or the context ends, which it
        does during the wait after `patience` further calls. */
    static method Call(handles: nat -> bool, patience: nat) returns (ok: bool, calls: nat)
      ensures 0 < calls <= patience + 1 && ok == handles(calls - 1)
      ensures forall j: nat | j < calls - 1 :: !handles(j)
      ensures !ok ==> calls == patience + 1
    {
      ok, calls := handles(0), 1;
      while !ok && calls <= patience
        invariant 0 < calls <= patience + 1 && ok == handles(calls - 1)
        invariant forall j: nat | j < calls - 1 :: !handles(j)
      {
        ok, calls := handles(calls), calls + 1;
      }
    }

    /** Send: the event is handled and only then accounted, and a window this fills is acknowledged before
        Send returns, unless a tick claims it first. */
    method Send(env: Entry, handles: nat -> bool, patience: nat,
                handling: Interval, gap: Interval, before: Interval, between: Interval)
      returns (r: Result<nat, SendError>, calls: nat)
      requires Valid() && F.CanDeliver(c, world.attempts[a]) && world.attempts[a].buf[0] == env
      requires SendRuns(c, world, a, key, handling, gap, before, between)
      modifies this, server.leases, server.checkpoints
      ensures Valid() && 0 < calls <= patience + 1
      ensures forall j: nat | j < calls - 1 :: !handles(j)
      ensures r == Err(ContextEnded) <==> !handles(calls - 1)
      ensures r == Err(ContextEnded) ==> calls == patience + 1 && trace == old(trace) + handling.steps
      ensures r != Err(ContextEnded) ==>
                Sent(c, old(world), a, handling, gap, before, between, old(trace), trace, r.Ok?)
      ensures r.Ok? ==> r.value == 0 || r.value == env.pos
    {
      var ok;
      ok, calls := Call(handles, patience);
      WindowWaits(c, world, handling.steps, a);
      Meanwhile(handling);
      if !ok {
        return Err(ContextEnded), calls;
      }
      var full := Account(env);
      if !full {
        return Ok(0), calls;
      }
      WindowWaits(c, world, gap.steps, a);
      Meanwhile(gap);
      var acked := Ack(true, before, between);
      r := if acked.Ok? then Ok(acked.value) else Err(AckFailed(acked.error));
    }
  }

  lemma Grouped(was: seq<F.Step>, x: F.Step, first: seq<F.Step>, y: F.Step, second: seq<F.Step>, z: F.Step)
    ensures was + [x] + first + [y] + second + [z] == was + ([x] + first + [y] + second + [z])
  {
  }

  /** Where the protocol stands when the holder check of a window claimed in w runs. */
  ghost function AtCheck(c: F.Config, w: F.World, a: nat, page: bool, before: seq<F.Step>): F.World {
    F.Run(c, F.Next(c, w, ClaimStep(a, page)), before)
  }

  /** What runs around an acknowledgement leaves its window alone. */
  ghost predicate Surroundings(c: F.Config, w: F.World, a: nat, page: bool, key: L.Key, before: Interval,
                               between: Interval)
    requires a in w.attempts
  {
    var k, checking := |w.attempts[a].windows|, AtCheck(c, w, a, page, before.steps);
    && Leaves(before.steps, a, k) && Leaves(between.steps, a, k)
    && Passes(c, F.Next(c, w, ClaimStep(a, page)), before, key, a)
    && Passes(c, F.Next(c, checking, F.CheckHolder(a, k)), between, key, a)
  }

  function AckSteps(a: nat, page: bool, k: nat, before: seq<F.Step>, between: seq<F.Step>): seq<F.Step> {
    [ClaimStep(a, page)] + before + [F.CheckHolder(a, k)] + between + [F.SaveAck(a, k)]
  }

  /** The trace grew by one acknowledgement, which succeeded exactly when the owner held the key at its check. */
  ghost predicate Acknowledged(c: F.Config, w: F.World, a: nat, page: bool, before: Interval, between: Interval,
                               was: seq<F.Step>, trace: seq<F.Step>, ok: bool)
    requires a in w.attempts
  {
    var checking := AtCheck(c, w, a, page, before.steps);
    && trace == was + AckSteps(a, page, |w.attempts[a].windows|, before.steps, between.steps)
    && (ok <==> L.Holds(checking.lease.lease, checking.lease.now, w.attempts[a].owner))
  }

  predicate Settled(t: F.Attempt, k: nat, ok: bool) {
    k < |t.windows| && t.windows[k].stage == if ok then F.Stored else F.Rejected
  }

  /** Where the protocol stands once a handled event is accounted. */
  ghost function Accounted(c: F.Config, w: F.World, a: nat, handling: Interval): F.World {
    F.Next(c, F.Run(c, w, handling.steps), F.Deliver(a))
  }

  /** What runs while Send handles, then before it asks for the acknowledgement of a window it filled, then
      around that acknowledgement. */
  ghost predicate SendRuns(c: F.Config, w: F.World, a: nat, key: L.Key,
                           handling: Interval, gap: Interval, before: Interval, between: Interval) {
    var full := Accounted(c, w, a, handling);
    var asking := F.Run(c, full, gap.steps);
    && BesidesSend(handling.steps, a) && Passes(c, w, handling, key, a)
    && (a in full.attempts && c.window <= full.attempts[a].count ==>
          && BesidesSend(gap.steps, a) && Passes(c, full, gap, key, a)
          && (asking.attempts[a].count > 0 ==> Surroundings(c, asking, a, true, key, before, between)))
  }

  /** The trace of a successful handling: the delivery, and the acknowledgement of the window it filled. */
  ghost predicate Sent(c: F.Config, w: F.World, a: nat, handling: Interval, gap: Interval,
                       before: Interval, between: Interval, was: seq<F.Step>, trace: seq<F.Step>, ok: bool)
  {
    var full := Accounted(c, w, a, handling);
    var asking := F.Run(c, full, gap.steps);
    var delivered := was + handling.steps + [F.Deliver(a)];
    && a in full.attempts
    && if full.attempts[a].count < c.window then ok && trace == delivered
       else && a in asking.attempts
            && if asking.attempts[a].count == 0 then ok && trace == delivered + gap.steps
               else Acknowledged(c, asking, a, true, before, between, delivered + gap.steps, trace, ok)
  }

  predicate IsClaimed(t: F.Attempt, k: nat, position: nat) {
    k < |t.windows| && t.windows[k].stage == F.Claimed && t.windows[k].pos == position
  }

  lemma ConfirmEffect(c: F.Config, w: F.World, a: nat, k: nat, between: seq<F.Step>, position: nat)
    requires a in w.attempts && IsClaimed(w.attempts[a], k, position) && Leaves(between, a, k)
    ensures var later := F.Run(c, F.Next(c, w, F.CheckHolder(a, k)), between);
            var w' := F.Next(c, later, F.SaveAck(a, k));
            var holds := L.Holds(w.lease.lease, w.lease.now, w.attempts[a].owner);
            && w'.lease == later.lease
            && w'.cp == (if holds then Some(Larger(F.Position(later.cp), position)) else later.cp)
            && a in later.attempts && a in w'.attempts && w'.attempts[a].owner == w.attempts[a].owner
            && w'.attempts[a].pending == later.attempts[a].pending && w'.attempts[a].count == later.attempts[a].count
            && k < |w'.attempts[a].windows|
            && w'.attempts[a].windows[k].stage == if holds then F.Stored else F.Rejected
  {
    var checked := F.Next(c, w, F.CheckHolder(a, k));
    WindowEffect(c, w, F.CheckHolder(a, k));
    WindowStays(c, checked, between, a, k);
    WindowEffect(c, F.Run(c, checked, between), F.SaveAck(a, k));
  }

  /** Saving a position is what the protocol's save does. */
  lemma SavedMatches(s: Stores, key: L.Key, w: F.World, w': F.World, definition: string, position: nat)
    requires Matches(s, key, w) && w'.lease == w.lease
    ensures w'.cp == Some(Larger(F.Position(w.cp), position)) ==>
              Matches(s.(checkpoints := Saved(s.checkpoints, key, definition, position)), key, w')
    ensures w'.cp == w.cp ==> Matches(s, key, w')
  {
  }
}
