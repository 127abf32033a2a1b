/** HandleAt and its retry loop (aggregate/runtime.go), run against a stream others write at the same
    time. Every pass is a trace of Commands steps, so what holds of all runs holds of this loop. */
module CommandLoop {
  import opened Wrappers
  import opened Aggregate
  import opened Commands

  /** What one pass came to: finished, or lost a write race. */
  datatype Pass<S, E> = Finished(outcome: Outcome<S, E>) | Raced

  predicate Spares<C>(steps: seq<Step<C>>, id: nat) {
    forall i | 0 <= i < |steps| :: steps[i].ForeignSnapshot? || steps[i].DropCache? || steps[i].id != id
  }

  lemma {:induction false} SparedCallStays<S, C, E>(rt: Runtime<S, C, E>, w: World<S, C, E>, steps: seq<Step<C>>,
                                                    id: nat)
    requires id in w.calls && Spares(steps, id)
    ensures id in Run(rt, w, steps).calls && Run(rt, w, steps).calls[id] == w.calls[id]
  {
    if steps != [] {
      SparedCallStays(rt, w, steps[..|steps| - 1], id);
    }
  }

  lemma {:induction false} RunConcat<S, C, E>(rt: Runtime<S, C, E>, w: World<S, C, E>, a: seq<Step<C>>, b: seq<Step<C>>)
    ensures Run(rt, w, a + b) == Run(rt, Run(rt, w, a), b)
    decreases |b|
  {
    if b == [] {
      assert a + b == a;
    } else {
      var n := |b| - 1;
      assert (a + b)[..|a| + n] == a + b[..n];
      RunConcat(rt, w, a, b[..n]);
    }
  }

  lemma SuccessReports<S(!new), C, E(!new)>(rt: Runtime<S, C, E>, w: World<S, C, E>, steps: seq<Step<C>>, id: nat)
    requires id in Run(rt, w, steps).calls
    ensures Faithful(rt) && Init(rt, w) ==> PhaseOk(rt, Run(rt, w, steps).log, Run(rt, w, steps).calls[id])
  {
    if Faithful(rt) && Init(rt, w) {
      InvAlongRun(rt, w.log, w, steps);
    }
  }

  /** The call is about to fail for a reason of its own: the stream cannot be read, or an event not encoded. */
  ghost predicate Broken<S, C, E>(rt: Runtime<S, C, E>, w: World<S, C, E>, id: nat) {
    && id in w.calls
    && var c := w.calls[id];
       || (c.phase.Seeded? && LoadFrom(rt, c.phase.seed, w.log).None?)
       || (c.phase.Loaded? && rt.decide(c.phase.state, c.cmd).Produce?
           && EncodeAll(rt, rt.decide(c.phase.state, c.cmd).events).None?)
  }

  predicate Fails(f: Fault) {
    f == NotWritten || f == Unacknowledged
  }

  /** What a failure needs: an append of its own that faulted as scheduled, or a moment of the run at which
      the call is broken. */
  ghost predicate HasCause<S, C, E>(
    rt: Runtime<S, C, E>, start: World<S, C, E>, trace: seq<Step<C>>, id: nat, faults: nat -> Fault)
  {
    || (exists n, k: nat :: 0 <= n < |trace| && trace[n] == Append(id, faults(k)) && Fails(faults(k)))
    || (exists n :: 0 <= n <= |trace| && Broken(rt, Run(rt, start, trace[..n]), id))
  }

  lemma BrokenNow<S, C, E>(
    rt: Runtime<S, C, E>, start: World<S, C, E>, trace: seq<Step<C>>, later: seq<Step<C>>, id: nat,
    faults: nat -> Fault)
    requires Broken(rt, Run(rt, start, trace), id) && trace <= later
    ensures HasCause(rt, start, later, id, faults)
  {
    assert later[..|trace|] == trace;
  }

  lemma FaultIsCause<S, C, E>(
    rt: Runtime<S, C, E>, start: World<S, C, E>, before: seq<Step<C>>, id: nat, faults: nat -> Fault, k: nat)
    requires Fails(faults(k))
    ensures HasCause(rt, start, before + [Append(id, faults(k))], id, faults)
  {
    assert (before + [Append(id, faults(k))])[|before|] == Append(id, faults(k));
  }

  /** What an append makes of its call. */
  lemma AppendMoves<S, C, E>(rt: Runtime<S, C, E>, w: World<S, C, E>, id: nat, fault: Fault)
    requires id in w.calls && w.calls[id].phase.Decided?
    ensures var w', c := Next(rt, w, Append(id, fault)), w.calls[id];
            && id in w'.calls
            && w'.calls[id] == if fault == NotWritten then c.(phase := Done(Failed))
                               else if LosesRace(w.log, c.phase, fault) then AfterConflict(rt, c)
                               else c.(phase := CommittedPhase(rt, c.phase, fault))
  {
  }

  class Handler<!S(!new), !C, !E(!new)> {
    const rt: Runtime<S, C, E>
    const id: nat
    /** What everyone else does between two of this call's steps. */
    const others: nat -> seq<Step<C>>
    /** How the k-th append and snapshot write of this call fare. */
    const faults: nat -> Fault
    const writes: nat -> bool

    var world: World<S, C, E>
    var turn: nat
    ghost const start: World<S, C, E>
    ghost var trace: seq<Step<C>>

    ghost predicate Valid()
      reads this
    {
      && world == Run(rt, start, trace)
      && (forall k: nat :: Spares(others(k), id))
    }

    constructor (rt: Runtime<S, C, E>, id: nat, others: nat -> seq<Step<C>>, faults: nat -> Fault, writes: nat -> bool,
                 world: World<S, C, E>)
      requires forall k: nat :: Spares(others(k), id)
      ensures Valid() && this.rt == rt && this.id == id && this.world == world && start == world && trace == []
      ensures this.others == others && this.faults == faults && this.writes == writes && turn == 0
    {
      this.rt, this.id, this.others, this.faults, this.writes := rt, id, others, faults, writes;
      this.world, this.start, this.trace, this.turn := world, world, [], 0;
    }

    method Yield()
      requires Valid() && id in world.calls
      modifies this
      ensures Valid() && id in world.calls && world.calls[id] == old(world.calls[id])
      ensures world == Run(rt, old(world), others(old(turn))) && trace == old(trace) + others(old(turn))
              && turn == old(turn) + 1
    {
      SparedCallStays(rt, world, others(turn), id);
      RunConcat(rt, start, trace, others(turn));
      world, trace, turn := Run(rt, world, others(turn)), trace + others(turn), turn + 1;
    }

    method Take(step: Step<C>)
      requires Valid()
      modifies this
      ensures Valid() && world == Next(rt, old(world), step) && trace == old(trace) + [step] && turn == old(turn)
    {
      assert (trace + [step])[..|trace|] == trace;
      world, trace := Next(rt, world, step), trace + [step];
    }

    /** HandleAt: passes until one finishes, or a lost race finds the retry budget spent. */
    method HandleAt(cmd: C, expected: nat) returns (outcome: Outcome<S, E>)
      requires Valid() && id !in world.calls
      modifies this
      ensures Valid() && old(trace) + [Begin(id, cmd, expected)] <= trace
      ensures id in world.calls && world.calls[id].phase == Done(outcome)
      ensures world.calls[id].cmd == cmd && world.calls[id].expected == expected
              && world.calls[id].attempt <= rt.retries
      ensures outcome == Failed ==> HasCause(rt, start, trace, id, faults)
      ensures Faithful(rt) && Init(rt, start) && outcome.Succeeded? ==>
                Reports(rt, world.log, world.calls[id], outcome.state, outcome.from, outcome.to, outcome.events)
    {
      Take(Begin(id, cmd, expected));
      var attempt := 0;
      while true
        invariant Valid() && old(trace) + [Begin(id, cmd, expected)] <= trace && attempt <= rt.retries
        invariant id in world.calls && world.calls[id] == Call(cmd, expected, attempt, Idle)
        decreases rt.retries - attempt
      {
        var pass := HandleOnce(cmd, expected);
        if pass.Finished? {
          SuccessReports(rt, start, trace, id);
          return pass.outcome;
        }
        if attempt >= rt.retries {
          return Conflict;
        }
        attempt := attempt + 1;
      }
    }

    /** One load, decide, append pass. */
    method HandleOnce(cmd: C, expected: nat) returns (r: Pass<S, E>)
      requires Valid() && id in world.calls
      requires world.calls[id].cmd == cmd && world.calls[id].expected == expected && world.calls[id].phase.Idle?
      modifies this
      ensures Valid() && id in world.calls && old(trace) <= trace
      ensures r.Finished? ==> world.calls[id] == old(world.calls[id]).(phase := Done(r.outcome))
      ensures r == Finished(Failed) ==> HasCause(rt, start, trace, id, faults)
      ensures r.Raced? ==> world.calls[id] == AfterConflict(rt, old(world.calls[id]))
    {
      var cache := world.cache;
      Take(ReadCache(id));
      Yield();
      r := LoadAndDecide(cmd, expected, cache);
    }

    method LoadAndDecide(cmd: C, expected: nat, cache: Option<Snapshot>) returns (r: Pass<S, E>)
      requires Valid() && id in world.calls
      requires world.calls[id].cmd == cmd && world.calls[id].expected == expected
      requires world.calls[id].phase == Seeded(SeedOf(rt, cache))
      modifies this
      ensures Valid() && id in world.calls && old(trace) <= trace
      ensures r.Finished? ==> world.calls[id] == old(world.calls[id]).(phase := Done(r.outcome))
      ensures r == Finished(Failed) ==> HasCause(rt, start, trace, id, faults)
      ensures r.Raced? ==> world.calls[id] == AfterConflict(rt, old(world.calls[id]).(phase := Idle))
    {
      var loaded := Aggregate.Load(rt, cache, world.log, 0);
      Take(ReadLog(id));
      if loaded.Err? {
        BrokenNow(rt, start, old(trace), trace, id, faults);
        return Finished(Failed);
      }
      var state, version := loaded.value.0, loaded.value.1;
      Yield();
      r := DecideAndAppend(cmd, expected, state, version);
    }

    method DecideAndAppend(cmd: C, expected: nat, state: S, version: nat) returns (r: Pass<S, E>)
      requires Valid() && id in world.calls
      requires world.calls[id].cmd == cmd && world.calls[id].expected == expected
               && world.calls[id].phase == Loaded(state, version)
      modifies this
      ensures Valid() && id in world.calls && old(trace) <= trace
      ensures r.Finished? ==> world.calls[id] == old(world.calls[id]).(phase := Done(r.outcome))
      ensures r == Finished(Failed) ==> HasCause(rt, start, trace, id, faults)
      ensures r.Raced? ==> world.calls[id] == AfterConflict(rt, old(world.calls[id]).(phase := Idle))
    {
      var verdict := DecideNow(rt, cmd, expected, state, version);
      Take(Decide(id));
      if verdict.Done? {
        if verdict.outcome.Failed? {
          BrokenNow(rt, start, old(trace), trace, id, faults);
        }
        return Finished(verdict.outcome);
      }
      Yield();
      r := AppendNow(state, version, verdict.events);
    }

    /** The append: a fault or a lost race ends the pass, a commit leaves the call with its events appended. */
    method TryAppend(state: S, version: nat, events: seq<E>) returns (r: Option<Pass<S, E>>)
      requires Valid() && id in world.calls && world.calls[id].phase.Decided?
      requires world.calls[id].phase.state == state && world.calls[id].phase.version == version
      requires world.calls[id].phase.events == events
      modifies this
      ensures Valid() && id in world.calls && old(trace) <= trace
      ensures var c := old(world.calls[id]);
              match r
              case Some(Finished(o)) =>
                o == Failed && world.calls[id] == c.(phase := Done(o)) && HasCause(rt, start, trace, id, faults)
              case Some(Raced) => world.calls[id] == AfterConflict(rt, c)
              case None =>
                var folded := Evolve(rt, state, events);
                world.calls[id] == c.(phase := Appended(folded, version, version + |events|, events))
    {
      var fault := faults(turn);
      var raced := |world.log| != version && (fault != Overtaken || |events| > 0);
      AppendMoves(rt, world, id, fault);
      Take(Append(id, fault));
      if fault == NotWritten || (!raced && fault == Unacknowledged) {
        FaultIsCause(rt, start, old(trace), id, faults, old(turn));
        return Some(Finished(Failed));
      }
      r := if raced then Some(Raced) else None;
    }

    /** The append and what follows it: the fold of its own events onto the state, and the write-through. */
    method AppendNow(state: S, version: nat, events: seq<E>) returns (r: Pass<S, E>)
      requires Valid() && id in world.calls && world.calls[id].phase.Decided?
      requires world.calls[id].phase.state == state && world.calls[id].phase.version == version
      requires world.calls[id].phase.events == events
      modifies this
      ensures Valid() && id in world.calls && old(trace) <= trace
      ensures r.Finished? ==> world.calls[id] == old(world.calls[id]).(phase := Done(r.outcome))
      ensures r == Finished(Failed) ==> HasCause(rt, start, trace, id, faults)
      ensures r.Raced? ==> world.calls[id] == AfterConflict(rt, old(world.calls[id]).(phase := Idle))
    {
      var early := TryAppend(state, version, events);
      if early.Some? {
        return early.value;
      }
      Yield();
      var outcome := WriteThrough(state, version, events);
      r := Finished(outcome);
    }

    method WriteThrough(state: S, version: nat, events: seq<E>) returns (outcome: Outcome<S, E>)
      requires Valid() && id in world.calls
      requires world.calls[id].phase == Appended(Evolve(rt, state, events), version, version + |events|, events)
      modifies this
      ensures Valid() && id in world.calls && old(trace) <= trace
      ensures world.calls[id] == old(world.calls[id]).(phase := Done(outcome)) && outcome.Succeeded?
    {
      var folded := FoldForward(rt, state, events);
      Take(SaveSnapshot(id, writes(turn)));
      outcome := Succeeded(folded, version, version + |events|, events);
    }
  }

  method FoldForward<S, C, E>(rt: Runtime<S, C, E>, s: S, events: seq<E>) returns (state: S)
    ensures state == Evolve(rt, s, events)
  {
    state := s;
    for i := 0 to |events|
      invariant state == Evolve(rt, s, events[..i])
    {
      assert events[..i + 1][..i] == events[..i];
      state := rt.evolve(state, events[i]);
    }
    assert events[..|events|] == events;
  }

  lemma {:induction false} EncodeFailsEarly<S, C, E>(rt: Runtime<S, C, E>, events: seq<E>, n: nat)
    requires n <= |events| && EncodeAll(rt, events[..n]).None?
    ensures EncodeAll(rt, events).None?
    decreases |events|
  {
    if n < |events| {
      assert events[..|events| - 1][..n] == events[..n];
      EncodeFailsEarly(rt, events[..|events| - 1], n);
    } else {
      assert events[..n] == events;
    }
  }

  /** The checks between the load and the append, in the source's order. */
  method DecideNow<S, C, E>(rt: Runtime<S, C, E>, cmd: C, expected: nat, state: S, version: nat)
    returns (p: Phase<S, E>)
    ensures p.Done? || p.Decided?
    ensures p == Done(Failed) ==> rt.decide(state, cmd).Produce? && EncodeAll(rt, rt.decide(state, cmd).events).None?
    ensures forall c: Call<S, C, E> | c.cmd == cmd && c.expected == expected && c.phase == Loaded(state, version) ::
              DecidePhase(rt, c) == p
  {
    if expected != 0 && version != expected {
      return Done(StaleAssertion);
    }
    if rt.terminal(state) {
      return Done(Terminal);
    }
    var d := rt.decide(state, cmd);
    if d.Reject? {
      return Done(Rejected);
    }
    var events := d.events;
    if |events| == 0 && !d.constrained {
      return Done(Succeeded(state, version, version, []));
    }
    var encoded: seq<Encoded> := [];
    for i := 0 to |events|
      invariant EncodeAll(rt, events[..i]) == Some(encoded)
    {
      assert events[..i + 1][..i] == events[..i];
      var x := rt.encode(events[i]);
      if x.None? {
        EncodeFailsEarly(rt, events, i + 1);
        return Done(Failed);
      }
      encoded := encoded + [x.value];
    }
    assert events[..|events|] == events;
    p := Decided(state, version, events, encoded);
  }
}
