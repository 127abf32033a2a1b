/** A projection over the batching marker (projection/runner.go over projection/buffered_marker.go): the
    runner's fields and the marker's, updated in place, are a run of the marker-deduplicated dispatch. */
module BufferedProjection {
  import opened Wrappers
  import P = Projection
  import B = BufferedMarker

  lemma RunOneMore(feed: seq<P.Event>, w: P.World, steps: seq<P.Step>, step: P.Step)
    ensures P.Run(feed, w, steps + [step]) == P.Next(feed, P.Run(feed, w, steps), step)
  {
    assert (steps + [step])[..|steps|] == steps;
  }

  /** A marker whose buffer was written out, or not, is at most one flush step of the port. */
  function DrainSteps(p: P.Port, p': P.Port): (steps: seq<P.Step>)
    ensures |steps| <= 1
  {
    if p' == p then [] else [P.Flush(p' == P.FlushPort(p, true))]
  }

  lemma DrainIsFlush(feed: seq<P.Event>, w: P.World, start: P.World, trace: seq<P.Step>, p': P.Port)
    requires w == P.Run(feed, start, trace) && B.Drained(w.port, p')
    ensures P.Run(feed, start, trace + DrainSteps(w.port, p')) == w.(port := p')
  {
    if p' == w.port {
      assert trace + [] == trace;
    } else {
      RunOneMore(feed, start, trace, P.Flush(p' == P.FlushPort(w.port, true)));
    }
  }

  /** A delivery that gets as far as its save, field by field. */
  lemma AttemptIs(feed: seq<P.Event>, w: P.World, handles: bool, save: P.SaveResult)
    requires w.cursor < |feed| && P.Attempted(feed, w, handles)
    ensures var w', e := P.Next(feed, w, P.Deliver(handles, save)), feed[w.cursor];
            && w'.port == P.SaveTo(w.port, e.pos, save) && w.reached <= w'.reached
            && w'.marker == (if save.Failed? then w.marker else e.pos)
            && w'.cursor == (if save.Failed? then w.cursor else w.cursor + 1)
            && w'.dispatched == w.dispatched + if e.consumed then [w.cursor] else []
  {
  }

  class Worker {
    const feed: seq<P.Event>
    const name: B.Key
    /** The process's marker, which its other projections use too. */
    var marker: B.BufferedMarker
    /** Runner: the marker in memory, once loaded. */
    var position: nat
    var loaded: bool
    /** The feed: the next event to deliver. handled lists the successful handler calls. */
    var cursor: nat
    var handled: seq<nat>

    ghost const at: nat
    ghost const start: P.World
    ghost var trace: seq<P.Step>
    ghost var world: P.World

    /** The marker this process goes by. */
    ghost function Position(): nat
      reads this, marker
    {
      if loaded then position else B.At(marker.inner, name)
    }

    ghost predicate Linked()
      reads this
    {
      P.Increasing(feed) && P.Init(feed, at, start) && world == P.Run(feed, start, trace)
    }

    /** The fields are what the run so far says. */
    ghost predicate Valid()
      reads this, marker
    {
      && Linked() && marker.Valid()
      && world.port == marker.PortAt(name) && world.marker == Position()
      && world.cursor == cursor && world.dispatched == handled
      && (!loaded ==> name !in marker.pending)
    }

    /** A process starts over what its marker has persisted; the feed resumes at or below that. */
    constructor (feed: seq<P.Event>, name: B.Key, inner: map<B.Key, nat>, maxCount: int, maxInterval: int, cursor: nat)
      requires P.Increasing(feed) && cursor <= P.CountUpTo(feed, B.At(inner, name))
      ensures Valid() && fresh(marker) && this.feed == feed && this.name == name && marker.inner == inner
      ensures trace == [] && handled == [] && at == B.At(inner, name) && !loaded
    {
      this.feed, this.name, this.cursor, this.position, this.loaded, this.handled := feed, name, cursor, 0, false, [];
      this.at, this.trace := B.At(inner, name), [];
      var fromDisk := P.Port(B.At(inner, name), None, 0);
      var w := P.World(fromDisk, B.At(inner, name), P.CountUpTo(feed, B.At(inner, name)), cursor, [], 0);
      this.start, this.world := w, w;
      this.marker := new B.BufferedMarker(inner, maxCount, maxInterval);
    }

    /** The run goes on by the flush, if any, that the marker's buffer saw. */
    ghost method Drain(p': P.Port)
      requires Linked() && B.Drained(world.port, p')
      modifies this`trace, this`world
      ensures Linked() && world == old(world).(port := p')
      ensures trace == old(trace) + DrainSteps(old(world.port), p')
    {
      DrainIsFlush(feed, world, start, trace, p');
      trace, world := trace + DrainSteps(world.port, p'), world.(port := p');
    }

    ghost method Record(step: P.Step)
      requires Linked()
      modifies this`trace, this`world
      ensures Linked() && trace == old(trace) + [step] && world == P.Next(feed, old(world), step)
    {
      RunOneMore(feed, start, trace, step);
      trace, world := trace + [step], P.Next(feed, world, step);
    }

    /** loadMarker: the position comes from the marker once per process; loading flushes, which no run of
        this projection can tell. */
    method LoadMarker(loads: bool, writes: nat -> B.Write) returns (ok: bool)
      requires Valid()
      modifies this`position, this`loaded, marker
      ensures Valid() && trace == old(trace) && world == old(world)
      ensures ok ==> loaded
      ensures old(loaded) ==> ok
    {
      if loaded {
        return true;
      }
      var got := marker.Load(name, loads, writes);
      assert B.Drained(old(marker.PortAt(name)), marker.PortAt(name));
      if got.None? {
        return false;
      }
      position, loaded := got.value, true;
      ok := true;
    }

    /** apply, for the event the feed has next: one delivery of the run, whose save is what the marker made
        of it; a marker that cannot be loaded leaves everything to the next try. */
    method Deliver(loads: bool, handles: bool, now: int, loadWrites: nat -> B.Write, writes: nat -> B.Write)
      returns (acked: bool)
      requires Valid() && cursor < |feed|
      modifies this, marker
      ensures Valid() && marker == old(marker)
      ensures trace == old(trace) || exists save :: trace == old(trace) + [P.Deliver(handles, save)]
      ensures acked <==> cursor == old(cursor) + 1
      ensures old(loaded) ==> |trace| == |old(trace)| + 1
    {
      var ready := LoadMarker(loads, loadWrites);
      if !ready {
        return false;
      }
      var e := feed[cursor];
      if e.pos <= position {
        Record(P.Deliver(handles, P.Flushed));
        cursor := cursor + 1;
        return true;
      }
      if e.consumed && !handles {
        Record(P.Deliver(handles, P.Flushed));
        return false;
      }
      acked := Advance(e, handles, now, writes);
    }

    /** The marker's save of this projection, as its port sees it. */
    method SaveMarker(pos: nat, now: int, writes: nat -> B.Write) returns (ok: bool, ghost save: P.SaveResult)
      requires marker.Valid() && 0 < pos
      modifies marker
      ensures marker.Valid() && marker.PortAt(name) == P.SaveTo(old(marker.PortAt(name)), pos, save)
      ensures ok == !save.Failed?
    {
      ok := marker.Save(name, pos, now, writes);
      save :| marker.PortAt(name) == P.SaveTo(old(marker.PortAt(name)), pos, save) && ok == !save.Failed?;
    }

    /** advance, after a successful handler call if the event is a consumed one. */
    method Advance(e: P.Event, handles: bool, now: int, writes: nat -> B.Write) returns (acked: bool)
      requires Valid() && loaded && cursor < |feed| && e == feed[cursor] && P.Attempted(feed, world, handles)
      modifies this, marker
      ensures Valid() && marker == old(marker) && loaded
      ensures exists save :: trace == old(trace) + [P.Deliver(handles, save)]
      ensures acked <==> cursor == old(cursor) + 1
    {
      handled := handled + if e.consumed then [cursor] else [];
      ghost var save;
      acked, save := SaveMarker(e.pos, now, writes);
      AttemptIs(feed, world, handles, save);
      Record(P.Deliver(handles, save));
      if acked {
        position, cursor := e.pos, cursor + 1;
      }
    }

    /** Another projection of the process saves: at most a flush for this one. */
    method OtherSaves(other: B.Key, saved: nat, now: int, writes: nat -> B.Write) returns (ok: bool)
      requires Valid() && other != name
      modifies this`trace, this`world, marker
      ensures Valid() && trace == old(trace) + DrainSteps(old(world.port), world.port)
    {
      ok := marker.Save(other, saved, now, writes);
      Drain(marker.PortAt(name));
    }

    /** The application flushes the marker. */
    method Flush(writes: nat -> B.Write) returns (ok: bool)
      requires Valid()
      modifies this`trace, this`world, marker
      ensures Valid() && trace == old(trace) + DrainSteps(old(world.port), world.port)
      ensures ok ==> world.port.pending.None? && world.port.durable == old(B.Seen(marker.inner, marker.pending, name))
    {
      ok := marker.Flush(writes);
      Drain(marker.PortAt(name));
    }

    /** The feed reconnects at or below what was dealt with. */
    method Reconnect(resume: nat)
      requires Valid() && resume <= world.reached
      modifies this`cursor, this`trace, this`world
      ensures Valid() && cursor == resume && trace == old(trace) + [P.Reconnect(resume)]
    {
      Record(P.Reconnect(resume));
      cursor := resume;
    }

    /** The handler is called, but the process will not get to the save. */
    method HandleUnsaved()
      requires Valid() && cursor < |feed| && P.Attempted(feed, world, true)
      modifies this`handled, this`trace, this`world
      ensures Valid() && trace == old(trace) + [P.Deliver(true, P.Failed(P.Nothing))]
      ensures old(world.reached) <= world.reached
    {
      AttemptIs(feed, world, true, P.Failed(P.Nothing));
      handled := handled + if feed[cursor].consumed then [cursor] else [];
      Record(P.Deliver(true, P.Failed(P.Nothing)));
    }

    /** The process dies and starts over what is persisted. */
    method Restart(maxCount: int, maxInterval: int, resume: nat)
      requires Valid() && resume <= world.reached
      modifies this
      ensures Valid() && fresh(marker) && marker.inner == old(marker.inner) && !loaded && cursor == resume
      ensures trace == old(trace) + [P.Crash(resume)] && handled == old(handled)
    {
      Record(P.Crash(resume));
      marker := new B.BufferedMarker(marker.inner, maxCount, maxInterval);
      position, loaded, cursor := 0, false, resume;
    }

    /** What the handler has been called with: every consumed event past the first marker, in log order and
        none skipped as far as the run got, and at most one more call per save that failed or was lost. */
    lemma HandlerFollowsTheLog()
      requires Valid()
      ensures world.reached <= |feed|
      ensures P.Firsts(handled) == P.ConsumedIn(feed, P.CountUpTo(feed, at), world.reached)
      ensures |handled| - |P.Firsts(handled)| <= world.losses
      ensures forall k | 0 <= k < |feed| && (feed[k].pos <= Position() || feed[k].pos <= B.At(marker.inner, name)) ::
                k < world.reached
    {
      P.DispatchFollowsTheLog(feed, at, start, trace);
    }
  }
}
