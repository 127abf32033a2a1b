/** The projection runner's methods and the rebuild loop (projection/runner.go, projection/replay.go):
    one apply path for live delivery and for replaying the log page by page. */
module ProjectionRunner {
  import opened Projection

  /** How the ports behave for one envelope: the marker load, the handler, the marker save. */
  datatype Fate = Fate(loads: bool, handles: bool, saves: bool)

  // ---------------------------------------------------------------- what a pass over rows does

  datatype Passed = Passed(marker: nat, handled: seq<Event>)

  /** Marker and handled events after applying rows[lo..hi] with every port working. */
  function Pass(marker: nat, rows: seq<Event>, lo: nat, hi: nat): Passed
    requires hi <= |rows|
    decreases hi
  {
    if hi <= lo then Passed(marker, [])
    else
      var before := Pass(marker, rows, lo, hi - 1);
      var r := Apply(before.marker, rows[hi - 1], true, true);
      Passed(r.marker, before.handled + if r.dispatched then [rows[hi - 1]] else [])
  }

  /** The consumed rows of rows[lo..hi] past a position, in order. */
  function Wanted(rows: seq<Event>, lo: nat, hi: nat, after: nat): seq<Event>
    requires hi <= |rows|
    decreases hi
  {
    if hi <= lo then []
    else
      var e := rows[hi - 1];
      Wanted(rows, lo, hi - 1, after) + if e.consumed && e.pos > after then [e] else []
  }

  function Furthest(marker: nat, rows: seq<Event>, lo: nat, hi: nat): nat
    requires hi <= |rows|
  {
    if hi <= lo || rows[hi - 1].pos <= marker then marker else rows[hi - 1].pos
  }

  /** A pass over rows in order handles each wanted row once and leaves the marker at the furthest. */
  lemma {:induction false} PassIsWanted(marker: nat, rows: seq<Event>, lo: nat, hi: nat)
    requires Increasing(rows) && hi <= |rows|
    ensures Pass(marker, rows, lo, hi).marker == Furthest(marker, rows, lo, hi)
    ensures Pass(marker, rows, lo, hi).handled == Wanted(rows, lo, hi, marker)
    decreases hi
  {
    if lo < hi {
      PassIsWanted(marker, rows, lo, hi - 1);
      if lo < hi - 1 {
        assert rows[hi - 2].pos < rows[hi - 1].pos;
      }
    }
  }

  /** A pass over a stretch of rows and then over a page that follows it is one pass. */
  lemma {:induction false} PassJoins(m: nat, rows: seq<Event>, lo: nat, at: nat, page: seq<Event>, n: nat)
    requires lo <= at && n <= |page| && at + |page| <= |rows| && page == rows[at..at + |page|]
    ensures var first := Pass(m, rows, lo, at);
            && Pass(m, rows, lo, at + n).marker == Pass(first.marker, page, 0, n).marker
            && Pass(m, rows, lo, at + n).handled == first.handled + Pass(first.marker, page, 0, n).handled
    decreases n
  {
    if n > 0 {
      PassJoins(m, rows, lo, at, page, n - 1);
      assert page[n - 1] == rows[at + n - 1];
    }
  }

  // ---------------------------------------------------------------- Runner

  class Runner {
    var marker: nat
    var loaded: bool
    /** What the Marker port holds, and every envelope the handler accepted. */
    var stored: nat
    var handled: seq<Event>

    constructor (stored: nat)
      ensures !loaded && this.stored == stored && handled == []
    {
      this.marker, this.loaded, this.stored, this.handled := 0, false, stored, [];
    }

    /** The marker this process goes by. */
    function Position(): nat
      reads this
    {
      if loaded then marker else stored
    }

    method LoadMarker(loads: bool) returns (ok: bool)
      modifies this`marker, this`loaded
      ensures ok == (old(loaded) || loads) && (ok ==> loaded && marker == old(Position()))
      ensures Position() == old(Position())
    {
      if loaded {
        return true;
      }
      if !loads {
        return false;
      }
      marker, loaded := stored, true;
      ok := true;
    }

    /** apply: an error when any port fails; a handled position is saved before it is acknowledged. */
    method ApplyOne(e: Event, fate: Fate) returns (acked: bool)
      modifies this
      ensures var r := Apply(old(Position()), e, fate.handles, fate.saves);
              if old(loaded) || fate.loads
              then acked == r.acked && Position() == r.marker
                   && handled == old(handled) + (if r.dispatched then [e] else [])
                   && stored == (if r.acked && e.pos > old(Position()) then e.pos else old(stored)) && loaded
              else !acked && Position() == old(Position()) && handled == old(handled) && stored == old(stored)
    {
      var ready := LoadMarker(fate.loads);
      if !ready {
        return false;
      }
      if e.pos <= marker {
        return true;
      }
      if e.consumed {
        if !fate.handles {
          return false;
        }
        handled := handled + [e];
      }
      if !fate.saves {
        return false;
      }
      stored, marker := e.pos, e.pos;
      acked := true;
    }

    /** Apply: one ordered batch, stopping at the first envelope that is not acknowledged. That one may
        have been handled already, when it was its save that failed. */
    method ApplyBatch(batch: seq<Event>, fate: nat -> Fate) returns (done: nat, ghost extra: seq<Event>)
      modifies this
      ensures done <= |batch| && Position() == Pass(old(Position()), batch, 0, done).marker
      ensures handled == old(handled) + Pass(old(Position()), batch, 0, done).handled + extra
              && Extra(extra, batch, done)
      ensures AllAck(old(loaded), old(Position()), batch, fate, done)
      ensures done < |batch| ==> !Acks(old(loaded) || done > 0, Position(), batch[done], fate(done))
      ensures done < |batch| ==> extra == Unsaved(old(loaded) || done > 0, Position(), batch[done], fate(done))
    {
      ghost var m, before := Position(), handled;
      for i := 0 to |batch|
        invariant i > 0 ==> loaded
        invariant i == 0 ==> loaded == old(loaded)
        invariant AllAck(old(loaded), m, batch, fate, i)
        invariant Position() == Pass(m, batch, 0, i).marker && handled == before + Pass(m, batch, 0, i).handled
      {
        var acked := ApplyOne(batch[i], fate(i));
        if !acked {
          return i, handled[|before + Pass(m, batch, 0, i).handled|..];
        }
      }
      done, extra := |batch|, [];
    }
  }

  /** The ports let this envelope through: it is acknowledged. */
  predicate Acks(loaded: bool, marker: nat, e: Event, f: Fate) {
    (loaded || f.loads) && Apply(marker, e, f.handles, f.saves).acked
  }

  /** The first n envelopes of a batch are acknowledged, each at the marker the ones before it left. */
  ghost predicate AllAck(loaded: bool, marker: nat, batch: seq<Event>, fate: nat -> Fate, n: nat) {
    n <= |batch| && (n > 0 ==>
      && AllAck(loaded, marker, batch, fate, n - 1)
      && Acks(loaded || n > 1, Pass(marker, batch, 0, n - 1).marker, batch[n - 1], fate(n - 1)))
  }

  /** What an envelope that is not acknowledged leaves handled. */
  function Unsaved(loaded: bool, marker: nat, e: Event, f: Fate): seq<Event> {
    if (loaded || f.loads) && Apply(marker, e, f.handles, f.saves).dispatched then [e] else []
  }

  /** Some port fails for this envelope, which lies past the marker or could not be compared with it. */
  predicate Refused(marker: nat, e: Event, f: Fate) {
    !Acks(false, marker, e, f)
  }

  /** At most the one row that stopped a batch, handled but not saved. */
  ghost predicate Extra(extra: seq<Event>, rows: seq<Event>, done: nat) {
    extra == [] || (done < |rows| && rows[done].consumed && extra == [rows[done]])
  }

  // ---------------------------------------------------------------- Replay

  /** Source.ReadAll: the first limit rows past a position. */
  method ReadAll(log: seq<Event>, pos: nat, limit: nat) returns (evs: seq<Event>)
    requires Increasing(log) && limit > 0
    ensures var n := CountUpTo(log, pos);
            && n + |evs| <= |log| && evs == log[n..n + |evs|]
            && |evs| <= limit && (|evs| < limit ==> n + |evs| == |log|)
  {
    CountUpToMeans(log, pos);
    var n := CountUpTo(log, pos);
    var end := if n + limit <= |log| then n + limit else |log|;
    evs := log[n..end];
  }

  /** A runner that went by marker m and had handled `before` has applied log[first..done], and perhaps
      handled one row more without saving it. */
  ghost predicate Applied(
    m: nat, before: seq<Event>, log: seq<Event>, first: nat, done: nat, extra: seq<Event>, marker: nat,
    handled: seq<Event>)
  {
    && first <= done <= |log|
    && marker == Pass(m, log, first, done).marker
    && handled == before + Pass(m, log, first, done).handled + extra
    && Extra(extra, log, done)
  }

  lemma Regroup(a: seq<Event>, b: seq<Event>, c: seq<Event>, d: seq<Event>)
    ensures a + b + [] + c + d == a + (b + c) + d
  {
  }

  lemma ExtraMoves(extra: seq<Event>, log: seq<Event>, done: nat, evs: seq<Event>, n: nat)
    requires done + |evs| <= |log| && evs == log[done..done + |evs|] && Extra(extra, evs, n)
    ensures Extra(extra, log, done + n)
  {
  }

  lemma PageApplied(m: nat, before: seq<Event>, log: seq<Event>, first: nat, done: nat, marker: nat,
                    handled: seq<Event>,
                    evs: seq<Event>, n: nat, extra: seq<Event>, marker': nat, handled': seq<Event>)
    requires Applied(m, before, log, first, done, [], marker, handled)
    requires n <= |evs| && done + |evs| <= |log| && evs == log[done..done + |evs|]
    requires marker' == Pass(marker, evs, 0, n).marker && handled' == handled + Pass(marker, evs, 0, n).handled + extra
    requires Extra(extra, evs, n)
    ensures Applied(m, before, log, first, done + n, extra, marker', handled')
  {
    PassJoins(m, log, first, done, evs, n);
    ExtraMoves(extra, log, done, evs, n);
    Regroup(before, Pass(m, log, first, done).handled, Pass(marker, evs, 0, n).handled, extra);
  }

  method ReplayPage(r: Runner, ghost log: seq<Event>, ghost m: nat, ghost before: seq<Event>, ghost first: nat,
                    ghost done: nat,
                    evs: seq<Event>, fate: nat -> Fate)
    returns (n: nat, ghost extra: seq<Event>)
    requires Applied(m, before, log, first, done, [], r.Position(), r.handled)
    requires done + |evs| <= |log| && evs == log[done..done + |evs|]
    modifies r
    ensures n <= |evs| && (n == |evs| ==> extra == [])
    ensures n < |evs| ==> Refused(r.Position(), log[done + n], fate(n))
    ensures Applied(m, before, log, first, done + n, extra, r.Position(), r.handled)
  {
    ghost var marker, handled := r.Position(), r.handled;
    n, extra := r.ApplyBatch(evs, fate);
    PageApplied(m, before, log, first, done, marker, handled, evs, n, extra, r.Position(), r.handled);
  }

  /** A replay that did not succeed stopped at a page it could not read, or at a row a port refused. */
  ghost predicate Stopped(log: seq<Event>, pos: nat, page: nat, done: nat, extra: seq<Event>,
                          readable: nat -> bool, fate: (nat, nat) -> Fate, marker: nat)
  {
    || (!readable(page) && extra == [] && done == CountUpTo(log, pos))
    || (CountUpTo(log, pos) <= done < |log| && Refused(marker, log[done], fate(page, done - CountUpTo(log, pos))))
  }

  /** The cursor is where it began or at a row of the log. */
  ghost predicate AtRow(log: seq<Event>, from: nat, pos: nat) {
    from <= pos && (pos == from || (0 < CountUpTo(log, pos) <= |log| && log[CountUpTo(log, pos) - 1].pos == pos))
  }

  lemma DrainedAtFurthest(log: seq<Event>, from: nat, pos: nat)
    requires Increasing(log) && AtRow(log, from, pos) && CountUpTo(log, pos) == |log|
    ensures pos == Furthest(from, log, 0, |log|)
  {
    CountUpToMeans(log, pos);
  }

  /** The page loop's cursor after a page of which `done - CountUpTo(log, pos)` rows were applied. */
  ghost predicate Turned(log: seq<Event>, from: nat, pos: nat, pos': nat, done: nat, ok: bool, more: bool) {
    && AtRow(log, from, pos') && CountUpTo(log, pos) <= done <= |log|
    && (if ok then done == CountUpTo(log, pos') else pos' == pos && !more)
    && (more ==> CountUpTo(log, pos) < done)
    && (ok && !more ==> done == |log|)
  }

  lemma PageTurns(log: seq<Event>, from: nat, pos: nat, limit: nat, evs: seq<Event>, n: nat)
    requires Increasing(log) && limit > 0 && AtRow(log, from, pos)
    requires CountUpTo(log, pos) + |evs| <= |log| && evs == log[CountUpTo(log, pos)..CountUpTo(log, pos) + |evs|]
    requires n <= |evs| <= limit && (|evs| < limit ==> CountUpTo(log, pos) + |evs| == |log|)
    ensures Turned(log, from, pos, if n == |evs| && |evs| > 0 then evs[|evs| - 1].pos else pos,
                   CountUpTo(log, pos) + n, n == |evs|, n == |evs| && |evs| == limit)
  {
    if n == |evs| && |evs| > 0 {
      NextRow(log, from, pos, CountUpTo(log, pos) + |evs| - 1);
    }
  }

  /** One turn of the page loop: read, apply, move the cursor past a page applied in full. */
  method OnePage(r: Runner, log: seq<Event>, ghost from: nat, pos: nat, limit: nat, ghost m: nat,
                 ghost before: seq<Event>, ghost first: nat,
                 fate: nat -> Fate)
    returns (pos': nat, ok: bool, more: bool, ghost done: nat, ghost extra: seq<Event>)
    requires Increasing(log) && limit > 0 && AtRow(log, from, pos)
    requires Applied(m, before, log, first, CountUpTo(log, pos), [], r.Position(), r.handled)
    modifies r
    ensures Turned(log, from, pos, pos', done, ok, more) && (ok ==> extra == [])
    ensures !ok ==> done < |log| && Refused(r.Position(), log[done], fate(done - CountUpTo(log, pos)))
    ensures Applied(m, before, log, first, done, extra, r.Position(), r.handled)
  {
    var evs := ReadAll(log, pos, limit);
    ghost var at := CountUpTo(log, pos);
    var n;
    n, extra := ReplayPage(r, log, m, before, first, at, evs, fate);
    done := at + n;
    ok := n == |evs|;
    more := ok && |evs| == limit;
    pos' := if ok && |evs| > 0 then evs[|evs| - 1].pos else pos;
    PageTurns(log, from, pos, limit, evs, n);
  }

  /** Replay over Runner.Apply from an exclusive position: pages until a short one, or until a read or a
      batch fails. Returns the last position of the last page applied in full, and the page it stopped at. */
  method Replay(r: Runner, log: seq<Event>, from: nat, batch: int, readable: nat -> bool, fate: (nat, nat) -> Fate)
    returns (pos: nat, ok: bool, page: nat, ghost done: nat, ghost extra: seq<Event>)
    requires Increasing(log)
    modifies r
    ensures !ok ==> Stopped(log, pos, page, done, extra, readable, fate, r.Position())
    ensures Applied(old(r.Position()), old(r.handled), log, CountUpTo(log, from), done, extra, r.Position(), r.handled)
    ensures AtRow(log, from, pos) && CountUpTo(log, pos) <= done
    ensures ok ==> done == |log| && extra == [] && pos == Furthest(from, log, 0, |log|)
  {
    var limit: nat := if batch <= 0 then 500 else batch;
    pos, extra, ok := from, [], true;
    CountUpToMeans(log, from);
    ghost var first, m, before := CountUpTo(log, from), r.Position(), r.handled;
    done := first;
    assert Applied(m, before, log, first, done, [], m, before) by {
      assert before + [] + [] == before;
    }
    page := 0;
    var more := true;
    while more
      invariant !ok ==> Stopped(log, pos, page, done, extra, readable, fate, r.Position())
      invariant AtRow(log, from, pos) && CountUpTo(log, pos) <= done <= |log|
      invariant more ==> ok
      invariant ok ==> extra == [] && done == CountUpTo(log, pos)
      invariant !more && ok ==> done == |log|
      invariant Applied(m, before, log, first, done, extra, r.Position(), r.handled)
      decreases |log| - done, more
    {
      if !readable(page) {
        ok, more := false, false;
      } else {
        pos, ok, more, done, extra := OnePage(r, log, from, pos, limit, m, before, first, (i: nat) => fate(page, i));
        page := if ok then page + 1 else page;
      }
    }
    if ok {
      DrainedAtFurthest(log, from, pos);
    }
  }

  /** Rows at or below a position are not wanted past it, so a range may as well start above them. */
  lemma {:induction false} WantedFrom(rows: seq<Event>, lo: nat, hi: nat, after: nat)
    requires lo <= hi <= |rows| && forall i | 0 <= i < lo :: rows[i].pos <= after
    ensures Wanted(rows, lo, hi, after) == Wanted(rows, 0, hi, after)
    decreases hi
  {
    if lo < hi {
      WantedFrom(rows, lo, hi - 1, after);
    } else if hi > 0 {
      WantedFrom(rows, lo - 1, hi - 1, after);
    }
  }

  /** Rebuild: replay from position 0 through the runner's own marker. Every consumed row past that marker,
      up to where it got, was handled once and in log order; it gets through unless a read or a port
      fails. From a reset marker that is every consumed row. */
  method Rebuild(r: Runner, log: seq<Event>, batch: int, readable: nat -> bool, fate: (nat, nat) -> Fate)
    returns (pos: nat, ok: bool, page: nat, ghost done: nat, ghost extra: seq<Event>)
    requires Increasing(log)
    modifies r
    ensures done <= |log| && Extra(extra, log, done)
    ensures r.handled == old(r.handled) + Wanted(log, 0, done, old(r.Position())) + extra
    ensures r.Position() == Furthest(old(r.Position()), log, 0, done)
    ensures ok ==> done == |log| && extra == [] && pos == Furthest(0, log, 0, |log|)
    ensures !ok ==> Stopped(log, pos, page, done, extra, readable, fate, r.Position())
  {
    ghost var m, first := r.Position(), CountUpTo(log, 0);
    pos, ok, page, done, extra := Replay(r, log, 0, batch, readable, fate);
    CountUpToMeans(log, 0);
    PassIsWanted(m, log, first, done);
    WantedFrom(log, first, done, m);
  }

  // ---------------------------------------------------------------- LogFeed

  /** One attempt at an envelope of the live loop: whether the handler succeeds and what its save comes to. */
  datatype Try = Try(handles: bool, save: SaveResult)

  ghost predicate OnlyDelivers(steps: seq<Step>) {
    forall i | 0 <= i < |steps| :: steps[i].Deliver?
  }

  lemma RunOneMore(feed: seq<Event>, w: World, steps: seq<Step>, step: Step)
    ensures Run(feed, w, steps + [step]) == Next(feed, Run(feed, w, steps), step)
  {
    assert (steps + [step])[..|steps|] == steps;
  }

  function Delivery(t: Try): Step {
    Deliver(t.handles, t.save)
  }

  /** The steps of the first n tries. */
  function Deliveries(tries: seq<Try>, n: nat): seq<Step>
    requires n <= |tries|
  {
    if n == 0 then [] else Deliveries(tries, n - 1) + [Delivery(tries[n - 1])]
  }

  lemma {:induction false} DeliveriesDeliver(tries: seq<Try>, n: nat)
    requires n <= |tries|
    ensures OnlyDelivers(Deliveries(tries, n))
  {
    if n > 0 {
      DeliveriesDeliver(tries, n - 1);
    }
  }

  predicate TryAcks(marker: nat, e: Event, t: Try) {
    Apply(marker, e, t.handles, !t.save.Failed?).acked
  }

  /** n is how many of the tries are made: up to the first that is acknowledged, or all of them. */
  ghost predicate FirstAck(marker: nat, e: Event, tries: seq<Try>, n: nat, acked: bool) {
    && n <= |tries|
    && (if acked then 0 < n && AllRefused(marker, e, tries, n - 1) && TryAcks(marker, e, tries[n - 1])
        else n == |tries| && AllRefused(marker, e, tries, n))
  }

  ghost predicate AllRefused(marker: nat, e: Event, tries: seq<Try>, n: nat)
    requires n <= |tries|
  {
    forall i | 0 <= i < n :: !TryAcks(marker, e, tries[i])
  }

  lemma DeliveryMoves(feed: seq<Event>, w: World, t: Try)
    requires w.cursor < |feed|
    ensures var w', acked := Next(feed, w, Delivery(t)), TryAcks(w.marker, feed[w.cursor], t);
            w'.cursor == (if acked then w.cursor + 1 else w.cursor) && (!acked ==> w'.marker == w.marker)
  {
  }

  /** The inner loop: the same envelope again until it is acknowledged or the context ends. */
  method Handle(feed: seq<Event>, w: World, k: nat, tries: seq<Try>, ghost start: World, ghost before: seq<Step>)
    returns (w': World, acked: bool, ghost trace: seq<Step>, ghost n: nat)
    requires k < |feed| && w.cursor == k && w == Run(feed, start, before)
    ensures FirstAck(w.marker, feed[k], tries, n, acked)
    ensures trace == before + Deliveries(tries, n) && w' == Run(feed, start, trace)
    ensures w'.cursor == if acked then k + 1 else k
    ensures !acked ==> w'.marker == w.marker
  {
    w', acked, trace, n := w, false, before, 0;
    assert before + [] == before;
    for i := 0 to |tries|
      invariant n == i && trace == before + Deliveries(tries, i) && w' == Run(feed, start, trace)
      invariant w'.cursor == k && w'.marker == w.marker
      invariant AllRefused(w.marker, feed[k], tries, i)
    {
      var step := Delivery(tries[i]);
      var r := Apply(w'.marker, feed[k], tries[i].handles, !tries[i].save.Failed?);
      RunOneMore(feed, start, trace, step);
      DeliveryMoves(feed, w', tries[i]);
      assert trace + [step] == before + Deliveries(tries, i + 1);
      w', trace, n := Next(feed, w', step), trace + [step], i + 1;
      if r.acked {
        acked := true;
        return;
      }
    }
  }

  /** How far rounds of pages of up to limit rows get when every row is acknowledged. */
  function Reach(n: nat, limit: nat, visible: nat -> nat, total: nat, rounds: nat): nat {
    if rounds == 0 then n
    else PageEnd(Reach(n, limit, visible, total, rounds - 1), limit, visible(rounds - 1), total)
  }

  function PageEnd(n: nat, limit: nat, visible: nat, total: nat): nat {
    var end := if n + limit <= visible then n + limit else visible;
    var end' := if end <= total then end else total;
    if n <= end' then end' else n
  }

  /** Every try at the next row was refused, in some round. */
  ghost predicate GaveUp(feed: seq<Event>, w: World, tries: (nat, nat) -> seq<Try>, round: nat) {
    w.cursor < |feed| && AllRefused(w.marker, feed[w.cursor], tries(round, w.cursor), |tries(round, w.cursor)|)
  }

  /** LogFeed.Feed driving Runner.apply: page, handle each row until it is acknowledged, move the cursor,
      poll. Round k sees the first visible(k) rows. The loop is a run of deliveries in which the next
      row is always the one after its position, so what holds of all runs holds of it. It gets as far as
      its pages reach unless every try at a row is refused before the context ends. */
  method LogFeed(feed: seq<Event>, w: World, from: nat, batch: int, rounds: nat, visible: nat -> nat,
                 tries: (nat, nat) -> seq<Try>)
    returns (w': World, pos: nat, ended: bool, round: nat, ghost trace: seq<Step>)
    requires Increasing(feed) && w.cursor == CountUpTo(feed, from)
    ensures OnlyDelivers(trace) && w' == Run(feed, w, trace)
    ensures AtRow(feed, from, pos) && w'.cursor == CountUpTo(feed, pos)
    ensures !ended ==> w'.cursor == Reach(w.cursor, if batch <= 0 then 500 else batch, visible, |feed|, rounds)
    ensures ended ==> round < rounds && GaveUp(feed, w', tries, round)
  {
    var limit: nat := if batch <= 0 then 500 else batch;
    w', pos, ended, round, trace := w, from, false, 0, [];
    while round < rounds
      invariant round <= rounds && !ended
      invariant OnlyDelivers(trace) && w' == Run(feed, w, trace)
      invariant AtRow(feed, from, pos) && w'.cursor == CountUpTo(feed, pos)
      invariant w'.cursor == Reach(w.cursor, limit, visible, |feed|, round)
    {
      w', pos, ended, trace := FeedPage(feed, w', from, pos, limit, visible(round), (i: nat) => tries(round, i), w,
                                        trace);
      if ended {
        return;
      }
      round := round + 1;
    }
  }

  /** One page of LogFeed. */
  method FeedPage(feed: seq<Event>, w: World, ghost from: nat, pos: nat, limit: nat, visible: nat,
                  tries: nat -> seq<Try>,
                  ghost start: World, ghost before: seq<Step>)
    returns (w': World, pos': nat, ended: bool, ghost trace: seq<Step>)
    requires Increasing(feed) && w == Run(feed, start, before) && OnlyDelivers(before)
    requires AtRow(feed, from, pos) && w.cursor == CountUpTo(feed, pos)
    ensures OnlyDelivers(trace) && w' == Run(feed, start, trace)
    ensures AtRow(feed, from, pos') && w'.cursor == CountUpTo(feed, pos')
    ensures !ended ==> w'.cursor == PageEnd(w.cursor, limit, visible, |feed|)
    ensures ended ==> w'.cursor < |feed| && AllRefused(w'.marker, feed[w'.cursor], tries(w'.cursor), |tries(w'.cursor)|)
  {
    CountUpToMeans(feed, pos);
    w', pos', ended, trace := w, pos, false, before;
    var end := PageEnd(w.cursor, limit, visible, |feed|);
    for i := w.cursor to end
      invariant OnlyDelivers(trace) && w' == Run(feed, start, trace)
      invariant AtRow(feed, from, pos') && w'.cursor == CountUpTo(feed, pos') == i
    {
      var acked;
      ghost var n;
      w', acked, trace, n := Handle(feed, w', i, tries(i), start, trace);
      DeliveriesDeliver(tries(i), n);
      if !acked {
        ended := true;
        return;
      }
      NextRow(feed, from, pos', i);
      pos' := feed[i].pos;
    }
  }

  lemma NextRow(feed: seq<Event>, from: nat, pos: nat, i: nat)
    requires Increasing(feed) && AtRow(feed, from, pos) && CountUpTo(feed, pos) <= i < |feed|
    ensures AtRow(feed, from, feed[i].pos) && CountUpTo(feed, feed[i].pos) == i + 1
  {
    CountUpToMeans(feed, pos);
    CountUpToEvent(feed, i);
  }

  // ---------------------------------------------------------------- rebuild against live

  function EventsAt(feed: seq<Event>, at: seq<nat>): seq<Event>
    requires forall i | 0 <= i < |at| :: at[i] < |feed|
  {
    seq(|at|, i requires 0 <= i < |at| => feed[at[i]])
  }

  lemma {:induction false} ConsumedAreWanted(feed: seq<Event>, at: nat, end: nat)
    requires Increasing(feed) && CountUpTo(feed, at) <= end <= |feed|
    ensures var c := ConsumedIn(feed, CountUpTo(feed, at), end);
            (forall i | 0 <= i < |c| :: c[i] < end) && EventsAt(feed, c) == Wanted(feed, 0, end, at)
    decreases end
  {
    CountUpToMeans(feed, at);
    if end == CountUpTo(feed, at) {
      WantedFrom(feed, end, end, at);
    } else {
      ConsumedAreWanted(feed, at, end - 1);
    }
  }

  /** Whatever happened to a live projection that began at marker `at`, its first handler calls are what a
      rebuild from that marker over the rows it has reached would handle. */
  lemma RebuildMatchesLive(feed: seq<Event>, at: nat, w: World, steps: seq<Step>)
    requires Increasing(feed) && Init(feed, at, w)
    ensures var w' := Run(feed, w, steps);
            var firsts := Firsts(w'.dispatched);
            && w'.reached <= |feed| && (forall i | 0 <= i < |firsts| :: firsts[i] < |feed|)
            && EventsAt(feed, firsts) == Wanted(feed, 0, w'.reached, at)
            && EventsAt(feed, firsts) == Pass(at, feed, 0, w'.reached).handled
  {
    InvAlongRun(feed, at, w, steps);
    var reached := Run(feed, w, steps).reached;
    ConsumedAreWanted(feed, at, reached);
    PassIsWanted(at, feed, 0, reached);
  }
}
