/** Marker-deduplicated dispatch (projection/runner.go) under any at-least-once, in-order delivery with
    handler failures, failed and buffered marker saves, reconnects and crashes. */
module Projection {
  import opened Wrappers
  import Ascending

  datatype Event = Event(pos: nat, consumed: bool)

  /** What the feed delivers, in order. */
  ghost predicate Increasing(feed: seq<Event>) {
    forall i, j | 0 <= i < j < |feed| :: feed[i].pos < feed[j].pos
  }

  // ---------------------------------------------------------------- one envelope

  /** Whether the handler was called with success, whether the envelope is acknowledged, and the marker after. */
  datatype Effect = Effect(dispatched: bool, acked: bool, marker: nat)

  /** Runner.apply, given whether the handler succeeds and whether the marker save does. */
  function Apply(marker: nat, e: Event, handles: bool, saves: bool): Effect {
    if e.pos <= marker then Effect(false, true, marker)
    else if e.consumed && !handles then Effect(false, false, marker)
    else Effect(e.consumed, saves, if saves then e.pos else marker)
  }

  // ---------------------------------------------------------------- the marker port

  /** What a save came to. A failed save may still have reached the buffer or the disk. */
  datatype SaveResult = Buffered | Flushed | Failed(kept: Kept)
  datatype Kept = Nothing | InBuffer | OnDisk | Both

  /** A marker store: what survives a crash, what is buffered above it, and how many acknowledged saves
      only the buffer holds. A plain marker is one whose every save is Flushed or Failed. */
  datatype Port = Port(durable: nat, pending: Option<nat>, unflushed: nat)

  function Held(p: Port, pos: nat): nat {
    if p.pending.Some? && p.pending.value > pos then p.pending.value else pos
  }

  function SaveTo(p: Port, pos: nat, r: SaveResult): Port {
    match r
    case Buffered => Port(p.durable, Some(Held(p, pos)), p.unflushed + 1)
    case Flushed => Port(Held(p, pos), None, 0)
    case Failed(OnDisk) => Port(Held(p, pos), None, 0)
    case Failed(Both) => Port(Held(p, pos), Some(Held(p, pos)), 0)
    case Failed(InBuffer) => p.(pending := Some(Held(p, pos)))
    case Failed(Nothing) => p
  }

  /** The save reached the disk. */
  predicate Lands(r: SaveResult) {
    r.Flushed? || r == Failed(OnDisk) || r == Failed(Both)
  }

  /** The save is in the buffer. */
  predicate Waits(r: SaveResult) {
    r.Buffered? || r == Failed(InBuffer) || r == Failed(Both)
  }

  /** Writing the buffer out; a write that fails although it was made keeps its position buffered too. */
  function FlushPort(p: Port, kept: bool): Port {
    if p.pending.Some? then Port(p.pending.value, if kept then p.pending else None, 0) else p
  }

  // ---------------------------------------------------------------- the runs

  /** reached counts the feed events dealt with at least once, cursor is the next to deliver, dispatched
      lists the feed index of every successful handler call, and losses counts the saves that failed or
      that a crash lost. */
  datatype World = World(port: Port, marker: nat, reached: nat, cursor: nat, dispatched: seq<nat>, losses: nat)

  /** The feed may resume anywhere at or below what it has delivered and seen acknowledged. */
  datatype Step =
    | Deliver(handles: bool, save: SaveResult)
    | Flush(kept: bool)
    | Reconnect(to: nat)
    | Crash(to: nat)

  /** A delivery that gets as far as the marker save. */
  predicate Attempted(feed: seq<Event>, w: World, handles: bool)
    requires w.cursor < |feed|
  {
    feed[w.cursor].pos > w.marker && (!feed[w.cursor].consumed || handles)
  }

  function Delivered(feed: seq<Event>, w: World, handles: bool, save: SaveResult): World
    requires w.cursor < |feed|
  {
    var e := feed[w.cursor];
    var r := Apply(w.marker, e, handles, !save.Failed?);
    var attempted := Attempted(feed, w, handles);
    World(if attempted then SaveTo(w.port, e.pos, save) else w.port,
          r.marker,
          if attempted && w.cursor == w.reached then w.reached + 1 else w.reached,
          if r.acked then w.cursor + 1 else w.cursor,
          if r.dispatched then w.dispatched + [w.cursor] else w.dispatched,
          if attempted && save.Failed? then w.losses + 1 else w.losses)
  }

  function Next(feed: seq<Event>, w: World, step: Step): World {
    match step
    case Deliver(handles, save) => if w.cursor < |feed| then Delivered(feed, w, handles, save) else w
    case Flush(kept) => w.(port := FlushPort(w.port, kept))
    case Reconnect(to) => if to <= w.reached then w.(cursor := to) else w
    case Crash(to) =>
      if to <= w.reached
      then w.(port := Port(w.port.durable, None, 0), marker := w.port.durable, cursor := to,
              losses := w.losses + w.port.unflushed)
      else w
  }

  function Run(feed: seq<Event>, w: World, steps: seq<Step>): World {
    if steps == [] then w else Next(feed, Run(feed, w, steps[..|steps| - 1]), steps[|steps| - 1])
  }

  // ---------------------------------------------------------------- positions and indices

  function Positions(feed: seq<Event>): (r: seq<nat>)
    ensures |r| == |feed| && forall i | 0 <= i < |feed| :: r[i] == feed[i].pos
  {
    seq(|feed|, i requires 0 <= i < |feed| => feed[i].pos)
  }

  /** How many feed events lie at or below a position. */
  function CountUpTo(feed: seq<Event>, p: nat): (n: nat)
    ensures n <= |feed|
  {
    Ascending.CountUpTo(Positions(feed), p)
  }

  lemma CountUpToMeans(feed: seq<Event>, p: nat)
    requires Increasing(feed)
    ensures forall k | 0 <= k < |feed| :: feed[k].pos <= p <==> k < CountUpTo(feed, p)
  {
    Ascending.CountMeans(Positions(feed), p);
    assert forall k | 0 <= k < |feed| :: feed[k].pos == Positions(feed)[k];
  }

  lemma CountUpToEvent(feed: seq<Event>, k: nat)
    requires Increasing(feed) && k < |feed|
    ensures CountUpTo(feed, feed[k].pos) == k + 1
  {
    CountUpToMeans(feed, feed[k].pos);
    if k + 1 < |feed| {
      assert feed[k].pos < feed[k + 1].pos;
    }
  }

  lemma CountUpToGrows(feed: seq<Event>, p: nat, q: nat)
    requires Increasing(feed) && p <= q
    ensures CountUpTo(feed, p) <= CountUpTo(feed, q)
  {
    CountUpToMeans(feed, p);
    CountUpToMeans(feed, q);
    if CountUpTo(feed, p) > 0 {
      assert feed[CountUpTo(feed, p) - 1].pos <= q;
    }
  }

  // ---------------------------------------------------------------- first calls and repeats

  /** The indices of the consumed events in feed[from..end]. */
  function ConsumedIn(feed: seq<Event>, from: nat, end: nat): seq<nat>
    requires end <= |feed|
    decreases end
  {
    if end <= from then []
    else ConsumedIn(feed, from, end - 1) + if feed[end - 1].consumed then [end - 1] else []
  }

  /** The handler calls that go past every earlier one. */
  function Firsts(d: seq<nat>): seq<nat> {
    if d == [] then []
    else
      var f := Firsts(d[..|d| - 1]);
      if f == [] || f[|f| - 1] < d[|d| - 1] then f + [d[|d| - 1]] else f
  }

  lemma {:induction false} FirstsAreFewer(d: seq<nat>)
    ensures |Firsts(d)| <= |d|
    ensures |Firsts(d)| == |d| ==> Firsts(d) == d
  {
    if d != [] {
      FirstsAreFewer(d[..|d| - 1]);
    }
  }

  lemma {:induction false} ConsumedBelow(feed: seq<Event>, from: nat, end: nat)
    requires end <= |feed|
    ensures var s := ConsumedIn(feed, from, end); s != [] ==> s[|s| - 1] < end
    decreases end
  {
    if end > from {
      ConsumedBelow(feed, from, end - 1);
    }
  }

  lemma {:induction false} ConsumedReaches(feed: seq<Event>, from: nat, end: nat, c: nat)
    requires from <= c < end <= |feed| && feed[c].consumed
    ensures var s := ConsumedIn(feed, from, end); s != [] && c <= s[|s| - 1]
    decreases end
  {
    if c < end - 1 {
      ConsumedReaches(feed, from, end - 1, c);
    }
  }

  function Repeats(d: seq<nat>): int {
    |d| - |Firsts(d)|
  }

  /** i and b are the feed indices of the marker in memory and of the one a crash would restore. */
  ghost predicate Counted(w: World, i: nat, b: nat) {
    && Repeats(w.dispatched) + w.reached - i <= w.losses
    && Repeats(w.dispatched) + w.reached - b <= w.losses + w.port.unflushed
  }

  ghost predicate Placed(feed: seq<Event>, start: nat, w: World, i: nat, b: nat) {
    && start <= i <= w.reached && start <= b <= w.reached
    && w.cursor <= w.reached <= |feed|
    && (w.port.pending.Some? ==> i <= CountUpTo(feed, w.port.pending.value) <= w.reached)
  }

  ghost predicate Inv(feed: seq<Event>, start: nat, w: World) {
    var i, b := CountUpTo(feed, w.marker), CountUpTo(feed, w.port.durable);
    && Placed(feed, start, w, i, b)
    && Firsts(w.dispatched) == ConsumedIn(feed, start, w.reached)
    && Counted(w, i, b)
  }

  /** One delivery moves at most one event from not yet reached to repeated. */
  lemma DispatchGrows(feed: seq<Event>, start: nat, d: seq<nat>, c: nat, reached: nat)
    requires start <= c <= reached <= |feed| && c < |feed| && Firsts(d) == ConsumedIn(feed, start, reached)
    ensures var d' := if feed[c].consumed then d + [c] else d;
            var reached' := if c == reached then reached + 1 else reached;
            && Firsts(d') == ConsumedIn(feed, start, reached')
            && Repeats(d') + reached' <= Repeats(d) + reached + 1
  {
    if feed[c].consumed {
      assert (d + [c])[..|d|] == d;
      if c == reached {
        ConsumedBelow(feed, start, reached);
      } else {
        ConsumedReaches(feed, start, reached, c);
      }
    }
  }

  lemma PortMoves(feed: seq<Event>, w: World, k: nat, save: SaveResult)
    requires Increasing(feed) && k < |feed| && CountUpTo(feed, w.marker) <= k
    ensures var p := SaveTo(w.port, feed[k].pos, save);
            && CountUpTo(feed, feed[k].pos) == k + 1
            && (Waits(save) ==>
                  p.pending.Some?
                  && (CountUpTo(feed, p.pending.value) == k + 1
                      || (w.port.pending.Some?
                          && k + 1 <= CountUpTo(feed, p.pending.value) == CountUpTo(feed, w.port.pending.value))))
            && (if !Lands(save) then p.durable == w.port.durable else
                  CountUpTo(feed, p.durable) == k + 1
                  || (w.port.pending.Some?
                      && k + 1 <= CountUpTo(feed, p.durable) == CountUpTo(feed, w.port.pending.value)))
  {
    CountUpToEvent(feed, k);
    CountUpToGrows(feed, feed[k].pos, Held(w.port, feed[k].pos));
  }

  lemma AttemptPlaces(feed: seq<Event>, start: nat, w: World, handles: bool, save: SaveResult)
    requires Increasing(feed) && Inv(feed, start, w) && w.cursor < |feed| && Attempted(feed, w, handles)
    ensures var w' := Delivered(feed, w, handles, save);
            Placed(feed, start, w', CountUpTo(feed, w'.marker), CountUpTo(feed, w'.port.durable))
  {
    CountUpToMeans(feed, w.marker);
    PortMoves(feed, w, w.cursor, save);
  }

  /** What a save does to the two markers' indices and to the counters. */
  lemma AttemptMoves(feed: seq<Event>, w: World, handles: bool, save: SaveResult)
    requires Increasing(feed) && w.cursor < |feed| && Attempted(feed, w, handles)
             && CountUpTo(feed, w.marker) <= w.cursor
    ensures var w' := Delivered(feed, w, handles, save);
            var i, b := CountUpTo(feed, w'.marker), CountUpTo(feed, w'.port.durable);
            && i == (if save.Failed? then CountUpTo(feed, w.marker) else w.cursor + 1)
            && w'.losses == w.losses + (if save.Failed? then 1 else 0)
            && (if Lands(save)
                then b >= w.cursor + 1 && w'.port.unflushed == 0
                else w'.port.durable == w.port.durable
                     && w'.port.unflushed == w.port.unflushed + if save.Buffered? then 1 else 0)
  {
    PortMoves(feed, w, w.cursor, save);
  }

  /** The arithmetic of one save: sum counts the repeats and the events reached. */
  lemma Tally(save: SaveResult, sum: int, sum': int, i: nat, b: nat, c: nat, i': nat, b': nat, losses: nat,
              unflushed: nat)
    requires sum - i <= losses && sum - b <= losses + unflushed && i <= c && sum' <= sum + 1
    requires i' == if save.Failed? then i else c + 1
    requires if Lands(save) then b' >= c + 1 else b' == b
    ensures var losses' := losses + if save.Failed? then 1 else 0;
            var unflushed' := if Lands(save) then 0 else unflushed + if save.Buffered? then 1 else 0;
            sum' - i' <= losses' && sum' - b' <= losses' + unflushed'
  {
  }

  lemma AttemptDispatches(feed: seq<Event>, start: nat, w: World, handles: bool, save: SaveResult)
    requires w.cursor < |feed| && Attempted(feed, w, handles) && start <= w.cursor <= w.reached <= |feed|
    requires Firsts(w.dispatched) == ConsumedIn(feed, start, w.reached)
    ensures var w' := Delivered(feed, w, handles, save);
            && Firsts(w'.dispatched) == ConsumedIn(feed, start, w'.reached)
            && Repeats(w'.dispatched) + w'.reached <= Repeats(w.dispatched) + w.reached + 1
  {
    var w' := Delivered(feed, w, handles, save);
    assert w'.dispatched == if feed[w.cursor].consumed then w.dispatched + [w.cursor] else w.dispatched;
    assert w'.reached == if w.cursor == w.reached then w.reached + 1 else w.reached;
    DispatchGrows(feed, start, w.dispatched, w.cursor, w.reached);
  }

  lemma AttemptCounts(feed: seq<Event>, start: nat, w: World, handles: bool, save: SaveResult)
    requires Increasing(feed) && Inv(feed, start, w) && w.cursor < |feed| && Attempted(feed, w, handles)
    ensures var w' := Delivered(feed, w, handles, save);
            && Firsts(w'.dispatched) == ConsumedIn(feed, start, w'.reached)
            && Counted(w', CountUpTo(feed, w'.marker), CountUpTo(feed, w'.port.durable))
  {
    var w' := Delivered(feed, w, handles, save);
    CountUpToMeans(feed, w.marker);
    AttemptMoves(feed, w, handles, save);
    AttemptDispatches(feed, start, w, handles, save);
    Tally(save, Repeats(w.dispatched) + w.reached, Repeats(w'.dispatched) + w'.reached,
          CountUpTo(feed, w.marker), CountUpTo(feed, w.port.durable), w.cursor,
          CountUpTo(feed, w'.marker), CountUpTo(feed, w'.port.durable), w.losses, w.port.unflushed);
  }

  lemma DeliverKeeps(feed: seq<Event>, start: nat, w: World, handles: bool, save: SaveResult)
    requires Increasing(feed) && Inv(feed, start, w) && w.cursor < |feed|
    ensures Inv(feed, start, Delivered(feed, w, handles, save))
  {
    if Attempted(feed, w, handles) {
      AttemptPlaces(feed, start, w, handles, save);
      AttemptCounts(feed, start, w, handles, save);
    } else {
      CountUpToMeans(feed, w.marker);
      assert Delivered(feed, w, handles, save) == w.(cursor := Delivered(feed, w, handles, save).cursor);
    }
  }

  lemma InvKept(feed: seq<Event>, start: nat, w: World, step: Step)
    requires Increasing(feed) && Inv(feed, start, w)
    ensures Inv(feed, start, Next(feed, w, step))
  {
    if step.Deliver? && w.cursor < |feed| {
      DeliverKeeps(feed, start, w, step.handles, step.save);
    }
  }

  /** A projection whose durable marker is `at`, on a feed that will not skip past it. */
  ghost predicate Init(feed: seq<Event>, at: nat, w: World) {
    && w.port == Port(at, None, 0) && w.marker == at && w.dispatched == [] && w.losses == 0
    && w.reached == CountUpTo(feed, at) && w.cursor <= w.reached
  }

  lemma {:induction false} InvAlongRun(feed: seq<Event>, at: nat, w: World, steps: seq<Step>)
    requires Increasing(feed) && Init(feed, at, w)
    ensures Inv(feed, CountUpTo(feed, at), Run(feed, w, steps))
  {
    CountUpToMeans(feed, at);
    if steps != [] {
      InvAlongRun(feed, at, w, steps[..|steps| - 1]);
      InvKept(feed, CountUpTo(feed, at), Run(feed, w, steps[..|steps| - 1]), steps[|steps| - 1]);
    }
  }

  /** In every run the handler's first calls are exactly the consumed events past the marker, in log order
      and none skipped up to where the run has got; nothing at or below the marker or the durable marker
      is missing from them; and there are at most as many repeats as failed or lost saves. */
  lemma DispatchFollowsTheLog(feed: seq<Event>, at: nat, w: World, steps: seq<Step>)
    requires Increasing(feed) && Init(feed, at, w)
    ensures var w' := Run(feed, w, steps);
            && w'.reached <= |feed|
            && Firsts(w'.dispatched) == ConsumedIn(feed, CountUpTo(feed, at), w'.reached)
            && |w'.dispatched| - |Firsts(w'.dispatched)| <= w'.losses
            && (forall k | 0 <= k < |feed| && (feed[k].pos <= w'.marker || feed[k].pos <= w'.port.durable) ::
                k < w'.reached)
  {
    InvAlongRun(feed, at, w, steps);
    CountUpToMeans(feed, Run(feed, w, steps).marker);
    CountUpToMeans(feed, Run(feed, w, steps).port.durable);
  }

  /** With no save lost, dispatch is exactly once. */
  lemma ExactlyOnceWithoutLosses(feed: seq<Event>, at: nat, w: World, steps: seq<Step>)
    requires Increasing(feed) && Init(feed, at, w) && Run(feed, w, steps).losses == 0
    ensures var w' := Run(feed, w, steps);
            w'.reached <= |feed| && w'.dispatched == ConsumedIn(feed, CountUpTo(feed, at), w'.reached)
  {
    DispatchFollowsTheLog(feed, at, w, steps);
    FirstsAreFewer(Run(feed, w, steps).dispatched);
  }
}
