/** A whole run of the delivery protocol in which a checked acknowledgement lands after a takeover. */
module TakeoverRun {
  import opened Wrappers
  import opened EventLog
  import opened Paging
  import opened FeedDelivery

  /** One event of a consumed type, committed at position 1 before the run begins. */
  function OneEvent(): World {
    World(Fence.Sys(Fence.Db(2, 1, 1, map[], map[1 := Row("w", "t", [])]), map[]),
          None, L.State(None, 0), map[], {}, [])
  }

  function OneEventConfig(): Config {
    Config("w", {"t"}, Limits(10, 0, 0), 10, 30)
  }

  function FencedSys(): Fence.Sys {
    Fence.Sys(Fence.Db(3, 2, 1, map[], map[1 := Row("w", "t", [])]),
              map[0 := Fence.Reader(0, 0, Fence.Unlocked, Some(1), {1})])
  }

  /** The reader's round: it opens, draws its fence and is given the bound 1. */
  function OpenSteps(): seq<Step> {
    [Log(Fence.Open(0)), Log(Fence.Enter(0, 0)), Log(Fence.ReadLast(0))]
  }

  function CloseSteps(): seq<Step> {
    [Log(Fence.DrawFence(0, 7)), Log(Fence.AbortFence(0)), Log(Fence.CheckFresh(0))]
  }

  function FenceSteps(): seq<Step> {
    OpenSteps() + CloseSteps()
  }

  /** Stream 0 of "a" subscribes and resumes. */
  function SubscribeSteps(): seq<Step> {
    [Subscribe(0, "a", ""), LoadCheckpoint(0), SeeHead(0, 1)]
  }

  /** It reads, handles and claims the event. */
  function HandleSteps(): seq<Step> {
    [ReadPage(0, 1, Page([Event1()], false)), Deliver(0), ClaimTick(0)]
  }

  /** It passes its holder check; then its lease runs out and stream 1 of "b" takes the key. */
  function TakeoverSteps(): seq<Step> {
    [CheckHolder(0, 0), Clock(30), Subscribe(1, "b", "")]
  }

  lemma InStages(c: Config, w0: World, a: seq<Step>, w1: World, b: seq<Step>, w2: World, d: seq<Step>, w3: World,
                 e: seq<Step>)
    requires Run(c, w0, a) == w1 && Run(c, w1, b) == w2 && Run(c, w2, d) == w3
    ensures Run(c, w0, a + b + d + e) == Run(c, w3, e)
    ensures forall step :: Run(c, w0, a + b + d + e + [step]) == Next(c, Run(c, w3, e), step)
  {
    RunConcat(c, w0, a, b);
    RunConcat(c, w0, a + b, d);
    RunConcat(c, w0, a + b + d, e);
    forall step
      ensures Run(c, w0, a + b + d + e + [step]) == Next(c, Run(c, w3, e), step)
    {
      var all := a + b + d + e;
      assert (all + [step])[..|all|] == all;
    }
  }

  lemma RunThree(c: Config, w: World, x: Step, y: Step, z: Step)
    ensures Run(c, w, [x, y, z]) == Next(c, Next(c, Next(c, w, x), y), z)
  {
    assert Run(c, w, [x]) == Next(c, w, x) by {
      assert [x][..0] == [];
    }
    assert Run(c, w, [x, y]) == Next(c, Next(c, w, x), y) by {
      assert [x, y][..1] == [x];
    }
    assert [x, y, z][..2] == [x, y];
  }

  lemma FenceOpens()
    ensures var sys := OneEvent().sys;
            Fence.Next(Fence.Next(Fence.Next(sys, Fence.Open(0)), Fence.Enter(0, 0)), Fence.ReadLast(0)) ==
            sys.(readers := map[0 := Fence.Reader(0, 0, Fence.HaveLast(0, 1), None, {})])
  {
    var sys := OneEvent().sys;
    var atOpen := Fence.Next(sys, Fence.Open(0));
    assert atOpen.readers == map[0 := Fence.Reader(0, 0, Fence.Unlocked, None, {})];
    var entered := Fence.Next(atOpen, Fence.Enter(0, 0));
    assert entered.readers == map[0 := Fence.Reader(0, 0, Fence.Entered(0), None, {})];
    assert Fence.Next(entered, Fence.ReadLast(0)).readers ==
           map[0 := Fence.Reader(0, 0, Fence.HaveLast(0, 1), None, {})];
  }

  lemma FenceCloses()
    ensures var sys := OneEvent().sys.(readers := map[0 := Fence.Reader(0, 0, Fence.HaveLast(0, 1), None, {})]);
            Fence.Next(Fence.Next(Fence.Next(sys, Fence.DrawFence(0, 7)), Fence.AbortFence(0)),
                       Fence.CheckFresh(0)) == FencedSys()
  {
    var sys := OneEvent().sys.(readers := map[0 := Fence.Reader(0, 0, Fence.HaveLast(0, 1), None, {})]);
    Fence.RunDbTwo(sys.db, Fence.Begin(7), Fence.DrawXid(7));
    var drawn := Fence.Next(sys, Fence.DrawFence(0, 7));
    assert drawn.db == sys.db.(nextXid := 3, running := map[7 := Fence.Tx(Some(2), {}, map[])]);
    assert drawn.readers == map[0 := Fence.Reader(0, 0, Fence.HaveXid(0, 1, 2, 7), None, {})];
    Fence.RunDbOne(drawn.db, Fence.Abort(7));
    var closed := Fence.Next(drawn, Fence.AbortFence(0));
    assert closed.db.running == map[];
    assert closed == Fence.Sys(FencedSys().db, map[0 := Fence.Reader(0, 0, Fence.HaveFence(0, 1, 2), None, {})]);
    var cleared := Fence.Next(closed, Fence.CheckFresh(0));
    assert cleared.readers[0] == Fence.Reader(0, 0, Fence.Unlocked, Some(1), {1});
    assert cleared.readers == FencedSys().readers;
  }

  /** The world once the fence has cleared. */
  lemma AfterFence(c: Config, w: World, steps: seq<Step>)
    requires w == OneEvent() && steps == FenceSteps()
    ensures Run(c, w, steps) == w.(sys := FencedSys())
  {
    RunConcat(c, w, OpenSteps(), CloseSteps());
    RunThree(c, w, Log(Fence.Open(0)), Log(Fence.Enter(0, 0)), Log(Fence.ReadLast(0)));
    FenceOpens();
    var mid := w.(sys := w.sys.(readers := map[0 := Fence.Reader(0, 0, Fence.HaveLast(0, 1), None, {})]));
    RunThree(c, mid, Log(Fence.DrawFence(0, 7)), Log(Fence.AbortFence(0)), Log(Fence.CheckFresh(0)));
    FenceCloses();
  }

  function Event1(): Entry {
    Entry(1, Row("w", "t", []))
  }

  /** Stream 0 in phase Streaming with the given page, events sent and windows. */
  function Stream0(pos: nat, buf: seq<Entry>, sent: seq<nat>, windows: seq<Window>, tickAck: Option<nat>): Attempt {
    Attempt("a", Streaming, pos, buf, sent, if sent == [] then 0 else sent[|sent| - 1], 0, windows, None, tickAck,
            false)
  }

  function Streaming0(): World {
    World(FencedSys(), None, L.State(Some(L.Lease("a", "", 30)), 0), map[0 := Stream0(0, [], [], [], None)], {}, [])
  }

  function Claimed0(): World {
    Streaming0().(attempts := map[0 := Stream0(1, [], [1], [Window(0, 1, 1, Claimed)], Some(0))], handled := {1})
  }

  lemma Stream0Starts()
    ensures var c, w := OneEventConfig(), OneEvent().(sys := FencedSys());
            Next(c, Next(c, Next(c, w, Subscribe(0, "a", "")), LoadCheckpoint(0)), SeeHead(0, 1)) == Streaming0()
  {
    var c, w := OneEventConfig(), OneEvent().(sys := FencedSys());
    var subscribed := Next(c, w, Subscribe(0, "a", ""));
    assert subscribed.attempts == map[0 := Attempt("a", Acquired, 0, [], [], 0, 0, [], None, None, false)];
    var loaded := Next(c, subscribed, LoadCheckpoint(0));
    assert loaded.attempts == map[0 := Attempt("a", Resuming, 0, [], [], 0, 0, [], None, None, false)];
    assert Next(c, loaded, SeeHead(0, 1)).attempts == Streaming0().attempts;
  }

  /** Stream 0 with the event read, and with it handled. */
  function Page0(): World {
    Streaming0().(attempts := map[0 := Stream0(0, [Event1()], [], [], None)])
  }

  function Handled0(): World {
    Streaming0().(attempts := map[0 := Stream0(1, [], [1], [], None).(count := 1)], handled := {1})
  }

  lemma Stream0Reads()
    ensures Next(OneEventConfig(), Streaming0(), ReadPage(0, 1, Page([Event1()], false))) == Page0()
  {
    var c, w := OneEventConfig(), Streaming0();
    assert RowsIn(w.sys.db.log, c.Scope(), 0, 0) == [];
    assert RowsIn(w.sys.db.log, c.Scope(), 0, 1) == [Event1()];
    assert Next(c, w, ReadPage(0, 1, Page([Event1()], false))).attempts == Page0().attempts;
  }

  lemma Stream0Handles()
    ensures Next(OneEventConfig(), Page0(), Deliver(0)) == Handled0()
  {
    var sent := Next(OneEventConfig(), Page0(), Deliver(0));
    assert [Event1()][1..] == [] && [] + [1] == [1];
    assert sent.attempts[0] == Handled0().attempts[0];
    assert sent.attempts == Handled0().attempts && sent.handled == {1};
  }

  lemma Stream0Claims()
    ensures Next(OneEventConfig(), Handled0(), ClaimTick(0)) == Claimed0()
  {
    var claimed := Next(OneEventConfig(), Handled0(), ClaimTick(0));
    assert [] + [Window(0, 1, 1, Claimed)] == [Window(0, 1, 1, Claimed)];
    assert claimed.attempts[0] == Claimed0().attempts[0];
    assert claimed.attempts == Claimed0().attempts;
  }

  lemma AfterSubscribe(c: Config, w: World, steps: seq<Step>)
    requires c == OneEventConfig() && w == OneEvent().(sys := FencedSys()) && steps == SubscribeSteps()
    ensures Run(c, w, steps) == Streaming0()
  {
    RunThree(c, w, Subscribe(0, "a", ""), LoadCheckpoint(0), SeeHead(0, 1));
    Stream0Starts();
  }

  lemma AfterClaim(c: Config, w: World, steps: seq<Step>)
    requires c == OneEventConfig() && w == Streaming0() && steps == HandleSteps()
    ensures Run(c, w, steps) == Claimed0()
  {
    RunThree(c, w, ReadPage(0, 1, Page([Event1()], false)), Deliver(0), ClaimTick(0));
    Stream0Reads();
    Stream0Handles();
    Stream0Claims();
  }

  lemma AfterTakeover(c: Config, w: World, steps: seq<Step>)
    requires c == OneEventConfig() && w == Claimed0() && steps == TakeoverSteps()
    ensures var taken, landed := Run(c, w, steps), Next(c, Run(c, w, steps), SaveAck(0, 0));
            && 0 in taken.attempts && taken.attempts[0].owner == "a" && !L.CanRenew(taken.lease.lease, "a")
            && L.CanRenew(taken.lease.lease, "b") && Position(taken.cp) == 0 && Position(landed.cp) == 1
  {
    RunThree(c, w, CheckHolder(0, 0), Clock(30), Subscribe(1, "b", ""));
    CheckedAckLandsAfterTakeover(c, w, 0, 0, 1, "b");
  }

  /** One run from a fresh subscription in which the key changes hands between the holder check and the
      save: "b" holds it, the checkpoint is still 0, and the save of "a" then moves it to 1. */
  lemma TakeoverMovesTheCheckpoint() returns (c: Config, start: World, steps: seq<Step>)
    ensures Init(start)
    ensures var taken, landed := Run(c, start, steps), Run(c, start, steps + [SaveAck(0, 0)]);
            && 0 in taken.attempts && taken.attempts[0].owner == "a" && !L.CanRenew(taken.lease.lease, "a")
            && L.CanRenew(taken.lease.lease, "b") && Position(taken.cp) == 0 && Position(landed.cp) == 1
  {
    c, start := OneEventConfig(), OneEvent();
    var fence, subscribe, handle, take := FenceSteps(), SubscribeSteps(), HandleSteps(), TakeoverSteps();
    steps := fence + subscribe + handle + take;
    var fenced := start.(sys := FencedSys());
    AfterFence(c, start, fence);
    AfterSubscribe(c, fenced, subscribe);
    AfterClaim(c, Streaming0(), handle);
    AfterTakeover(c, Claimed0(), take);
    InStages(c, start, fence, fenced, subscribe, Streaming0(), handle, Claimed0(), take);
  }
}
