/** Delivery end to end: the feed server's stream loop (feed/server.go), the consumer's ack window
    (eventfeed/eventfeed.go), the lease and checkpoint rows, and the fenced Postgres log underneath, all
    interleaved step by step with crashes, reconnects, takeovers, same-owner overlap, late
    saves and operator resets. One subscription key under one definition. */
module FeedDelivery {
  import opened Wrappers
  import opened EventLog
  import opened Paging
  import Fence = HorizonFence
  import L = Leases

  /** lim holds the page limits the server settled on, window the consumer's own ack window; the server
      may cut the page size a consumer asks for, so neither bounds the other. */
  datatype Config = Config(ws: string, types: set<string>, lim: Limits, window: nat, ttl: nat)
  {
    function Scope(): EventLog.Scope {
      Types(ws, types)
    }
  }

  /** A claimed ack window sent[lo..hi] and how far its acknowledgement got. */
  datatype Stage = Claimed | Checked | Stored | Rejected

  datatype Window = Window(lo: nat, hi: nat, pos: nat, stage: Stage)

  datatype Phase = Acquired | Resuming | AheadOfHead(head: nat) | Streaming | Ended

  /** One subscription attempt: the server's stream (phase, pos, buf) and the consumer's window
      (sent, pending, count, and the windows claimed so far). pageAck and tickAck are the
      windows whose acknowledgement Send and the tick loop are waiting for. */
  datatype Attempt = Attempt(
    owner: string, phase: Phase, pos: nat, buf: seq<Entry>,
    sent: seq<nat>, pending: nat, count: nat, windows: seq<Window>,
    pageAck: Option<nat>, tickAck: Option<nat>, released: bool)

  /** excused records the ranges (lo, hi] an operator moved the checkpoint over on purpose. */
  datatype World = World(
    sys: Fence.Sys, cp: Option<nat>, lease: L.State, attempts: map<nat, Attempt>,
    handled: set<nat>, excused: seq<(nat, nat)>)

  datatype Step =
    | Log(step: Fence.Step)
    | Clock(d: nat)
    | Subscribe(a: nat, owner: string, consumer: string)
    | LoadCheckpoint(a: nat)
    | SeeHead(a: nat, bound: nat)
    | SeeRawHead(a: nat)
    | ReadPage(a: nat, bound: nat, page: Page)
    | Deliver(a: nat)
    | ClaimPage(a: nat)
    | ClaimTick(a: nat)
    | CheckHolder(a: nat, k: nat)
    | SaveAck(a: nat, k: nat)
    | Renew(a: nat)
    | End(a: nat)
    | Release(a: nat)
    | Reset(position: nat)
    | Delete

  function Position(cp: Option<nat>): nat {
    if cp.Some? then cp.value else 0
  }

  function RawHead(c: Config, w: World): nat {
    HeadAt(w.sys.db.log, Workspace(c.ws), w.sys.db.seqLast)
  }

  predicate HasGrant(w: World, a: nat, bound: nat) {
    a in w.sys.readers && bound in w.sys.readers[a].granted
  }

  // ---------------------------------------------------------------- the steps

  /** Claim: take the whole current window, if there is one. */
  function Claim(t: Attempt): Attempt
    requires 0 < t.count
  {
    var lo := if t.count <= |t.sent| then |t.sent| - t.count else 0;
    t.(windows := t.windows + [Window(lo, |t.sent|, t.pending, Claimed)], count := 0)
  }

  function SetStage(t: Attempt, k: nat, stage: Stage): Attempt
    requires k < |t.windows|
  {
    t.(windows := t.windows[k := t.windows[k].(stage := stage)])
  }

  /** A waiting caller learns its acknowledgement was rejected: Send fails the stream, the tick loop cancels it. */
  function Resolve(t: Attempt, k: nat, ok: bool): Attempt {
    var mine := t.pageAck == Some(k) || t.tickAck == Some(k);
    var cleared := t.(pageAck := if t.pageAck == Some(k) then None else t.pageAck,
                      tickAck := if t.tickAck == Some(k) then None else t.tickAck);
    if mine && !ok then cleared.(phase := Ended) else cleared
  }

  function DeliverTo(t: Attempt): Attempt
    requires t.buf != []
  {
    t.(pos := t.buf[0].pos, buf := t.buf[1..], sent := t.sent + [t.buf[0].pos], pending := t.buf[0].pos,
       count := t.count + 1)
  }

  /** Steps of the server's stream: resume, page reads, renewal, end and release. */
  ghost function StreamNext(c: Config, w: World, t: Attempt, step: Step): (t': Attempt)
    ensures t'.sent == t.sent && t'.pending == t.pending && t'.count == t.count && t'.windows == t.windows
    ensures t'.owner == t.owner
  {
    match step
    case LoadCheckpoint(_) =>
      if t.phase == Acquired then t.(phase := Resuming, pos := Position(w.cp)) else t
    case SeeHead(a, bound) =>
      if t.phase == Resuming && HasGrant(w, a, bound) then
        var head := Fence.Head(w.sys.db, c.ws, bound);
        if t.pos <= head then t.(phase := Streaming) else t.(phase := AheadOfHead(head))
      else t
    case SeeRawHead(_) =>
      if t.phase.AheadOfHead? then
        if RawHead(c, w) < t.pos then t.(phase := Streaming, pos := t.phase.head) else t.(phase := Resuming)
      else t
    case ReadPage(a, bound, page) =>
      if CanRead(c, w, t, a, bound, page) then t.(buf := page.rows) else t
    case Renew(_) =>
      if t.phase != Ended && !L.CanRenew(w.lease.lease, t.owner) then t.(phase := Ended) else t
    case End(_) => t.(phase := Ended)
    case Release(_) => if t.phase == Ended then t.(released := true) else t
    case _ => t
  }

  ghost predicate CanRead(c: Config, w: World, t: Attempt, a: nat, bound: nat, page: Page) {
    && t.phase == Streaming && t.buf == [] && HasGrant(w, a, bound) && t.pos < bound
    && IsPage(RowsIn(w.sys.db.log, c.Scope(), t.pos, bound), c.lim, page)
  }

  /** Steps of the consumer's ack window: handle, claim, holder check, save. */
  function WindowNext(c: Config, w: World, t: Attempt, step: Step): (t': Attempt)
    ensures t'.owner == t.owner && t'.released == t.released
    ensures t'.phase == t.phase || t'.phase == Ended
    ensures !step.Deliver? ==> t'.pos == t.pos && t'.buf == t.buf && t'.sent == t.sent && t'.pending == t.pending
  {
    match step
    case Deliver(_) => if CanDeliver(c, t) then DeliverTo(t) else t
    case ClaimPage(_) =>
      if t.pageAck.None? && 0 < t.count && c.window <= t.count
      then Claim(t).(pageAck := Some(|t.windows|)) else t
    case ClaimTick(_) =>
      if t.tickAck.None? && 0 < t.count then Claim(t).(tickAck := Some(|t.windows|)) else t
    case CheckHolder(_, k) =>
      if k < |t.windows| && t.windows[k].stage == Claimed then
        if L.Holds(w.lease.lease, w.lease.now, t.owner) then SetStage(t, k, Checked)
        else Resolve(SetStage(t, k, Rejected), k, false)
      else t
    case SaveAck(_, k) =>
      if CanSave(t, k) then Resolve(SetStage(t, k, Stored), k, true) else t
    case _ => t
  }

  predicate OfWindow(step: Step) {
    step.Deliver? || step.ClaimPage? || step.ClaimTick? || step.CheckHolder? || step.SaveAck?
  }

  ghost function AttemptNext(c: Config, w: World, t: Attempt, step: Step): Attempt {
    if OfWindow(step) then WindowNext(c, w, t, step) else StreamNext(c, w, t, step)
  }

  /** The rows of a page are sent one after the other whatever became of the stream meanwhile: a
      stream that lost its lease still handles, counts and acknowledges the rest of its page. */
  predicate CanDeliver(c: Config, t: Attempt) {
    t.buf != [] && t.pageAck.None? && t.count < c.window
  }

  predicate CanSave(t: Attempt, k: nat) {
    k < |t.windows| && t.windows[k].stage == Checked
  }

  ghost function LeaseNext(c: Config, w: World, step: Step): L.State {
    match step
    case Clock(d) => L.Next(w.lease, L.Tick(d), c.ttl)
    case Subscribe(a, owner, consumer) =>
      if a in w.attempts then w.lease else L.Next(w.lease, L.AcquireBy(owner, consumer), c.ttl)
    case Renew(a) =>
      if a in w.attempts && w.attempts[a].phase != Ended
      then L.Next(w.lease, L.RenewBy(w.attempts[a].owner), c.ttl) else w.lease
    case Release(a) =>
      if a in w.attempts && w.attempts[a].phase == Ended && !w.attempts[a].released
      then L.Next(w.lease, L.ReleaseBy(w.attempts[a].owner), c.ttl) else w.lease
    case _ => w.lease
  }

  function ExcusedNext(w: World, step: Step): seq<(nat, nat)> {
    match step
    case Reset(position) =>
      if position > Position(w.cp) then w.excused + [(Position(w.cp), position)] else w.excused
    case _ => w.excused
  }

  function CheckpointNext(w: World, step: Step): Option<nat> {
    match step
    case SaveAck(a, k) =>
      if a in w.attempts && CanSave(w.attempts[a], k)
      then Some(Larger(Position(w.cp), w.attempts[a].windows[k].pos)) else w.cp
    case Reset(position) => Some(position)
    case Delete => None
    case _ => w.cp
  }

  function HandledNext(c: Config, w: World, step: Step): set<nat> {
    match step
    case Deliver(a) =>
      if a in w.attempts && CanDeliver(c, w.attempts[a]) then w.handled + {w.attempts[a].buf[0].pos} else w.handled
    case _ => w.handled
  }

  predicate OfAttempt(step: Step) {
    !step.Log? && !step.Clock? && !step.Subscribe? && !step.Reset? && !step.Delete?
  }

  ghost function AttemptsNext(c: Config, w: World, step: Step): map<nat, Attempt> {
    if step.Subscribe? && step.a !in w.attempts && L.CanAcquire(w.lease.lease, w.lease.now, step.owner) then
      w.attempts[step.a := Attempt(step.owner, Acquired, 0, [], [], 0, 0, [], None, None, false)]
    else if OfAttempt(step) && step.a in w.attempts then
      w.attempts[step.a := AttemptNext(c, w, w.attempts[step.a], step)]
    else w.attempts
  }

  ghost function Next(c: Config, w: World, step: Step): World {
    World(if step.Log? then Fence.Next(w.sys, step.step) else w.sys,
          CheckpointNext(w, step), LeaseNext(c, w, step), AttemptsNext(c, w, step),
          HandledNext(c, w, step), ExcusedNext(w, step))
  }

  ghost function Run(c: Config, w: World, steps: seq<Step>): World {
    if steps == [] then w else Next(c, Run(c, w, steps[..|steps| - 1]), steps[|steps| - 1])
  }

  lemma {:induction false} RunConcat(c: Config, w: World, a: seq<Step>, b: seq<Step>)
    ensures Run(c, w, a + b) == Run(c, Run(c, w, a), b)
    decreases |b|
  {
    if b == [] {
      assert a + b == a;
    } else {
      assert (a + b)[..|a + b| - 1] == a + b[..|b| - 1];
      RunConcat(c, w, a, b[..|b| - 1]);
    }
  }

  ghost predicate Init(w: World) {
    && Fence.Init(w.sys)
    && w.cp == None && w.attempts == map[] && w.handled == {} && w.excused == []
  }

  // ---------------------------------------------------------------- what a position owes

  ghost predicate SettledAt(db: Fence.Db, p: nat) {
    && 0 < p <= db.seqLast
    && forall s | s in db.running :: p !in db.running[s].drawn
  }

  predicate Excused(w: World, p: nat) {
    exists i :: 0 <= i < |w.excused| && w.excused[i].0 < p <= w.excused[i].1
  }

  predicate Consumed(c: Config, w: World, p: nat) {
    p in w.sys.db.log && c.Scope().Matches(w.sys.db.log[p])
  }

  /** Nothing more is owed for position p: an operator skipped it, or it can no longer change and,
      if it carries a matching event, that event was handled. */
  ghost predicate Done(c: Config, w: World, p: nat) {
    Excused(w, p) || (SettledAt(w.sys.db, p) && (Consumed(c, w, p) ==> p in w.handled))
  }

  ghost predicate Covered(c: Config, w: World, q: nat) {
    forall p | 0 < p <= q :: Done(c, w, p)
  }

  /** The rows still to be sent are exactly the matching rows after pos up to the last of them. */
  ghost predicate BufOk(c: Config, w: World, t: Attempt) {
    t.buf != [] ==>
      var end := t.buf[|t.buf| - 1].pos;
      && Fence.SettledTo(w.sys.db, end)
      && t.buf == RowsIn(w.sys.db.log, c.Scope(), t.pos, end)
  }

  function EndOf(windows: seq<Window>): nat {
    if windows == [] then 0 else windows[|windows| - 1].hi
  }

  /** The windows cut sent[..EndOf(windows)] into consecutive non-empty pieces, each standing for its last event. */
  ghost predicate Pieces(windows: seq<Window>, sent: seq<nat>) {
    windows == [] ||
    (var init, last := windows[..|windows| - 1], windows[|windows| - 1];
     && Pieces(init, sent)
     && last.lo == EndOf(init)
     && last.lo < last.hi <= |sent|
     && last.pos == sent[last.hi - 1])
  }

  /** The claimed windows are the handled events cut into pieces; the rest is the current window. */
  ghost predicate WindowsOk(c: Config, t: Attempt) {
    && t.count <= |t.sent| && t.count <= c.window
    && (t.sent != [] ==> t.pending == t.sent[|t.sent| - 1])
    && Pieces(t.windows, t.sent)
    && EndOf(t.windows) + t.count == |t.sent|
  }

  ghost predicate AttemptOk(c: Config, w: World, t: Attempt) {
    && Covered(c, w, t.pos)
    && BufOk(c, w, t)
    && (forall i | 0 <= i < |t.sent| :: Covered(c, w, t.sent[i]))
    && WindowsOk(c, t)
    && (t.phase.AheadOfHead? ==> t.phase.head < t.pos)
    && (t.phase == Streaming || t.phase == Ended || t.buf == [])
  }

  ghost predicate Inv(c: Config, w: World) {
    && Fence.Inv(w.sys)
    && Covered(c, w, Position(w.cp))
    && forall a | a in w.attempts :: AttemptOk(c, w, w.attempts[a])
  }

  // ---------------------------------------------------------------- what growth keeps

  ghost predicate DbGrows(db: Fence.Db, db': Fence.Db) {
    && db.seqLast <= db'.seqLast
    && Extends(db.log, db'.log)
    && forall p | SettledAt(db, p) :: SettledAt(db', p) && (p in db'.log ==> p in db.log)
  }

  ghost predicate Grows(w: World, w': World) {
    && DbGrows(w.sys.db, w'.sys.db)
    && w.handled <= w'.handled
    && w.excused <= w'.excused
  }

  lemma DbStepGrows(db: Fence.Db, step: Fence.DbStep)
    requires Fence.DbInv(db)
    ensures DbGrows(db, Fence.DbNext(db, step))
  {
    Fence.DbInvKept(db, step);
    var db' := Fence.DbNext(db, step);
    forall p | SettledAt(db, p)
      ensures SettledAt(db', p) && (p in db'.log ==> p in db.log)
    {
      if Fence.Enabled(db, step) && step.Commit? {
        assert Fence.TxOk(db, db.running[step.s]);
      }
    }
  }

  lemma {:induction false} DbRunGrows(db: Fence.Db, steps: seq<Fence.DbStep>)
    requires Fence.DbInv(db)
    ensures DbGrows(db, Fence.RunDb(db, steps))
    decreases |steps|
  {
    if steps != [] {
      DbStepGrows(db, steps[0]);
      Fence.DbInvKept(db, steps[0]);
      DbRunGrows(Fence.DbNext(db, steps[0]), steps[1..]);
    }
  }

  lemma LogStepGrows(sys: Fence.Sys, step: Fence.Step)
    requires Fence.Inv(sys)
    ensures DbGrows(sys.db, Fence.Next(sys, step).db)
    ensures Fence.Inv(Fence.Next(sys, step))
  {
    Fence.InvKept(sys, step);
    DbRunGrows(sys.db, Fence.DbPart(sys, step));
    DbRunGrows(sys.db, []);
  }

  lemma DoneGrows(c: Config, w: World, w': World, p: nat)
    requires Grows(w, w') && Done(c, w, p)
    ensures Done(c, w', p)
  {
    if Excused(w, p) {
      var i :| 0 <= i < |w.excused| && w.excused[i].0 < p <= w.excused[i].1;
      assert w'.excused[i] == w.excused[i];
    }
  }

  lemma CoveredGrows(c: Config, w: World, w': World, q: nat)
    requires Grows(w, w') && Covered(c, w, q)
    ensures Covered(c, w', q)
  {
    forall p | 0 < p <= q
      ensures Done(c, w', p)
    {
      DoneGrows(c, w, w', p);
    }
  }

  lemma SettledToMeans(db: Fence.Db, q: nat)
    requires Fence.DbInv(db)
    ensures Fence.SettledTo(db, q) <==> q <= db.seqLast && forall p | 0 < p <= q :: SettledAt(db, p)
  {
    if q <= db.seqLast && forall p | 0 < p <= q :: SettledAt(db, p) {
      forall s, p: nat | Fence.Owns(db, s, p)
        ensures p > q
      {
        assert Fence.TxOk(db, db.running[s]);
        assert p <= q ==> SettledAt(db, p);
      }
    }
    if Fence.SettledTo(db, q) {
      forall p: nat | 0 < p <= q
        ensures SettledAt(db, p)
      {
        forall s | s in db.running
          ensures p !in db.running[s].drawn
        {
          assert Fence.Owns(db, s, p) <==> p in db.running[s].drawn;
        }
      }
    }
  }

  lemma BufGrows(c: Config, w: World, w': World, t: Attempt)
    requires Fence.DbInv(w.sys.db) && Fence.DbInv(w'.sys.db)
    requires Grows(w, w') && BufOk(c, w, t)
    ensures BufOk(c, w', t)
  {
    if t.buf != [] {
      var end := t.buf[|t.buf| - 1].pos;
      SettledToMeans(w.sys.db, end);
      SettledToMeans(w'.sys.db, end);
      forall q | q <= end
        ensures (q in w.sys.db.log <==> q in w'.sys.db.log)
                && (q in w.sys.db.log ==> w.sys.db.log[q] == w'.sys.db.log[q])
      {
        if q > 0 {
          assert SettledAt(w.sys.db, q);
        }
      }
      RowsInAgrees(w.sys.db.log, w'.sys.db.log, c.Scope(), t.pos, end);
    }
  }

  lemma AttemptGrows(c: Config, w: World, w': World, t: Attempt)
    requires Fence.DbInv(w.sys.db) && Fence.DbInv(w'.sys.db)
    requires Grows(w, w') && AttemptOk(c, w, t)
    ensures AttemptOk(c, w', t)
  {
    CoveredGrows(c, w, w', t.pos);
    BufGrows(c, w, w', t);
    forall i | 0 <= i < |t.sent|
      ensures Covered(c, w', t.sent[i])
    {
      CoveredGrows(c, w, w', t.sent[i]);
    }
  }

  // ---------------------------------------------------------------- every step keeps the invariant

  lemma StepGrows(c: Config, w: World, step: Step)
    requires Inv(c, w)
    ensures Grows(w, Next(c, w, step))
    ensures Fence.Inv(Next(c, w, step).sys)
  {
    if step.Log? {
      LogStepGrows(w.sys, step.step);
    }
  }

  /** A page read inside a granted bound is the next stretch of matching rows, and it is settled. */
  lemma PageBecomesBuf(c: Config, w: World, t: Attempt, a: nat, bound: nat, page: Page)
    requires Inv(c, w) && HasGrant(w, a, bound) && t.pos < bound
    requires IsPage(RowsIn(w.sys.db.log, c.Scope(), t.pos, bound), c.lim, page)
    ensures BufOk(c, w, t.(buf := page.rows))
  {
    if page.rows != [] {
      PageCoversItsRange(w.sys.db.log, c.Scope(), t.pos, bound, c.lim, page);
      var end := CursorAfter(t.pos, page);
      assert Fence.ReaderOk(w.sys.db, w.sys.readers[a]);
      Fence.CommittedInsideGranted(w.sys.db, bound, end);
    }
  }

  /** The first buffered event is the first matching row after pos. */
  lemma FirstOfBuf(c: Config, w: World, t: Attempt)
    requires BufOk(c, w, t) && t.buf != []
    ensures var log, scope, next, end := w.sys.db.log, c.Scope(), t.buf[0].pos, t.buf[|t.buf| - 1].pos;
            && t.pos < next <= end
            && RowsIn(log, scope, t.pos, next) == [t.buf[0]]
            && t.buf[1..] == RowsIn(log, scope, next, end)
  {
    var log, scope := w.sys.db.log, c.Scope();
    var next, end := t.buf[0].pos, t.buf[|t.buf| - 1].pos;
    PrefixIsRange(log, scope, t.pos, end, 1);
    assert t.buf[..1] == [t.buf[0]];
    RowsInSplits(log, scope, t.pos, next, end);
  }

  lemma OnlyRowIsDone(c: Config, w: World, pos: nat, e: Entry, p: nat)
    requires pos < p <= e.pos && RowsIn(w.sys.db.log, c.Scope(), pos, e.pos) == [e]
    requires SettledAt(w.sys.db, p) && e.pos in w.handled
    ensures Done(c, w, p)
  {
    if Consumed(c, w, p) {
      assert Entry(p, w.sys.db.log[p]) in RowsIn(w.sys.db.log, c.Scope(), pos, e.pos);
    }
  }

  /** Handling the next buffered event covers everything up to it. */
  lemma DeliverCovers(c: Config, w: World, t: Attempt)
    requires Fence.DbInv(w.sys.db) && BufOk(c, w, t) && Covered(c, w, t.pos) && t.buf != [] && t.buf[0].pos in w.handled
    ensures Covered(c, w, t.buf[0].pos)
  {
    FirstOfBuf(c, w, t);
    SettledToMeans(w.sys.db, t.buf[|t.buf| - 1].pos);
    forall p | 0 < p <= t.buf[0].pos
      ensures Done(c, w, p)
    {
      if p > t.pos {
        OnlyRowIsDone(c, w, t.pos, t.buf[0], p);
      }
    }
  }

  /** ... and leaves the rest of the page. */
  lemma DeliverLeavesRest(c: Config, w: World, t: Attempt)
    requires BufOk(c, w, t) && t.buf != []
    ensures BufOk(c, w, DeliverTo(t))
  {
    FirstOfBuf(c, w, t);
    var rest := t.buf[1..];
    if rest != [] {
      assert rest[|rest| - 1] == t.buf[|t.buf| - 1];
    }
  }

  lemma {:induction false} PiecesExtend(windows: seq<Window>, sent: seq<nat>, p: nat)
    requires Pieces(windows, sent)
    ensures Pieces(windows, sent + [p])
    ensures EndOf(windows) <= |sent|
  {
    if windows != [] {
      PiecesExtend(windows[..|windows| - 1], sent, p);
    }
  }

  lemma {:induction false} PiecesStage(windows: seq<Window>, sent: seq<nat>, k: nat, stage: Stage)
    requires Pieces(windows, sent) && k < |windows|
    ensures Pieces(windows[k := windows[k].(stage := stage)], sent)
    ensures EndOf(windows[k := windows[k].(stage := stage)]) == EndOf(windows)
  {
    var n := |windows| - 1;
    var changed := windows[k := windows[k].(stage := stage)];
    if k < n {
      PiecesStage(windows[..n], sent, k, stage);
      assert changed[..n] == windows[..n][k := windows[..n][k].(stage := stage)];
    } else {
      assert changed[..n] == windows[..n];
    }
  }

  lemma ClaimOk(c: Config, t: Attempt)
    requires WindowsOk(c, t) && 0 < t.count
    ensures WindowsOk(c, Claim(t))
  {
    var t' := Claim(t);
    assert t'.windows[..|t.windows|] == t.windows;
  }

  lemma DeliverKeepsWindows(c: Config, t: Attempt)
    requires WindowsOk(c, t) && CanDeliver(c, t)
    ensures WindowsOk(c, DeliverTo(t))
  {
    PiecesExtend(t.windows, t.sent, t.buf[0].pos);
  }

  lemma WindowsKept(c: Config, w: World, t: Attempt, step: Step)
    requires WindowsOk(c, t)
    ensures WindowsOk(c, WindowNext(c, w, t, step))
  {
    match step {
      case Deliver(_) =>
        if CanDeliver(c, t) {
          DeliverKeepsWindows(c, t);
        }
      case ClaimPage(_) => ClaimStepOk(c, w, t, step);
      case ClaimTick(_) => ClaimStepOk(c, w, t, step);
      case CheckHolder(_, k) => StageStepOk(c, w, t, step, k);
      case SaveAck(_, k) => StageStepOk(c, w, t, step, k);
      case _ =>
    }
  }

  lemma ClaimStepOk(c: Config, w: World, t: Attempt, step: Step)
    requires WindowsOk(c, t) && (step.ClaimPage? || step.ClaimTick?)
    ensures WindowsOk(c, WindowNext(c, w, t, step))
  {
    if 0 < t.count {
      ClaimOk(c, t);
    }
  }

  lemma StageStepOk(c: Config, w: World, t: Attempt, step: Step, k: nat)
    requires WindowsOk(c, t) && (step.CheckHolder? || step.SaveAck?) && step.k == k
    ensures WindowsOk(c, WindowNext(c, w, t, step))
  {
    if k < |t.windows| {
      var stage := if step.SaveAck? then Stored else if L.Holds(w.lease.lease, w.lease.now, t.owner) then Checked
        else Rejected;
      PiecesStage(t.windows, t.sent, k, stage);
    }
  }

  lemma WindowStepOk(c: Config, w: World, t: Attempt, step: Step)
    requires AttemptOk(c, w, t) && OfWindow(step) && !step.Deliver?
    ensures AttemptOk(c, w, WindowNext(c, w, t, step))
  {
    WindowsKept(c, w, t, step);
  }

  lemma StreamKeepsPlace(c: Config, w: World, t: Attempt, step: Step)
    requires Inv(c, w) && AttemptOk(c, w, t)
    ensures Covered(c, w, StreamNext(c, w, t, step).pos) && BufOk(c, w, StreamNext(c, w, t, step))
  {
    if step.ReadPage? && CanRead(c, w, t, step.a, step.bound, step.page) {
      PageBecomesBuf(c, w, t, step.a, step.bound, step.page);
    }
  }

  lemma StreamStepOk(c: Config, w: World, t: Attempt, step: Step)
    requires Inv(c, w) && AttemptOk(c, w, t)
    ensures AttemptOk(c, w, StreamNext(c, w, t, step))
  {
    StreamKeepsPlace(c, w, t, step);
    assert StreamNext(c, w, t, step).sent == t.sent;
    assert WindowsOk(c, StreamNext(c, w, t, step));
  }

  /** Everything about the stepping attempt except a delivery. */
  lemma AttemptStepOk(c: Config, w: World, step: Step)
    requires Inv(c, w) && OfAttempt(step) && !step.Deliver? && step.a in w.attempts
    ensures AttemptOk(c, w, AttemptNext(c, w, w.attempts[step.a], step))
  {
    var t := w.attempts[step.a];
    assert AttemptOk(c, w, t);
    if OfWindow(step) {
      WindowStepOk(c, w, t, step);
    } else {
      StreamStepOk(c, w, t, step);
    }
  }

  lemma DeliveredOk(c: Config, w: World, t: Attempt)
    requires Fence.DbInv(w.sys.db) && AttemptOk(c, w, t) && CanDeliver(c, t) && t.buf[0].pos in w.handled
    ensures AttemptOk(c, w, DeliverTo(t))
  {
    DeliverKeepsWindows(c, t);
    DeliverLeavesRest(c, w, t);
    DeliverCovers(c, w, t);
  }

  lemma DeliverStepOk(c: Config, w: World, a: nat)
    requires Inv(c, w) && a in w.attempts
    ensures var w' := Next(c, w, Deliver(a)); AttemptOk(c, w', w'.attempts[a])
  {
    var t := w.attempts[a];
    var w' := Next(c, w, Deliver(a));
    assert AttemptOk(c, w, t);
    StepGrows(c, w, Deliver(a));
    AttemptGrows(c, w, w', t);
    if CanDeliver(c, t) {
      DeliveredOk(c, w', t);
    }
  }

  /** A window only ever acknowledges a covered position. */
  lemma {:induction false} WindowIsCovered(windows: seq<Window>, sent: seq<nat>, k: nat)
    requires Pieces(windows, sent) && k < |windows|
    ensures windows[k].pos in sent
  {
    var n := |windows| - 1;
    if k < n {
      WindowIsCovered(windows[..n], sent, k);
    }
  }

  lemma CheckpointStaysCovered(c: Config, w: World, step: Step)
    requires Inv(c, w)
    ensures var w' := Next(c, w, step); Covered(c, w', Position(w'.cp))
  {
    var w' := Next(c, w, step);
    StepGrows(c, w, step);
    CoveredGrows(c, w, w', Position(w.cp));
    match step {
      case SaveAck(a, k) =>
        if a in w.attempts && CanSave(w.attempts[a], k) {
          var t := w.attempts[a];
          assert AttemptOk(c, w, t);
          WindowIsCovered(t.windows, t.sent, k);
          var i :| 0 <= i < |t.sent| && t.sent[i] == t.windows[k].pos;
          CoveredGrows(c, w, w', t.sent[i]);
        }
      case Reset(position) =>
        if position > Position(w.cp) {
          forall p | Position(w.cp) < p <= position
            ensures Done(c, w', p)
          {
            assert w'.excused[|w.excused|] == (Position(w.cp), position);
          }
        }
      case _ =>
    }
  }

  lemma InvKept(c: Config, w: World, step: Step)
    requires Inv(c, w)
    ensures Inv(c, Next(c, w, step))
  {
    var w' := Next(c, w, step);
    StepGrows(c, w, step);
    CheckpointStaysCovered(c, w, step);
    forall a | a in w'.attempts
      ensures AttemptOk(c, w', w'.attempts[a])
    {
      if a in w.attempts && (!OfAttempt(step) || step.a != a) {
        AttemptGrows(c, w, w', w.attempts[a]);
      } else if a in w.attempts && step.Deliver? {
        DeliverStepOk(c, w, a);
      } else if a in w.attempts {
        AttemptStepOk(c, w, step);
        AttemptGrows(c, w, w', w'.attempts[a]);
      }
    }
  }

  lemma {:induction false} InvAlongRun(c: Config, w: World, steps: seq<Step>)
    requires Init(w)
    ensures Inv(c, Run(c, w, steps))
  {
    if steps != [] {
      InvAlongRun(c, w, steps[..|steps| - 1]);
      InvKept(c, Run(c, w, steps[..|steps| - 1]), steps[|steps| - 1]);
    }
  }

  // ---------------------------------------------------------------- the guarantees

  /** At least once, over every run: each committed matching event at or below the stored
      checkpoint was handled successfully, unless an operator moved the checkpoint over it. */
  lemma AtLeastOnce(c: Config, w: World, steps: seq<Step>, p: nat)
    requires Init(w)
    requires Consumed(c, Run(c, w, steps), p) && p <= Position(Run(c, w, steps).cp)
    ensures p in Run(c, w, steps).handled || Excused(Run(c, w, steps), p)
  {
    InvAlongRun(c, w, steps);
    var now := Run(c, w, steps);
    assert 0 < p;
    assert Done(c, now, p);
  }

  // ---------------------------------------------------------------- resume never clamps

  ghost predicate Reached(c: Config, w: World, q: nat) {
    q <= RawHead(c, w)
  }

  ghost predicate ReachedOf(c: Config, w: World, t: Attempt) {
    && Reached(c, w, t.pos)
    && forall i | 0 <= i < |t.sent| :: Reached(c, w, t.sent[i])
  }

  /** As long as no operator moved the checkpoint forward, every position in play was committed. */
  ghost predicate ReachedInv(c: Config, w: World) {
    w.excused == [] ==>
      && Reached(c, w, Position(w.cp))
      && forall a | a in w.attempts :: ReachedOf(c, w, w.attempts[a])
  }

  lemma RawHeadGrows(c: Config, w: World, w': World)
    requires DbGrows(w.sys.db, w'.sys.db)
    ensures RawHead(c, w) <= RawHead(c, w')
  {
  }

  lemma CommittedIsReached(c: Config, w: World, p: nat)
    requires Fence.DbInv(w.sys.db) && Consumed(c, w, p)
    ensures Reached(c, w, p)
  {
  }

  lemma ReachedOfGrows(c: Config, w: World, w': World, t: Attempt)
    requires ReachedOf(c, w, t) && RawHead(c, w) <= RawHead(c, w')
    ensures ReachedOf(c, w', t)
  {
  }

  lemma ReachedDelivery(c: Config, w: World, t: Attempt)
    requires Fence.DbInv(w.sys.db) && BufOk(c, w, t) && ReachedOf(c, w, t) && t.buf != []
    ensures ReachedOf(c, w, DeliverTo(t))
  {
    assert t.buf[0] in RowsIn(w.sys.db.log, c.Scope(), t.pos, t.buf[|t.buf| - 1].pos);
    CommittedIsReached(c, w, t.buf[0].pos);
  }

  lemma ReachedStream(c: Config, w: World, t: Attempt, step: Step)
    requires ReachedOf(c, w, t) && Reached(c, w, Position(w.cp))
    ensures ReachedOf(c, w, StreamNext(c, w, t, step))
  {
  }

  lemma ReachedAttempt(c: Config, w: World, step: Step)
    requires Inv(c, w) && ReachedInv(c, w) && w.excused == [] && OfAttempt(step) && step.a in w.attempts
    ensures ReachedOf(c, w, AttemptNext(c, w, w.attempts[step.a], step))
  {
    var t := w.attempts[step.a];
    assert AttemptOk(c, w, t) && ReachedOf(c, w, t);
    if !OfWindow(step) {
      ReachedStream(c, w, t, step);
    } else if step.Deliver? && CanDeliver(c, t) {
      ReachedDelivery(c, w, t);
    }
  }

  lemma ReachedCheckpoint(c: Config, w: World, step: Step)
    requires Inv(c, w) && ReachedInv(c, w) && Next(c, w, step).excused == []
    ensures Reached(c, w, Position(Next(c, w, step).cp))
  {
    assert w.excused == [];
    if step.SaveAck? && step.a in w.attempts && CanSave(w.attempts[step.a], step.k) {
      var t := w.attempts[step.a];
      assert AttemptOk(c, w, t) && ReachedOf(c, w, t);
      WindowIsCovered(t.windows, t.sent, step.k);
    }
  }

  lemma ReachedKept(c: Config, w: World, step: Step)
    requires Inv(c, w) && ReachedInv(c, w)
    ensures ReachedInv(c, Next(c, w, step))
  {
    var w' := Next(c, w, step);
    if w'.excused == [] {
      assert w.excused == [];
      StepGrows(c, w, step);
      RawHeadGrows(c, w, w');
      ReachedCheckpoint(c, w, step);
      forall a | a in w'.attempts
        ensures ReachedOf(c, w', w'.attempts[a])
      {
        if OfAttempt(step) && step.a == a {
          ReachedAttempt(c, w, step);
          ReachedOfGrows(c, w, w', w'.attempts[a]);
        } else if a in w.attempts {
          ReachedOfGrows(c, w, w', w.attempts[a]);
        }
      }
    }
  }

  lemma {:induction false} ReachedAlongRun(c: Config, w: World, steps: seq<Step>)
    requires Init(w)
    ensures ReachedInv(c, Run(c, w, steps))
  {
    if steps != [] {
      ReachedAlongRun(c, w, steps[..|steps| - 1]);
      InvAlongRun(c, w, steps[..|steps| - 1]);
      ReachedKept(c, Run(c, w, steps[..|steps| - 1]), steps[|steps| - 1]);
    }
  }

  /** On an append-only log whose checkpoint only acknowledgements and rewinds ever set, the resume
      loop never clamps: a head below the checkpoint is always a blocked fence, and the stream
      starts exactly at the position it loaded. */
  lemma ResumeNeverClamps(c: Config, w: World, steps: seq<Step>, a: nat)
    requires Init(w)
    requires Run(c, w, steps).excused == [] && a in Run(c, w, steps).attempts
    ensures var now := Run(c, w, steps);
            && now.attempts[a].pos <= RawHead(c, now)
            && Next(c, now, SeeRawHead(a)).attempts[a].pos == now.attempts[a].pos
            && (now.attempts[a].phase.AheadOfHead? ==> Next(c, now, SeeRawHead(a)).attempts[a].phase == Resuming)
  {
    ReachedAlongRun(c, w, steps);
    assert ReachedOf(c, Run(c, w, steps), Run(c, w, steps).attempts[a]);
  }

  /** From the load on, the attempt stands at the checkpoint it read until it sends. */
  ghost predicate AtLoaded(w: World, a: nat, loaded: nat) {
    && a in w.attempts && w.attempts[a].phase != Acquired
    && (w.attempts[a].sent == [] ==> w.attempts[a].pos == loaded)
  }

  lemma AtLoadedStays(c: Config, w: World, step: Step, a: nat, loaded: nat)
    requires ReachedInv(c, w) && w.excused == [] && AtLoaded(w, a, loaded)
    ensures AtLoaded(Next(c, w, step), a, loaded)
  {
    assert ReachedOf(c, w, w.attempts[a]);
  }

  lemma {:induction false} AtLoadedAlongRun(c: Config, start: World, steps: seq<Step>, more: seq<Step>, a: nat,
                                            loaded: nat)
    requires Init(start) && AtLoaded(Run(c, start, steps), a, loaded) && Run(c, start, steps + more).excused == []
    ensures AtLoaded(Run(c, start, steps + more), a, loaded)
    decreases |more|
  {
    if more == [] {
      assert steps + more == steps;
    } else {
      var init := more[..|more| - 1];
      assert (steps + more)[..|steps + more| - 1] == steps + init;
      AtLoadedAlongRun(c, start, steps, init, a, loaded);
      ReachedAlongRun(c, start, steps + init);
      AtLoadedStays(c, Run(c, start, steps + init), more[|more| - 1], a, loaded);
    }
  }

  /** Whatever else happens, as long as no operator moved the checkpoint forward, a stream begins exactly at
      the checkpoint it loaded: that is its position until it sends its first event. */
  lemma StreamStartsAtTheCheckpoint(c: Config, start: World, steps: seq<Step>, more: seq<Step>, a: nat)
    requires Init(start) && a in Run(c, start, steps).attempts && Run(c, start, steps).attempts[a].phase == Acquired
    requires Run(c, start, steps + [LoadCheckpoint(a)] + more).excused == []
    ensures AtLoaded(Run(c, start, steps + [LoadCheckpoint(a)] + more), a, Position(Run(c, start, steps).cp))
  {
    var before, load := Run(c, start, steps), steps + [LoadCheckpoint(a)];
    assert load[..|steps|] == steps;
    AtLoadedAlongRun(c, start, load, more, a, Position(before.cp));
  }

  // ---------------------------------------------------------------- the ack window

  /** Events in windows whose acknowledgement is at one of these stages. */
  function EventsAt(windows: seq<Window>, stages: set<Stage>): nat {
    if windows == [] then 0
    else
      var last := windows[|windows| - 1];
      EventsAt(windows[..|windows| - 1], stages) +
      (if last.stage in stages && last.lo <= last.hi then last.hi - last.lo else 0)
  }

  lemma {:induction false} PiecesAddUp(windows: seq<Window>, sent: seq<nat>)
    requires Pieces(windows, sent)
    ensures EndOf(windows) == EventsAt(windows, {Stored}) + EventsAt(windows, {Claimed, Checked})
                              + EventsAt(windows, {Rejected})
  {
    if windows != [] {
      PiecesAddUp(windows[..|windows| - 1], sent);
      var stage := windows[|windows| - 1].stage;
      assert stage == Claimed || stage == Checked || stage == Stored || stage == Rejected;
    }
  }

  lemma {:induction false} PiecesAreDisjoint(windows: seq<Window>, sent: seq<nat>, i: nat, j: nat)
    requires Pieces(windows, sent) && i < j < |windows|
    ensures windows[i].hi <= windows[j].lo
  {
    var n := |windows| - 1;
    if j < n {
      PiecesAreDisjoint(windows[..n], sent, i, j);
    } else if i < n - 1 {
      PiecesAreDisjoint(windows[..n], sent, i, n - 1);
      PiecesAreOrdered(windows[..n], sent, n - 1);
    }
  }

  lemma {:induction false} PiecesAreOrdered(windows: seq<Window>, sent: seq<nat>, k: nat)
    requires Pieces(windows, sent) && k < |windows|
    ensures windows[k].lo < windows[k].hi <= |sent| && windows[k].pos == sent[windows[k].hi - 1]
  {
    if k < |windows| - 1 {
      PiecesAreOrdered(windows[..|windows| - 1], sent, k);
    }
  }

  /** All handled events are accounted for, in disjoint windows that each stand for their last event. */
  ghost predicate Conserved(c: Config, t: Attempt) {
    && |t.sent| == EventsAt(t.windows, {Stored}) + EventsAt(t.windows, {Claimed, Checked})
                   + EventsAt(t.windows, {Rejected}) + t.count
    && t.count <= c.window
    && (forall i, j | 0 <= i < j < |t.windows| :: t.windows[i].hi <= t.windows[j].lo)
    && (forall k | 0 <= k < |t.windows| ::
          t.windows[k].lo < t.windows[k].hi <= |t.sent| && t.windows[k].pos == t.sent[t.windows[k].hi - 1])
  }

  lemma WindowsConserve(c: Config, t: Attempt)
    requires WindowsOk(c, t)
    ensures Conserved(c, t)
  {
    PiecesAddUp(t.windows, t.sent);
    forall i, j | 0 <= i < j < |t.windows|
      ensures t.windows[i].hi <= t.windows[j].lo
    {
      PiecesAreDisjoint(t.windows, t.sent, i, j);
    }
    forall k | 0 <= k < |t.windows|
      ensures t.windows[k].lo < t.windows[k].hi <= |t.sent| && t.windows[k].pos == t.sent[t.windows[k].hi - 1]
    {
      PiecesAreOrdered(t.windows, t.sent, k);
    }
  }

  /** Conservation over every run: the events an attempt handled are the acknowledged ones, plus
      those in claimed windows still in flight, plus those rejected, plus the current count; racing
      page, tick and stream-end acks always claim disjoint windows, each acknowledging its own
      last event. */
  lemma AckWindowConservation(c: Config, w: World, steps: seq<Step>, a: nat)
    requires Init(w) && a in Run(c, w, steps).attempts
    ensures Conserved(c, Run(c, w, steps).attempts[a])
  {
    InvAlongRun(c, w, steps);
    assert AttemptOk(c, Run(c, w, steps), Run(c, w, steps).attempts[a]);
    WindowsConserve(c, Run(c, w, steps).attempts[a]);
  }

  ghost predicate NoOperator(steps: seq<Step>) {
    forall k | 0 <= k < |steps| :: !steps[k].Reset? && !steps[k].Delete?
  }

  /** Without an operator the checkpoint never rewinds, in whatever order saves land: it stays at or
      above everything it was and everything whose save has landed. */
  lemma {:induction false} CheckpointNeverRewinds(c: Config, w: World, steps: seq<Step>)
    requires NoOperator(steps)
    ensures Position(w.cp) <= Position(Run(c, w, steps).cp)
  {
    if steps != [] {
      CheckpointNeverRewinds(c, w, steps[..|steps| - 1]);
    }
  }

  lemma SavedPositionStays(c: Config, w: World, a: nat, k: nat, steps: seq<Step>)
    requires a in w.attempts && CanSave(w.attempts[a], k)
    requires NoOperator(steps)
    ensures w.attempts[a].windows[k].pos <= Position(Run(c, Next(c, w, SaveAck(a, k)), steps).cp)
  {
    CheckpointNeverRewinds(c, Next(c, w, SaveAck(a, k)), steps);
  }

  // ---------------------------------------------------------------- the lease in the protocol

  ghost predicate NoSubscribeBy(owner: string, steps: seq<Step>) {
    forall k | 0 <= k < |steps| :: !(steps[k].Subscribe? && steps[k].owner == owner)
  }

  lemma {:induction false} LostLeaseStaysLost(c: Config, w: World, steps: seq<Step>, owner: string)
    requires !L.CanRenew(w.lease.lease, owner) && NoSubscribeBy(owner, steps)
    ensures !L.CanRenew(Run(c, w, steps).lease.lease, owner)
  {
    if steps != [] {
      LostLeaseStaysLost(c, w, steps[..|steps| - 1], owner);
    }
  }

  /** The owner of attempt a no longer has the key: its next renewal ends it, and an
      acknowledgement that is only now checked is rejected and leaves the checkpoint alone. */
  ghost predicate FencedOut(c: Config, w: World, a: nat)
    requires a in w.attempts
  {
    && Next(c, w, Renew(a)).attempts[a].phase == Ended
    && forall k | 0 <= k < |w.attempts[a].windows| && w.attempts[a].windows[k].stage == Claimed ::
         var after := Next(c, w, CheckHolder(a, k));
         && after.attempts[a].windows[k].stage == Rejected
         && after.cp == w.cp && Next(c, after, SaveAck(a, k)).cp == w.cp
  }

  lemma LostLeaseFences(c: Config, w: World, a: nat)
    requires a in w.attempts && !L.CanRenew(w.lease.lease, w.attempts[a].owner)
    ensures FencedOut(c, w, a)
  {
    var t := w.attempts[a];
    forall k | 0 <= k < |t.windows| && t.windows[k].stage == Claimed
      ensures var after := Next(c, w, CheckHolder(a, k));
              && after.attempts[a].windows[k].stage == Rejected
              && after.cp == w.cp && Next(c, after, SaveAck(a, k)).cp == w.cp
    {
      var after := Next(c, w, CheckHolder(a, k));
      assert after.attempts[a] == Resolve(SetStage(t, k, Rejected), k, false);
    }
  }

  /** Once another owner holds the key, and until this one subscribes again, every old stream of
      this owner stays fenced out, whatever else happens. */
  lemma TakenOverStreamIsFenced(c: Config, w: World, steps: seq<Step>, owner: string, a: nat)
    requires !L.CanRenew(w.lease.lease, owner) && NoSubscribeBy(owner, steps)
    requires a in Run(c, w, steps).attempts && Run(c, w, steps).attempts[a].owner == owner
    ensures FencedOut(c, Run(c, w, steps), a)
  {
    LostLeaseStaysLost(c, w, steps, owner);
    LostLeaseFences(c, Run(c, w, steps), a);
  }

  /** The comment on Server.Checkpoint says a lease lost between the holder check and the save never
      advances the cursor. The code does advance it: from any state in which a window passes its
      holder check, the key can change hands before the save lands, and the save then moves the
      checkpoint exactly when the window lies past it. What stays true is AtLeastOnce, which does not
      depend on the lease. */
  lemma CheckedAckLandsAfterTakeover(c: Config, w: World, a: nat, k: nat, b: nat, other: string)
    requires a in w.attempts && k < |w.attempts[a].windows| && w.attempts[a].windows[k].stage == Claimed
    requires L.Holds(w.lease.lease, w.lease.now, w.attempts[a].owner)
    requires b !in w.attempts && other != w.attempts[a].owner
    ensures var checked := Next(c, w, CheckHolder(a, k));
            var expired := Next(c, checked, Clock(w.lease.lease.value.expires - w.lease.now));
            var taken := Next(c, expired, Subscribe(b, other, ""));
            var landed := Next(c, taken, SaveAck(a, k));
            && L.CanRenew(taken.lease.lease, other) && taken.cp == w.cp
            && Position(landed.cp) == Larger(Position(w.cp), w.attempts[a].windows[k].pos)
            && (Position(landed.cp) > Position(taken.cp) <==> w.attempts[a].windows[k].pos > Position(w.cp))
  {
    var checked := Next(c, w, CheckHolder(a, k));
    var expired := Next(c, checked, Clock(w.lease.lease.value.expires - w.lease.now));
    var taken := Next(c, expired, Subscribe(b, other, ""));
    assert taken.attempts[a] == SetStage(w.attempts[a], k, Checked);
  }
}
