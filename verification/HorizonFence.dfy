/** The Postgres horizon fence (postgres/wsstore.go): append transactions that draw a
    transaction id first and global positions later, readers that bound their pages by the
    position sequence and the snapshot horizon, and the two interleaved statement by statement. */
module HorizonFence {
  import opened Wrappers
  import opened EventLog
  import opened Paging

  // ---------------------------------------------------------------- the database

  /** One open transaction: its id once assigned, the positions it drew from the sequence,
      and the rows it inserted at some of them. */
  datatype Tx = Tx(xid: Option<nat>, drawn: set<nat>, rows: Log)

  /** nextXid is the next transaction id, latestCompleted the highest id that committed or
      aborted, seqLast the last position drawn (0 before the first draw), running the open
      transactions by session, log the committed rows. */
  datatype Db = Db(nextXid: nat, latestCompleted: nat, seqLast: nat, running: map<nat, Tx>, log: Log)

  datatype DbStep =
    | Begin(s: nat)
    | DrawXid(s: nat)
    | DrawPosition(s: nat)
    | Insert(s: nat, pos: nat, row: Row)
    | Commit(s: nat)
    | Abort(s: nat)

  /** When a statement may run. DrawPosition carries P1: append's first statement is
      pg_current_xact_id(), so a transaction that draws a position already has an id. */
  predicate Enabled(db: Db, step: DbStep) {
    match step
    case Begin(s) => s !in db.running
    case DrawXid(s) => s in db.running && db.running[s].xid.None?
    case DrawPosition(s) => s in db.running && db.running[s].xid.Some?
    case Insert(s, p, _) => s in db.running && p in db.running[s].drawn && p !in db.running[s].rows
    case Commit(s) => s in db.running
    case Abort(s) => s in db.running
  }

  /** A session ends: its id, if it had one, is completed. */
  function Complete(db: Db, s: nat): Db
    requires s in db.running
  {
    var lc := if db.running[s].xid.Some? then Larger(db.latestCompleted, db.running[s].xid.value)
      else db.latestCompleted;
    db.(running := db.running - {s}, latestCompleted := lc)
  }

  /** What a statement does, whether or not the append code would issue it here. */
  function Effect(db: Db, step: DbStep): Db {
    match step
    case Begin(s) => db.(running := db.running[s := Tx(None, {}, map[])])
    case DrawXid(s) =>
      if s !in db.running then db else
      db.(running := db.running[s := db.running[s].(xid := Some(db.nextXid))], nextXid := db.nextXid + 1)
    case DrawPosition(s) =>
      if s !in db.running then db else
      var p := db.seqLast + 1;
      db.(running := db.running[s := db.running[s].(drawn := db.running[s].drawn + {p})], seqLast := p)
    case Insert(s, p, row) =>
      if s !in db.running then db else
      db.(running := db.running[s := db.running[s].(rows := db.running[s].rows[p := row])])
    case Commit(s) =>
      if s !in db.running then db else
      Complete(db, s).(log := db.log + db.running[s].rows)
    case Abort(s) =>
      if s !in db.running then db else Complete(db, s)
  }

  function DbNext(db: Db, step: DbStep): Db {
    if Enabled(db, step) then Effect(db, step) else db
  }

  /** events_global_position_seq.last_value: a fresh sequence reports 1 before any draw. */
  function LastValue(db: Db): nat {
    if db.seqLast == 0 then 1 else db.seqLast
  }

  ghost function Lowest(s: set<nat>, top: nat): (m: nat)
    ensures m <= top
    ensures m == top || m in s
    ensures forall x | x in s :: m <= x
  {
    if s == {} then top
    else
      var x :| x in s;
      var rest := Lowest(s - {x}, top);
      assert forall y | y in s :: y == x || y in s - {x};
      if x < rest then x else rest
  }

  ghost function RunningXids(db: Db): set<nat> {
    set s | s in db.running && db.running[s].xid.Some? :: db.running[s].xid.value
  }

  /** pg_snapshot_xmin(pg_current_snapshot()): the lowest running id, or the id after the
      highest completed one when no lower id runs. */
  ghost function Xmin(db: Db): nat {
    Lowest(RunningXids(db), db.latestCompleted + 1)
  }

  /** fenceCleared: pg_snapshot_xmin(...) >= r, in the form the proofs use. */
  predicate Cleared(db: Db, r: nat) {
    && r <= db.latestCompleted + 1
    && forall s | s in db.running :: db.running[s].xid.Some? ==> r <= db.running[s].xid.value
  }

  lemma ClearedIsXminReached(db: Db, r: nat)
    ensures Cleared(db, r) <==> Xmin(db) >= r
  {
    var xids := RunningXids(db);
    forall s | s in db.running && db.running[s].xid.Some?
      ensures db.running[s].xid.value in xids
    {
    }
  }

  // ---------------------------------------------------------------- what every database step keeps

  ghost predicate Owns(db: Db, s: nat, p: nat) {
    s in db.running && p in db.running[s].drawn
  }

  ghost predicate TxOk(db: Db, t: Tx) {
    && (t.xid.Some? ==> 0 < t.xid.value < db.nextXid)
    && (t.drawn != {} ==> t.xid.Some?)
    && t.rows.Keys <= t.drawn
    && (forall p | p in t.drawn :: 0 < p <= db.seqLast && p !in db.log)
  }

  ghost predicate DbInv(db: Db) {
    && db.latestCompleted < db.nextXid
    && (forall p | p in db.log :: 0 < p <= db.seqLast)
    && (forall s | s in db.running :: TxOk(db, db.running[s]))
    && (forall s, u, p: nat | Owns(db, s, p) && Owns(db, u, p) :: s == u)
  }

  /** Every position at or below p was drawn and belongs to no open transaction. */
  ghost predicate SettledTo(db: Db, p: nat) {
    && p <= db.seqLast
    && forall s, q: nat | Owns(db, s, q) :: q > p
  }

  /** L was read from the sequence. */
  ghost predicate WasLast(db: Db, l: nat) {
    l <= 1 || l <= db.seqLast
  }

  /** L was read and R drawn after it: whoever still owns a position at or below L has an id below R (P2). */
  ghost predicate FencePair(db: Db, l: nat, r: nat) {
    && 0 < r < db.nextXid
    && (l <= 1 ||
        (l <= db.seqLast &&
         forall s, q: nat | Owns(db, s, q) && q <= l :: db.running[s].xid.Some? && db.running[s].xid.value < r))
  }

  /** A bound fenceBound returned. A bound of 1 may come from a sequence nothing was drawn from yet. */
  ghost predicate Granted(db: Db, b: nat) {
    b <= 1 || SettledTo(db, b)
  }

  lemma DbInvKept(db: Db, step: DbStep)
    requires DbInv(db)
    ensures DbInv(DbNext(db, step))
    ensures Extends(db.log, DbNext(db, step).log)
    ensures db.seqLast <= DbNext(db, step).seqLast
    ensures db.latestCompleted <= DbNext(db, step).latestCompleted
    ensures db.nextXid <= DbNext(db, step).nextXid
  {
    var db' := DbNext(db, step);
    forall s | s in db'.running
      ensures TxOk(db', db'.running[s])
    {
      TxOkKept(db, step, s);
    }
    forall s, u, p: nat | Owns(db', s, p) && Owns(db', u, p)
      ensures s == u
    {
      if Owns(db, s, p) && Owns(db, u, p) {
      } else {
        assert p == db.seqLast + 1;
      }
    }
  }

  lemma TxOkKept(db: Db, step: DbStep, s: nat)
    requires DbInv(db) && s in DbNext(db, step).running
    ensures TxOk(DbNext(db, step), DbNext(db, step).running[s])
  {
    if s in db.running {
      assert TxOk(db, db.running[s]);
      if Enabled(db, step) && step.Commit? {
        assert TxOk(db, db.running[step.s]);
        forall p | p in db.running[s].drawn
          ensures p !in db.running[step.s].rows
        {
          assert Owns(db, s, p);
          assert !Owns(db, step.s, p);
        }
      }
    }
  }

  /** A settled prefix is final: no later statement of any transaction adds to it or changes it. */
  lemma SettledIsFinal(db: Db, step: DbStep, p: nat)
    requires DbInv(db) && SettledTo(db, p)
    ensures SettledTo(DbNext(db, step), p)
    ensures AgreeTo(db.log, DbNext(db, step).log, p)
  {
    if Enabled(db, step) && step.Commit? {
      forall q | q in db.running[step.s].rows
        ensures q > p
      {
        assert Owns(db, step.s, q);
      }
    }
    forall s, q: nat | Owns(DbNext(db, step), s, q)
      ensures q > p
    {
      assert Owns(db, s, q) ==> q > p;
    }
  }

  lemma FencePairKept(db: Db, step: DbStep, l: nat, r: nat)
    requires DbInv(db) && FencePair(db, l, r)
    ensures FencePair(DbNext(db, step), l, r)
  {
    var db' := DbNext(db, step);
    if l > 1 {
      forall s, q: nat | Owns(db', s, q) && q <= l
        ensures db'.running[s].xid.Some? && db'.running[s].xid.value < r
      {
        assert Owns(db, s, q);
        assert TxOk(db, db.running[s]);
      }
    }
  }

  lemma GrantedKept(db: Db, step: DbStep, b: nat)
    requires DbInv(db) && Granted(db, b)
    ensures Granted(DbNext(db, step), b)
  {
    if b > 1 {
      SettledIsFinal(db, step, b);
    }
  }

  /** Why the fence is lossless: once it clears, nobody who drew a position at or below L is still open. */
  lemma ClearedFenceSettles(db: Db, l: nat, r: nat)
    requires DbInv(db) && FencePair(db, l, r) && Cleared(db, r)
    ensures Granted(db, l)
  {
    assert forall s, q: nat | Owns(db, s, q) && q <= l && l > 1 :: false;
  }

  /** A committed row inside a granted bound closes the sequence up to it. */
  lemma CommittedInsideGranted(db: Db, b: nat, p: nat)
    requires DbInv(db) && Granted(db, b) && p <= b && (p in db.log || p == 0)
    ensures SettledTo(db, p)
  {
    if b <= 1 && p == 1 {
      forall s, q: nat | Owns(db, s, q)
        ensures q > 1
      {
        assert TxOk(db, db.running[s]);
      }
    } else if p == 0 {
      forall s, q: nat | Owns(db, s, q)
        ensures q > 0
      {
        assert TxOk(db, db.running[s]);
      }
    }
  }

  function RunDb(db: Db, steps: seq<DbStep>): Db
    decreases |steps|
  {
    if steps == [] then db else RunDb(DbNext(db, steps[0]), steps[1..])
  }

  lemma RunDbOne(db: Db, a: DbStep)
    ensures RunDb(db, [a]) == DbNext(db, a)
  {
    assert RunDb(DbNext(db, a), []) == DbNext(db, a);
  }

  lemma RunDbTwo(db: Db, a: DbStep, b: DbStep)
    ensures RunDb(db, [a, b]) == DbNext(DbNext(db, a), b)
  {
    RunDbOne(DbNext(db, a), b);
    assert [a, b][1..] == [b];
  }

  // ---------------------------------------------------------------- the readers

  /** Where a fenceBound call that holds the reader's mutex stands. */
  datatype Lock =
    | Unlocked
    | Entered(from: nat)
    | HaveLast(from: nat, last: nat)
    | HaveXid(from: nat, last: nat, r: nat, s: nat)
    | HaveFence(from: nat, last: nat, r: nat)

  /** One Workspace value: the stored round (fenceR == 0 means none), its mutex, what the last
      fenceBound call returned, and every bound it ever returned. */
  datatype Reader = Reader(boundL: nat, fenceR: nat, lock: Lock, ret: Option<nat>, granted: set<nat>)

  datatype Sys = Sys(db: Db, readers: map<nat, Reader>)

  datatype Step =
    | Statement(d: DbStep)
    | Open(i: nat)
    | Enter(i: nat, from: nat)
    | CheckStored(i: nat)
    | ReadLast(i: nat)
    | DrawFence(i: nat, s: nat)
    | AbortFence(i: nat)
    | CheckFresh(i: nat)
    | Fail(i: nat)

  function Return(r: Reader, bound: nat): Reader {
    r.(lock := Unlocked, ret := Some(bound), granted := r.granted + {bound})
  }

  /** The statements a step issues against the database. */
  function DbPart(sys: Sys, step: Step): seq<DbStep> {
    match step
    case Statement(d) => [d]
    case DrawFence(i, s) =>
      if i in sys.readers && sys.readers[i].lock.HaveLast? && s !in sys.db.running then [Begin(s), DrawXid(s)] else []
    case AbortFence(i) =>
      if i in sys.readers && sys.readers[i].lock.HaveXid?
        && OpenUnder(sys.db, sys.readers[i].lock.s, sys.readers[i].lock.r)
      then [Abort(sys.readers[i].lock.s)] else []
    case _ => []
  }

  predicate OpenUnder(db: Db, s: nat, xid: nat) {
    s in db.running && db.running[s].xid == Some(xid)
  }

  /** One step of fenceBound on its own state, from what it observes of db. */
  function ReaderPart(db: Db, r: Reader, step: Step): Reader {
    match step
    case Enter(_, from) =>
      if r.lock.Unlocked? then r.(lock := Entered(from), ret := None) else r
    case CheckStored(_) =>
      if r.lock.Entered? && r.fenceR != 0 then
        if Cleared(db, r.fenceR) then Return(r.(boundL := 0, fenceR := 0), r.boundL) else Return(r, 0)
      else r
    case ReadLast(_) =>
      if r.lock.Entered? && r.fenceR == 0 then
        if LastValue(db) <= r.lock.from then Return(r, 0) else r.(lock := HaveLast(r.lock.from, LastValue(db)))
      else r
    case DrawFence(_, s) =>
      if r.lock.HaveLast? && s !in db.running then r.(lock := HaveXid(r.lock.from, r.lock.last, db.nextXid, s)) else r
    case AbortFence(_) =>
      if r.lock.HaveXid? then r.(lock := HaveFence(r.lock.from, r.lock.last, r.lock.r)) else r
    case CheckFresh(_) =>
      if r.lock.HaveFence? then
        if Cleared(db, r.lock.r) then Return(r, r.lock.last)
        else Return(r.(boundL := r.lock.last, fenceR := r.lock.r), 0)
      else r
    case Fail(_) => r.(lock := Unlocked, ret := None)
    case _ => r
  }

  function Next(sys: Sys, step: Step): Sys {
    var db := RunDb(sys.db, DbPart(sys, step));
    match step
    case Statement(_) => sys.(db := db)
    case Open(i) => if i in sys.readers then sys
      else sys.(readers := sys.readers[i := Reader(0, 0, Unlocked, None, {})])
    case _ =>
      if step.i in sys.readers
      then Sys(db, sys.readers[step.i := ReaderPart(sys.db, sys.readers[step.i], step)])
      else sys
  }

  function Run(sys: Sys, steps: seq<Step>): Sys
    decreases |steps|
  {
    if steps == [] then sys else Run(Next(sys, steps[0]), steps[1..])
  }

  predicate Init(sys: Sys) {
    && sys.readers == map[]
    && sys.db.running == map[]
    && sys.db.latestCompleted < sys.db.nextXid
    && forall p | p in sys.db.log :: 0 < p <= sys.db.seqLast
  }

  // ---------------------------------------------------------------- what every reader step keeps

  ghost predicate LockOk(db: Db, lock: Lock) {
    match lock
    case HaveLast(from, last) => from < last && WasLast(db, last)
    case HaveXid(from, last, r, s) =>
      from < last && FencePair(db, last, r) && (r <= db.latestCompleted || OpenUnder(db, s, r))
    case HaveFence(from, last, r) => from < last && FencePair(db, last, r) && r <= db.latestCompleted
    case _ => true
  }

  ghost predicate ReaderOk(db: Db, r: Reader) {
    && LockOk(db, r.lock)
    && (r.fenceR != 0 ==> 0 < r.boundL && FencePair(db, r.boundL, r.fenceR) && r.fenceR <= db.latestCompleted)
    && (r.ret.Some? ==> r.ret.value in r.granted)
    && (forall b | b in r.granted :: Granted(db, b))
  }

  ghost predicate Inv(sys: Sys) {
    && DbInv(sys.db)
    && forall i | i in sys.readers :: ReaderOk(sys.db, sys.readers[i])
  }

  lemma ReaderOkKept(db: Db, step: DbStep, r: Reader)
    requires DbInv(db) && ReaderOk(db, r)
    ensures ReaderOk(DbNext(db, step), r)
  {
    DbInvKept(db, step);
    if r.fenceR != 0 {
      FencePairKept(db, step, r.boundL, r.fenceR);
    }
    match r.lock {
      case HaveXid(_, last, x, s) => FencePairKept(db, step, last, x);
      case HaveFence(_, last, x) => FencePairKept(db, step, last, x);
      case _ =>
    }
    forall b | b in r.granted
      ensures Granted(DbNext(db, step), b)
    {
      GrantedKept(db, step, b);
    }
  }

  lemma {:induction false} ReaderOkKeptByRun(db: Db, steps: seq<DbStep>, r: Reader)
    requires DbInv(db) && ReaderOk(db, r)
    ensures DbInv(RunDb(db, steps)) && ReaderOk(RunDb(db, steps), r)
    decreases |steps|
  {
    if steps != [] {
      DbInvKept(db, steps[0]);
      ReaderOkKept(db, steps[0], r);
      ReaderOkKeptByRun(DbNext(db, steps[0]), steps[1..], r);
    }
  }

  /** Drawing R right after reading L makes a fence pair. */
  lemma DrawFenceOk(db: Db, r: Reader, s: nat)
    requires DbInv(db) && ReaderOk(db, r) && r.lock.HaveLast? && s !in db.running
    ensures LockOk(RunDb(db, [Begin(s), DrawXid(s)]), HaveXid(r.lock.from, r.lock.last, db.nextXid, s))
  {
    var d1 := DbNext(db, Begin(s));
    var d2 := DbNext(d1, DrawXid(s));
    RunDbTwo(db, Begin(s), DrawXid(s));
    forall u, q: nat | Owns(d2, u, q) && q <= r.lock.last
      ensures d2.running[u].xid.Some? && d2.running[u].xid.value < db.nextXid
    {
      assert u != s && Owns(db, u, q);
      assert TxOk(db, db.running[u]);
    }
  }

  lemma CheckStoredOk(db: Db, r: Reader, i: nat)
    requires DbInv(db) && ReaderOk(db, r)
    ensures ReaderOk(db, ReaderPart(db, r, CheckStored(i)))
  {
    if r.lock.Entered? && r.fenceR != 0 && Cleared(db, r.fenceR) {
      ClearedFenceSettles(db, r.boundL, r.fenceR);
    }
  }

  lemma CheckFreshOk(db: Db, r: Reader, i: nat)
    requires DbInv(db) && ReaderOk(db, r)
    ensures ReaderOk(db, ReaderPart(db, r, CheckFresh(i)))
  {
    if r.lock.HaveFence? && Cleared(db, r.lock.r) {
      ClearedFenceSettles(db, r.lock.last, r.lock.r);
    }
  }

  /** A step that issues no statement. */
  lemma QuietStepOk(db: Db, r: Reader, step: Step)
    requires DbInv(db) && ReaderOk(db, r) && !step.DrawFence? && !step.AbortFence?
    ensures ReaderOk(db, ReaderPart(db, r, step))
  {
    match step {
      case CheckStored(i) => CheckStoredOk(db, r, i);
      case CheckFresh(i) => CheckFreshOk(db, r, i);
      case _ =>
    }
  }

  lemma DrawStepOk(db: Db, r: Reader, i: nat, s: nat)
    requires DbInv(db) && ReaderOk(db, r)
    ensures var steps := if r.lock.HaveLast? && s !in db.running then [Begin(s), DrawXid(s)] else [];
            ReaderOk(RunDb(db, steps), ReaderPart(db, r, DrawFence(i, s)))
  {
    if r.lock.HaveLast? && s !in db.running {
      ReaderOkKeptByRun(db, [Begin(s), DrawXid(s)], r);
      DrawFenceOk(db, r, s);
    }
  }

  lemma AbortStepOk(db: Db, r: Reader, i: nat)
    requires DbInv(db) && ReaderOk(db, r)
    ensures var steps := if r.lock.HaveXid? && OpenUnder(db, r.lock.s, r.lock.r) then [Abort(r.lock.s)] else [];
            ReaderOk(RunDb(db, steps), ReaderPart(db, r, AbortFence(i)))
  {
    if r.lock.HaveXid? && OpenUnder(db, r.lock.s, r.lock.r) {
      ReaderOkKeptByRun(db, [Abort(r.lock.s)], r);
      RunDbOne(db, Abort(r.lock.s));
    }
  }

  lemma ReaderStepOk(sys: Sys, step: Step)
    requires Inv(sys) && !step.Statement? && !step.Open? && step.i in sys.readers
    ensures ReaderOk(Next(sys, step).db, Next(sys, step).readers[step.i])
  {
    var r := sys.readers[step.i];
    match step {
      case DrawFence(i, s) => DrawStepOk(sys.db, r, i, s);
      case AbortFence(i) => AbortStepOk(sys.db, r, i);
      case _ => QuietStepOk(sys.db, r, step);
    }
  }

  lemma InvKept(sys: Sys, step: Step)
    requires Inv(sys)
    ensures Inv(Next(sys, step))
  {
    var steps := if step.Statement? || step.Open? || step.i in sys.readers then DbPart(sys, step) else [];
    forall i | i in sys.readers
      ensures ReaderOk(RunDb(sys.db, steps), sys.readers[i])
    {
      ReaderOkKeptByRun(sys.db, steps, sys.readers[i]);
    }
    ReaderOkKeptByRun(sys.db, steps, Reader(0, 0, Unlocked, None, {}));
    if !step.Statement? && !step.Open? && step.i in sys.readers {
      ReaderStepOk(sys, step);
    }
  }

  lemma {:induction false} InvAlongRun(sys: Sys, steps: seq<Step>)
    requires Inv(sys)
    ensures Inv(Run(sys, steps))
    decreases |steps|
  {
    if steps != [] {
      InvKept(sys, steps[0]);
      InvAlongRun(Next(sys, steps[0]), steps[1..]);
    }
  }

  // ---------------------------------------------------------------- no loss

  lemma {:induction false} SettledAlongDbRun(db: Db, steps: seq<DbStep>, p: nat)
    requires DbInv(db) && SettledTo(db, p)
    ensures SettledTo(RunDb(db, steps), p) && AgreeTo(db.log, RunDb(db, steps).log, p)
    decreases |steps|
  {
    if steps != [] {
      DbInvKept(db, steps[0]);
      SettledIsFinal(db, steps[0], p);
      SettledAlongDbRun(DbNext(db, steps[0]), steps[1..], p);
    }
  }

  lemma {:induction false} SettledAlongRun(sys: Sys, steps: seq<Step>, p: nat)
    requires Inv(sys) && SettledTo(sys.db, p)
    ensures SettledTo(Run(sys, steps).db, p) && AgreeTo(sys.db.log, Run(sys, steps).db.log, p)
    decreases |steps|
  {
    if steps != [] {
      InvKept(sys, steps[0]);
      SettledAlongDbRun(sys.db, DbPart(sys, steps[0]), p);
      SettledAlongRun(Next(sys, steps[0]), steps[1..], p);
    }
  }

  /** In every interleaving: once a committed row p lies inside a bound some fenceBound call
      returned, no open transaction owns a position at or below p, and no row at or below p
      ever appears, changes or goes away afterwards. */
  lemma DeliveredRangeIsFinal(init: Sys, before: seq<Step>, after: seq<Step>, i: nat, b: nat, p: nat)
    requires Init(init)
    requires i in Run(init, before).readers && b in Run(init, before).readers[i].granted
    requires p <= b && p in Run(init, before).db.log
    ensures SettledTo(Run(init, before).db, p)
    ensures SettledTo(Run(Run(init, before), after).db, p)
    ensures AgreeTo(Run(init, before).db.log, Run(Run(init, before), after).db.log, p)
  {
    InvAlongRun(init, before);
    var sys := Run(init, before);
    assert ReaderOk(sys.db, sys.readers[i]);
    CommittedInsideGranted(sys.db, b, p);
    SettledAlongRun(sys, after, p);
  }

  /** Head: the highest committed position of the workspace inside the bound it was given. */
  function Head(db: Db, ws: string, bound: nat): nat {
    HeadAt(db.log, Workspace(ws), bound)
  }

  /** A head Head returned is a settle point for good: it can be acknowledged without skipping
      an event that commits later. */
  lemma HeadIsASettlePoint(init: Sys, before: seq<Step>, after: seq<Step>, i: nat, b: nat, ws: string)
    requires Init(init)
    requires i in Run(init, before).readers && b in Run(init, before).readers[i].granted
    ensures var sys := Run(init, before);
            var head := Head(sys.db, ws, b);
            SettledTo(Run(sys, after).db, head) && AgreeTo(sys.db.log, Run(sys, after).db.log, head)
  {
    InvAlongRun(init, before);
    var sys := Run(init, before);
    assert ReaderOk(sys.db, sys.readers[i]);
    CommittedInsideGranted(sys.db, b, Head(sys.db, ws, b));
    SettledAlongRun(sys, after, Head(sys.db, ws, b));
  }

  /** One page read of a tailing consumer: what ran since its last read, and the bound and page it got. */
  datatype Visit = Visit(steps: seq<Step>, i: nat, bound: nat, page: Page)

  function StateAt(init: Sys, visits: seq<Visit>): Sys {
    if visits == [] then init
    else Run(StateAt(init, visits[..|visits| - 1]), visits[|visits| - 1].steps)
  }

  function CallsOf(init: Sys, visits: seq<Visit>): seq<Read> {
    seq(|visits|, k requires 0 <= k < |visits| =>
                    Read(StateAt(init, visits[..k + 1]).db.log, visits[k].bound, visits[k].page))
  }

  ghost predicate BoundsGranted(init: Sys, visits: seq<Visit>) {
    forall k | 0 <= k < |visits| ::
      var sys := StateAt(init, visits[..k + 1]);
      visits[k].i in sys.readers && visits[k].bound in sys.readers[visits[k].i].granted
  }

  lemma {:induction false} StateAtKeeps(init: Sys, visits: seq<Visit>)
    requires Inv(init)
    ensures Inv(StateAt(init, visits))
  {
    if visits != [] {
      StateAtKeeps(init, visits[..|visits| - 1]);
      InvAlongRun(StateAt(init, visits[..|visits| - 1]), visits[|visits| - 1].steps);
    }
  }

  /** A prefix settled at visit k is still the same prefix after all visits. */
  lemma {:induction false} SettledAlongVisits(init: Sys, visits: seq<Visit>, k: nat, p: nat)
    requires Inv(init) && k <= |visits|
    requires SettledTo(StateAt(init, visits[..k]).db, p)
    ensures SettledTo(StateAt(init, visits).db, p)
    ensures AgreeTo(StateAt(init, visits[..k]).db.log, StateAt(init, visits).db.log, p)
  {
    if k == |visits| {
      assert visits[..k] == visits;
    } else {
      var n := |visits| - 1;
      assert visits[..n][..k] == visits[..k];
      SettledAlongVisits(init, visits[..n], k, p);
      StateAtKeeps(init, visits[..n]);
      SettledAlongRun(StateAt(init, visits[..n]), visits[n].steps, p);
    }
  }

  /** A cursor moved only to delivered positions never skips a committed event: whatever ran
      between the reads and whatever runs after them, the delivered pages are exactly the
      matching rows of the final log between the first and the last cursor. */
  lemma TailingLosesNothing(init: Sys, visits: seq<Visit>, after: seq<Step>, scope: Scope, lim: Limits, from: nat)
    requires Init(init)
    requires BoundsGranted(init, visits)
    requires ChainedReads(scope, lim, from, CallsOf(init, visits))
    ensures var end := Run(StateAt(init, visits), after).db.log;
            Delivered(CallsOf(init, visits)) == RowsIn(end, scope, from, CursorAt(from, CallsOf(init, visits)))
  {
    var calls := CallsOf(init, visits);
    var end := Run(StateAt(init, visits), after).db.log;
    forall k | 0 <= k < |calls| && calls[k].page.rows != []
      ensures AgreeTo(calls[k].log, end, CursorAt(from, calls[..k + 1]))
    {
      FinalAtVisit(init, visits, after, scope, lim, from, k);
    }
    PagesRefineTheLog(scope, lim, from, calls, end);
  }

  lemma FinalAtVisit(init: Sys, visits: seq<Visit>, after: seq<Step>, scope: Scope, lim: Limits, from: nat, k: nat)
    requires Init(init) && k < |visits|
    requires BoundsGranted(init, visits)
    requires ChainedReads(scope, lim, from, CallsOf(init, visits))
    requires CallsOf(init, visits)[k].page.rows != []
    ensures AgreeTo(CallsOf(init, visits)[k].log, Run(StateAt(init, visits), after).db.log,
                    CursorAt(from, CallsOf(init, visits)[..k + 1]))
  {
    var calls := CallsOf(init, visits);
    var p := CursorAt(from, calls[..k + 1]);
    PageEndsAtACommittedRow(scope, lim, from, calls, k);
    assert calls[k].log == StateAt(init, visits[..k + 1]).db.log;
    FinalFromVisit(init, visits, after, k, p);
  }

  lemma FinalFromVisit(init: Sys, visits: seq<Visit>, after: seq<Step>, k: nat, p: nat)
    requires Init(init) && k < |visits|
    requires BoundsGranted(init, visits)
    requires p <= visits[k].bound && p in StateAt(init, visits[..k + 1]).db.log
    ensures AgreeTo(StateAt(init, visits[..k + 1]).db.log, Run(StateAt(init, visits), after).db.log, p)
  {
    var sys := StateAt(init, visits[..k + 1]);
    StateAtKeeps(init, visits[..k + 1]);
    assert ReaderOk(sys.db, sys.readers[visits[k].i]);
    CommittedInsideGranted(sys.db, visits[k].bound, p);
    SettledAlongVisits(init, visits, k + 1, p);
    StateAtKeeps(init, visits);
    SettledAlongRun(StateAt(init, visits), after, p);
  }

  // ---------------------------------------------------------------- progress

  /** A stored round clears exactly when every transaction with an older id has settled: the
      reader's own abort already moved the horizon to R, so nothing else can hold it back. */
  lemma StoredFenceClearsExactlyWhen(sys: Sys, i: nat)
    requires Inv(sys) && i in sys.readers && sys.readers[i].fenceR != 0
    ensures Cleared(sys.db, sys.readers[i].fenceR) <==>
            forall s | s in sys.db.running && sys.db.running[s].xid.Some? ::
              sys.db.running[s].xid.value >= sys.readers[i].fenceR
  {
    assert ReaderOk(sys.db, sys.readers[i]);
  }

  /** The statements of one undisturbed fenceBound call; those of the branch not taken do nothing. */
  function FenceCall(i: nat, from: nat, s: nat): seq<Step> {
    [Enter(i, from), CheckStored(i), ReadLast(i), DrawFence(i, s), AbortFence(i), CheckFresh(i)]
  }

  function AfterCall(sys: Sys, i: nat, from: nat, s: nat): Sys {
    var s1 := Next(Next(sys, Enter(i, from)), CheckStored(i));
    var s2 := Next(Next(s1, ReadLast(i)), DrawFence(i, s));
    Next(Next(s2, AbortFence(i)), CheckFresh(i))
  }

  lemma AfterCallRuns(sys: Sys, i: nat, from: nat, s: nat)
    ensures Run(sys, FenceCall(i, from, s)) == AfterCall(sys, i, from, s)
  {
    var c := FenceCall(i, from, s);
    var s1 := Next(Next(sys, c[0]), c[1]);
    var s2 := Next(Next(s1, c[2]), c[3]);
    assert Run(sys, c) == Run(Next(sys, c[0]), c[1..]);
    assert c[1..][1..] == c[2..] && c[2..][1..] == c[3..] && c[3..][1..] == c[4..] && c[4..][1..] == c[5..]
           && c[5..][1..] == [];
    assert Run(sys, c) == Run(s1, c[2..]);
    assert Run(s1, c[2..]) == Run(s2, c[4..]);
    assert Run(s2, c[4..]) == Run(Next(s2, c[4]), c[5..]);
  }

  ghost predicate Quiet(sys: Sys) {
    sys.db.running == map[]
  }

  /** A call that finds a round stored returns its bound and clears it. */
  lemma StoredCallWhenQuiet(sys: Sys, i: nat, from: nat, s: nat)
    requires Inv(sys) && Quiet(sys) && i in sys.readers && sys.readers[i].lock.Unlocked? && sys.readers[i].fenceR != 0
    ensures var after := AfterCall(sys, i, from, s);
            && after.db == sys.db && i in after.readers
            && after.readers[i].ret == Some(sys.readers[i].boundL)
            && after.readers[i].lock.Unlocked? && after.readers[i].fenceR == 0
  {
    assert ReaderOk(sys.db, sys.readers[i]);
    var s1 := Next(sys, Enter(i, from));
    assert s1.readers[i].fenceR == sys.readers[i].fenceR;
    var s2 := Next(s1, CheckStored(i));
    assert s2.readers[i].lock.Unlocked? && s2.db == sys.db;
    var s3 := Next(Next(s2, ReadLast(i)), DrawFence(i, s));
    assert s3.readers[i] == s2.readers[i];
  }

  /** A call that finds none draws a fresh round, which clears at once, and returns last_value. */
  lemma FreshCallWhenQuiet(sys: Sys, i: nat, from: nat, s: nat)
    requires Inv(sys) && Quiet(sys) && i in sys.readers && sys.readers[i].lock.Unlocked? && sys.readers[i].fenceR == 0
    requires from < LastValue(sys.db)
    ensures var after := AfterCall(sys, i, from, s);
            && after.db.log == sys.db.log && after.db.seqLast == sys.db.seqLast && i in after.readers
            && after.readers[i].ret == Some(LastValue(sys.db))
            && after.readers[i].lock.Unlocked? && after.readers[i].fenceR == 0
  {
    var s1 := Next(Next(sys, Enter(i, from)), CheckStored(i));
    assert s1.db == sys.db && s1.readers[i].lock == Entered(from);
    var s2 := Next(s1, ReadLast(i));
    assert s2.db == sys.db && s2.readers[i].lock == HaveLast(from, LastValue(sys.db)) && s2.readers[i].fenceR == 0;
    QuietDraw(s2, i, from, LastValue(sys.db), s);
    var s3 := Next(s2, DrawFence(i, s));
    QuietAbort(s3, i, from, LastValue(sys.db), sys.db.nextXid, s);
  }

  lemma QuietDraw(sys: Sys, i: nat, from: nat, last: nat, s: nat)
    requires Quiet(sys) && i in sys.readers && sys.readers[i].lock == HaveLast(from, last)
    ensures var after := Next(sys, DrawFence(i, s));
            && after.db == sys.db.(nextXid := sys.db.nextXid + 1,
                                   running := map[s := Tx(Some(sys.db.nextXid), {}, map[])])
            && i in after.readers && after.readers[i] == sys.readers[i].(lock := HaveXid(from, last, sys.db.nextXid, s))
  {
    RunDbTwo(sys.db, Begin(s), DrawXid(s));
  }

  lemma QuietAbort(sys: Sys, i: nat, from: nat, last: nat, r: nat, s: nat)
    requires sys.db.running == map[s := Tx(Some(r), {}, map[])] && i in sys.readers
    requires sys.readers[i].lock == HaveXid(from, last, r, s) && sys.readers[i].fenceR == 0
    ensures var after := Next(Next(sys, AbortFence(i)), CheckFresh(i));
            && after.db.log == sys.db.log && after.db.seqLast == sys.db.seqLast && i in after.readers
            && after.readers[i].ret == Some(last) && after.readers[i].lock.Unlocked? && after.readers[i].fenceR == 0
  {
    RunDbOne(sys.db, Abort(s));
    var aborted := Next(sys, AbortFence(i));
    assert aborted.db.running == map[] && aborted.db.latestCompleted >= r;
  }

  /** With nothing in flight, at most one more ReadAllBounded call returns an empty page: either
      this call's bound already reaches a matching row, or the next call's bound reaches them all. */
  lemma AtMostOneEmptyPageWhenQuiet(sys: Sys, i: nat, from: nat, s: nat, scope: Scope)
    requires Inv(sys) && Quiet(sys) && i in sys.readers && sys.readers[i].lock.Unlocked?
    requires RowsIn(sys.db.log, scope, from, sys.db.seqLast) != []
    ensures var one := Run(sys, FenceCall(i, from, s));
            var two := Run(one, FenceCall(i, from, s));
            && one.db.log == sys.db.log
            && i in one.readers && one.readers[i].ret.Some?
            && (RowsIn(sys.db.log, scope, from, one.readers[i].ret.value) == [] ==>
                  && i in two.readers && two.readers[i].ret == Some(sys.db.seqLast)
                  && two.db.log == sys.db.log)
  {
    AfterCallRuns(sys, i, from, s);
    var one := AfterCall(sys, i, from, s);
    AfterCallRuns(one, i, from, s);
    var first := RowsIn(sys.db.log, scope, from, sys.db.seqLast)[0];
    assert from < first.pos <= sys.db.seqLast;
    InvAlongRun(sys, FenceCall(i, from, s));
    if sys.readers[i].fenceR != 0 {
      StoredCallWhenQuiet(sys, i, from, s);
      FreshCallWhenQuiet(one, i, from, s);
    } else {
      FreshCallWhenQuiet(sys, i, from, s);
    }
  }

  // ---------------------------------------------------------------- what the design rules out

  function Sample(): Row {
    Row("w", "t", [])
  }

  /** Session 1 draws position 1 without an id; session 2 appends position 2 in the right order and commits. */
  function PositionDrawnFirst(): Db {
    var one := Effect(Effect(Db(2, 1, 0, map[], map[]), Begin(1)), DrawPosition(1));
    var two := Effect(Effect(Effect(one, Begin(2)), DrawXid(2)), DrawPosition(2));
    Effect(Effect(two, Insert(2, 2, Sample())), Commit(2))
  }

  lemma PositionDrawnFirstIs()
    ensures var db := PositionDrawnFirst();
            && db.nextXid == 3 && db.latestCompleted == 2 && db.seqLast == 2
            && db.running.Keys == {1} && db.running[1].xid == None && db.running[1].rows == map[]
               && 1 in db.running[1].drawn
            && db.log == map[2 := Sample()]
  {
  }

  /** P1 is needed. If a transaction drew its position before its id, the fence of a later reader
      would clear while position 1 is still open, deliver position 2, and position 1 would then
      commit behind the cursor. */
  lemma PositionBeforeXidLosesARow()
    ensures var atRead := PositionDrawnFirst();
            var fenced := Effect(Effect(Effect(atRead, Begin(3)), DrawXid(3)), Abort(3));
            var later := Effect(Effect(Effect(fenced, DrawXid(1)), Insert(1, 1, Sample())), Commit(1));
            && LastValue(atRead) == 2 && Cleared(fenced, atRead.nextXid)
            && RowsIn(fenced.log, Workspace("w"), 0, 2) == [Entry(2, Sample())]
            && RowsIn(later.log, Workspace("w"), 0, 2) == [Entry(1, Sample()), Entry(2, Sample())]
  {
    var atRead := PositionDrawnFirst();
    PositionDrawnFirstIs();
    var fenced := Effect(Effect(Effect(atRead, Begin(3)), DrawXid(3)), Abort(3));
    assert fenced.running == atRead.running;
    TwoRows(fenced.log);
    FirstCommitsLate(fenced);
  }

  lemma FirstCommitsLate(db: Db)
    requires db.running.Keys == {1} && db.running[1].xid == None && db.running[1].rows == map[]
    requires db.log == map[2 := Sample()] && 1 in db.running[1].drawn
    ensures var later := Effect(Effect(Effect(db, DrawXid(1)), Insert(1, 1, Sample())), Commit(1));
            RowsIn(later.log, Workspace("w"), 0, 2) == [Entry(1, Sample()), Entry(2, Sample())]
  {
    var later := Effect(Effect(Effect(db, DrawXid(1)), Insert(1, 1, Sample())), Commit(1));
    TwoRows(later.log);
  }

  lemma TwoRows(log: Log)
    requires 2 in log && log[2] == Sample() && (1 in log ==> log[1] == Sample())
    ensures RowsIn(log, Workspace("w"), 0, 2) ==
            if 1 in log then [Entry(1, Sample()), Entry(2, Sample())] else [Entry(2, Sample())]
  {
    assert RowsIn(log, Workspace("w"), 0, 0) == [];
    assert RowsIn(log, Workspace("w"), 0, 1) == if 1 in log then [Entry(1, Sample())] else [];
  }
}
