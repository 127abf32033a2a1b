/** Workspace.fenceBound and Workspace.ReadAllBounded (postgres/wsstore.go) as the code runs them: a value
    that keeps the stored round in two fields, against a database other sessions and other
    readers keep using between any two of its statements. */
module FencedReader {
  import opened Wrappers
  import opened EventLog
  import opened Paging
  import opened HorizonFence

  datatype ReadError = Unavailable | Poison(tooLarge: TooLarge)

  /** Steps of everybody except reader i. */
  predicate Others(steps: seq<Step>, i: nat) {
    forall k | 0 <= k < |steps| :: steps[k].Statement? || steps[k].i != i
  }

  lemma {:induction false} RunConcat(sys: Sys, a: seq<Step>, b: seq<Step>)
    ensures Run(sys, a + b) == Run(Run(sys, a), b)
    decreases |a|
  {
    if a == [] {
      assert a + b == b;
    } else {
      RunConcat(Next(sys, a[0]), a[1..], b);
      assert (a + b)[1..] == a[1..] + b;
    }
  }

  lemma {:induction false} OthersLeaveReader(sys: Sys, steps: seq<Step>, i: nat)
    requires Others(steps, i) && i in sys.readers
    ensures i in Run(sys, steps).readers && Run(sys, steps).readers[i] == sys.readers[i]
    decreases |steps|
  {
    if steps != [] {
      assert Others(steps[1..], i);
      OthersLeaveReader(Next(sys, steps[0]), steps[1..], i);
    }
  }

  /** The database server with everything that runs on it, and what ran so far. */
  class Cluster {
    var sys: Sys
    ghost const origin: Sys
    ghost var history: seq<Step>

    ghost predicate Reachable()
      reads this
    {
      Init(origin) && sys == Run(origin, history)
    }

    constructor (sys: Sys)
      requires Init(sys)
      ensures this.sys == sys && origin == sys && history == [] && Reachable()
    {
      this.sys := sys;
      this.origin := sys;
      this.history := [];
    }

    /** Let others run. */
    method Interleave(others: seq<Step>)
      requires Reachable()
      modifies this
      ensures Reachable()
      ensures sys == Run(old(sys), others) && history == old(history) + others
    {
      RunConcat(origin, history, others);
      sys := Run(sys, others);
      history := history + others;
    }

    method Perform(step: Step)
      requires Reachable()
      modifies this
      ensures Reachable()
      ensures sys == Next(old(sys), step) && history == old(history) + [step]
    {
      RunConcat(origin, history, [step]);
      sys := Next(sys, step);
      history := history + [step];
      assert Run(sys, []) == sys;
    }
  }

  lemma ReturnedBoundIsGranted(origin: Sys, history: seq<Step>, i: nat, b: nat)
    requires Init(origin) && i in Run(origin, history).readers && b in Run(origin, history).readers[i].granted
    ensures Granted(Run(origin, history).db, b)
  {
    InvAlongRun(origin, history);
    assert ReaderOk(Run(origin, history).db, Run(origin, history).readers[i]);
  }

  lemma BoundStaysGranted(origin: Sys, history: seq<Step>, others: seq<Step>, b: nat)
    requires Init(origin) && Granted(Run(origin, history).db, b)
    ensures Granted(Run(Run(origin, history), others).db, b)
  {
    if b > 1 {
      InvAlongRun(origin, history);
      SettledAlongRun(Run(origin, history), others, b);
    }
  }

  lemma StoredRoundIsReal(origin: Sys, history: seq<Step>, i: nat)
    requires Init(origin) && i in Run(origin, history).readers
    ensures Run(origin, history).readers[i].fenceR != 0 ==> Run(origin, history).readers[i].boundL > 0
    ensures Run(origin, history).readers[i].lock.HaveFence? ==> Run(origin, history).readers[i].lock.r > 0
  {
    InvAlongRun(origin, history);
    assert ReaderOk(Run(origin, history).db, Run(origin, history).readers[i]);
  }

  /** A statement the call issues fails: its first, or, when no round is stored and the sequence it reads is
      past the cursor, the draw or the check. */
  ghost predicate StatementFails(stored: bool, sys: Sys, i: nat, from: nat, sched: Schedule) {
    || 1 in sched.faults
    || (!stored && (2 in sched.faults || 3 in sched.faults)
        && LastValue(Run(Next(Run(sys, sched.enter), Enter(i, from)), sched.first).db) > from)
  }

  /** Every reader but i is as it was. */
  ghost predicate SameBut(before: Sys, after: Sys, i: nat) {
    before.readers - {i} == after.readers - {i}
  }

  /** How many fenceBound calls of reader i a history holds. */
  function Calls(history: seq<Step>, i: nat): nat {
    if history == [] then 0
    else Calls(history[..|history| - 1], i) + if history[|history| - 1].Enter? && history[|history| - 1].i == i then 1
      else 0
  }

  lemma {:induction false} OthersDoNotCall(history: seq<Step>, others: seq<Step>, i: nat)
    requires Others(others, i)
    ensures Calls(history + others, i) == Calls(history, i)
    decreases |others|
  {
    if others == [] {
      assert history + others == history;
    } else {
      var init := others[..|others| - 1];
      assert (history + others)[..|history + others| - 1] == history + init;
      OthersDoNotCall(history, init, i);
    }
  }

  /** Some session is always free: only finitely many run. */
  lemma {:induction false} FreeSession(busy: set<nat>) returns (s: nat)
    ensures forall t | t in busy :: t < s
    ensures s !in busy
  {
    if busy == {} {
      s := 0;
    } else {
      var t :| t in busy;
      s := FreeSession(busy - {t});
      s := if s <= t then t + 1 else s;
      assert forall u | u in busy :: u == t || u in busy - {t};
    }
  }

  /** The pool hands out a session that is not in use. */
  method PickSession(db: Db) returns (s: nat)
    ensures s !in db.running
  {
    ghost var free := FreeSession(db.running.Keys);
    assert free !in db.running;
    s :| s !in db.running;
  }

  /** What everybody else does before each statement of one fenceBound call, and which of its
      statements fail: the first, the draw, or the check. */
  datatype Schedule = Schedule(
    enter: seq<Step>, first: seq<Step>, draw: seq<Step>, abort: seq<Step>, check: seq<Step>, faults: set<nat>)
  {
    predicate Foreign(i: nat) {
      Others(enter, i) && Others(first, i) && Others(draw, i) && Others(abort, i) && Others(check, i)
    }
  }

  class Workspace {
    const cluster: Cluster
    const id: nat
    const ws: string
    var boundL: nat
    var fenceR: nat

    /** The fields are what the cluster-wide state records for this reader, between calls. */
    ghost predicate Valid()
      reads this, cluster
    {
      InCall(Unlocked)
    }

    ghost predicate InCall(lock: Lock)
      reads this, cluster
    {
      && cluster.Reachable()
      && id in cluster.sys.readers
      && var r := cluster.sys.readers[id];
      && r.lock == lock && r.boundL == boundL && r.fenceR == fenceR
    }

    /** WorkspaceStore: every call makes a new value with no round stored. */
    constructor (cluster: Cluster, id: nat, ws: string)
      requires cluster.Reachable() && id !in cluster.sys.readers
      modifies cluster
      ensures Valid() && this.cluster == cluster && this.id == id && this.ws == ws
      ensures boundL == 0 && fenceR == 0
      ensures cluster.sys == Next(old(cluster.sys), Open(id))
    {
      this.cluster := cluster;
      this.id := id;
      this.ws := ws;
      boundL, fenceR := 0, 0;
      new;
      cluster.Perform(Open(id));
    }

    /** One statement of ours, after whatever others do first. It changes no other reader. */
    method Issue(others: seq<Step>, step: Step) returns (seen: Db)
      requires cluster.Reachable() && id in cluster.sys.readers
      requires Others(others, id) && !step.Statement? && !step.Open? && step.i == id
      modifies cluster
      ensures cluster.Reachable() && id in cluster.sys.readers
      ensures old(cluster.history) < cluster.history
      ensures SameBut(Run(old(cluster.sys), others), cluster.sys, id)
      ensures seen == Run(old(cluster.sys), others).db
      ensures cluster.sys.readers[id] == ReaderPart(seen, old(cluster.sys.readers[id]), step)
      ensures Calls(cluster.history, id) == old(Calls(cluster.history, id)) + if step.Enter? then 1 else 0
    {
      OthersLeaveReader(cluster.sys, others, id);
      OthersDoNotCall(cluster.history, others, id);
      assert (cluster.history + others + [step])[..|cluster.history + others|] == cluster.history + others;
      cluster.Interleave(others);
      seen := cluster.sys.db;
      cluster.Perform(step);
    }

    /** fenceBound. The call only extends the history of the interleaved system, so every theorem
        about runs applies to it; a returned bound is one below which nothing can still appear. */
    method FenceBound(from: nat, sched: Schedule) returns (r: Result<nat, ReadError>)
      requires Valid() && sched.Foreign(id)
      modifies this, cluster
      ensures Valid() && old(cluster.history) < cluster.history
      ensures Calls(cluster.history, id) == old(Calls(cluster.history, id)) + 1
      ensures r.Err? ==> r.error.Unavailable?
      ensures r.Err? <==> StatementFails(old(fenceR) != 0, old(cluster.sys), id, from, sched)
      ensures r.Ok? ==> cluster.sys.readers[id].ret == Some(r.value)
      ensures r.Ok? ==> r.value in cluster.sys.readers[id].granted && Granted(cluster.sys.db, r.value)
      ensures r.Err? ==> boundL == old(boundL) && fenceR == old(fenceR)
      ensures r.Ok? && r.value != 0 ==> fenceR == 0
      ensures r == Ok(0) && old(fenceR) != 0 ==> boundL == old(boundL) && fenceR == old(fenceR)
    {
      EnterCall(from, sched.enter);
      if fenceR != 0 {
        r := CheckStoredRound(from, sched);
      } else {
        r := StartRound(from, sched);
      }
      if r.Ok? {
        ReturnedBoundIsGranted(cluster.origin, cluster.history, id, r.value);
      }
    }

    /** The call takes the reader's mutex. */
    method EnterCall(from: nat, others: seq<Step>)
      requires Valid() && Others(others, id)
      modifies cluster
      ensures InCall(Entered(from)) && old(cluster.history) < cluster.history
      ensures cluster.sys == Next(Run(old(cluster.sys), others), Enter(id, from))
      ensures Calls(cluster.history, id) == old(Calls(cluster.history, id)) + 1
    {
      OthersLeaveReader(cluster.sys, others, id);
      OthersDoNotCall(cluster.history, others, id);
      cluster.Interleave(others);
      ghost var before := cluster.history;
      cluster.Perform(Enter(id, from));
      assert cluster.history[..|before|] == before;
    }

    /** fenceBound's branch with no round stored: read L, and nothing more when there is nothing past from. */
    method StartRound(from: nat, sched: Schedule) returns (r: Result<nat, ReadError>)
      requires InCall(Entered(from)) && sched.Foreign(id) && fenceR == 0
      modifies this, cluster
      ensures Valid() && old(cluster.history) < cluster.history
      ensures Calls(cluster.history, id) == old(Calls(cluster.history, id))
      ensures r.Ok? ==> cluster.sys.readers[id].ret == Some(r.value) && r.value in cluster.sys.readers[id].granted
      ensures r.Err? ==> boundL == old(boundL) && fenceR == old(fenceR)
      ensures r.Ok? && r.value != 0 ==> fenceR == 0
      ensures var last := LastValue(Run(old(cluster.sys), sched.first).db);
              r.Err? <==> 1 in sched.faults || (last > from && (2 in sched.faults || 3 in sched.faults))
      ensures r.Err? ==> r.error.Unavailable?
    {
      if 1 in sched.faults {
        var seen := Issue(sched.first, Fail(id));
        return Err(Unavailable);
      }
      var seen := Issue(sched.first, ReadLast(id));
      var last := LastValue(seen);
      if last <= from {
        r := Ok(0);
      } else {
        r := DrawAndCheck(from, last, sched);
      }
    }

    /** fenceBound's branch for a round already stored. */
    method CheckStoredRound(from: nat, sched: Schedule) returns (r: Result<nat, ReadError>)
      requires InCall(Entered(from)) && sched.Foreign(id) && fenceR != 0
      modifies this, cluster
      ensures Valid() && old(cluster.history) < cluster.history
      ensures r.Ok? ==> cluster.sys.readers[id].ret == Some(r.value) && r.value in cluster.sys.readers[id].granted
      ensures r.Ok? && r.value != 0 ==> r.value == old(boundL) && boundL == 0 && fenceR == 0
      ensures r.Err? || r == Ok(0) ==> boundL == old(boundL) && fenceR == old(fenceR)
      ensures r.Err? <==> 1 in sched.faults
      ensures r.Err? ==> r.error.Unavailable?
      ensures Calls(cluster.history, id) == old(Calls(cluster.history, id))
    {
      StoredRoundIsReal(cluster.origin, cluster.history, id);
      if 1 in sched.faults {
        var seen := Issue(sched.first, Fail(id));
        r := Err(Unavailable);
      } else {
        var seen := Issue(sched.first, CheckStored(id));
        if Cleared(seen, fenceR) {
          r := Ok(boundL);
          boundL, fenceR := 0, 0;
        } else {
          r := Ok(0);
        }
      }
    }

    /** fenceBound's tail: draw and abort R, then check or store the round. */
    method DrawAndCheck(from: nat, last: nat, sched: Schedule) returns (r: Result<nat, ReadError>)
      requires InCall(HaveLast(from, last)) && sched.Foreign(id) && fenceR == 0 && 0 < last
      modifies this, cluster
      ensures Valid() && old(cluster.history) < cluster.history
      ensures r.Ok? ==> cluster.sys.readers[id].ret == Some(r.value) && r.value in cluster.sys.readers[id].granted
      ensures r.Err? ==> boundL == old(boundL) && fenceR == old(fenceR)
      ensures r.Ok? && r.value != 0 ==> r.value == last && boundL == old(boundL) && fenceR == 0
      ensures r == Ok(0) ==> boundL == last && fenceR == Run(old(cluster.sys), sched.draw).db.nextXid && fenceR != 0
      ensures r.Err? <==> 2 in sched.faults || 3 in sched.faults
      ensures r.Err? ==> r.error.Unavailable?
      ensures Calls(cluster.history, id) == old(Calls(cluster.history, id))
    {
      var x := DrawFenceXid(from, last, sched);
      r := AbortAndCheck(from, last, x, sched);
    }

    /** drawFence's rollback, and the check of the round it made. */
    method AbortAndCheck(from: nat, last: nat, x: nat, sched: Schedule) returns (r: Result<nat, ReadError>)
      requires exists s: nat :: InCall(HaveXid(from, last, x, s))
      requires sched.Foreign(id) && fenceR == 0 && 0 < last
      modifies this, cluster
      ensures Valid() && old(cluster.history) < cluster.history
      ensures r.Ok? ==> cluster.sys.readers[id].ret == Some(r.value) && r.value in cluster.sys.readers[id].granted
      ensures r.Err? ==> boundL == old(boundL) && fenceR == old(fenceR)
      ensures r.Ok? && r.value != 0 ==> r.value == last && boundL == old(boundL) && fenceR == 0
      ensures r == Ok(0) ==> boundL == last && fenceR == x && fenceR != 0
      ensures r.Err? <==> 2 in sched.faults || 3 in sched.faults
      ensures r.Err? ==> r.error.Unavailable?
      ensures Calls(cluster.history, id) == old(Calls(cluster.history, id))
    {
      if 2 in sched.faults {
        var seen := Issue([], Fail(id));
        return Err(Unavailable);
      }
      var seen := Issue(sched.abort, AbortFence(id));
      r := CheckFreshRound(from, last, x, sched);
    }

    /** drawFence's transaction: a free session of the pool begins and is assigned the next id. */
    method DrawFenceXid(from: nat, last: nat, sched: Schedule) returns (x: nat)
      requires InCall(HaveLast(from, last)) && sched.Foreign(id)
      modifies cluster
      ensures x == Run(old(cluster.sys), sched.draw).db.nextXid
      ensures exists s: nat :: InCall(HaveXid(from, last, x, s))
      ensures old(cluster.history) < cluster.history
      ensures Calls(cluster.history, id) == old(Calls(cluster.history, id))
    {
      OthersLeaveReader(cluster.sys, sched.draw, id);
      OthersDoNotCall(cluster.history, sched.draw, id);
      cluster.Interleave(sched.draw);
      var s := PickSession(cluster.sys.db);
      x := cluster.sys.db.nextXid;
      var seen := Issue([], DrawFence(id, s));
      assert InCall(HaveXid(from, last, x, s));
    }

    method CheckFreshRound(from: nat, last: nat, x: nat, sched: Schedule) returns (r: Result<nat, ReadError>)
      requires InCall(HaveFence(from, last, x)) && sched.Foreign(id) && fenceR == 0 && 0 < last
      modifies this, cluster
      ensures Valid() && old(cluster.history) < cluster.history
      ensures r.Ok? ==> cluster.sys.readers[id].ret == Some(r.value) && r.value in cluster.sys.readers[id].granted
      ensures r.Err? ==> boundL == old(boundL) && fenceR == old(fenceR)
      ensures r.Ok? && r.value != 0 ==> r.value == last && boundL == old(boundL) && fenceR == 0
      ensures r == Ok(0) ==> boundL == last && fenceR == x && fenceR != 0
      ensures r.Err? <==> 3 in sched.faults
      ensures r.Err? ==> r.error.Unavailable?
      ensures Calls(cluster.history, id) == old(Calls(cluster.history, id))
    {
      StoredRoundIsReal(cluster.origin, cluster.history, id);
      if 3 in sched.faults {
        var seen := Issue(sched.check, Fail(id));
        r := Err(Unavailable);
      } else {
        var seen := Issue(sched.check, CheckFresh(id));
        if Cleared(seen, x) {
          r := Ok(last);
        } else {
          boundL, fenceR := last, x;
          r := Ok(0);
        }
      }
    }

    /** ReadAllBounded. Whatever others commit while it runs, including between its two
        queries, a returned page is exactly the matching rows from the cursor to the page's
        last position in the log as it stands at the end, and that range is closed for good. It fails
        only when a statement of the fence does, or when the first matching row is over the cap. */
    method ReadAllBounded(from: nat, lim: Limits, types: set<string>, sched: Schedule,
                          beforeQueries: seq<Step>, betweenQueries: seq<Step>)
      returns (r: Result<Page, ReadError>)
      requires Valid() && sched.Foreign(id) && Others(beforeQueries, id) && Others(betweenQueries, id)
      modifies this, cluster
      ensures Valid() && old(cluster.history) <= cluster.history
      ensures r.Ok? ==> Closed(cluster.sys.db, Types(ws, types), from, lim, r.value)
      ensures types == {} ==> r == Ok(Page([], false))
      ensures types != {} ==> Calls(cluster.history, id) == old(Calls(cluster.history, id)) + 1
      ensures r == Err(Unavailable) <==>
                types != {} && StatementFails(old(fenceR) != 0, old(cluster.sys), id, from, sched)
      ensures r.Err? && r.error.Poison? ==>
                && cluster.sys.readers[id].ret.Some?
                && Poisoned(cluster.sys.db.log, Types(ws, types), from, cluster.sys.readers[id].ret.value, lim,
                            r.error.tooLarge)
      ensures r.Ok? && types != {} ==>
                && cluster.sys.readers[id].ret.Some?
                && TakesAll(cluster.sys.db.log, Types(ws, types), from, cluster.sys.readers[id].ret.value, lim, r.value)
    {
      if types == {} {
        EmptyPageIsClosed(cluster.sys.db, Types(ws, types), from, lim);
        return Ok(Page([], false));
      }
      var bound := FenceBound(from, sched);
      if bound.Err? {
        return Err(bound.error);
      }
      EmptyPageIsClosed(cluster.sys.db, Types(ws, types), from, lim);
      if bound.value <= from {
        return Ok(Page([], false));
      }
      OthersLeaveReader(cluster.sys, beforeQueries, id);
      OthersDoNotCall(cluster.history, beforeQueries, id);
      BoundStaysGranted(cluster.origin, cluster.history, beforeQueries, bound.value);
      cluster.Interleave(beforeQueries);
      r := SelectAndFetch(from, bound.value, lim, types, betweenQueries);
    }

    /** The two queries of ReadAllBounded under a bound the fence granted. */
    method SelectAndFetch(from: nat, bound: nat, lim: Limits, types: set<string>, betweenQueries: seq<Step>)
      returns (r: Result<Page, ReadError>)
      requires Valid() && Others(betweenQueries, id) && from < bound && Granted(cluster.sys.db, bound)
      modifies cluster
      ensures Valid() && old(cluster.history) <= cluster.history
      ensures cluster.sys.readers[id] == old(cluster.sys.readers[id])
      ensures Calls(cluster.history, id) == old(Calls(cluster.history, id))
      ensures r.Err? ==> r.error.Poison? && Poisoned(cluster.sys.db.log, Types(ws, types), from, bound, lim,
                                                     r.error.tooLarge)
      ensures r.Err? <==> FirstIsOverCap(old(cluster.sys.db.log), Types(ws, types), from, bound, lim)
      ensures r.Ok? ==> Closed(cluster.sys.db, Types(ws, types), from, lim, r.value)
      ensures r.Ok? ==> TakesAll(cluster.sys.db.log, Types(ws, types), from, bound, lim, r.value)
    {
      r := Select(from, bound, lim, types, betweenQueries);
      if r.Err? {
        return;
      }
      OthersLeaveReader(cluster.sys, betweenQueries, id);
      OthersDoNotCall(cluster.history, betweenQueries, id);
      cluster.Interleave(betweenQueries);
      ClosedRowsAreThere(cluster.sys.db, Types(ws, types), from, lim, r.value);
      var rows := Fetch(cluster.sys.db.log, r.value.rows);
      r := Ok(Page(rows, r.value.truncated));
    }

    /** The first query and the page loop; what it chose stays right whatever runs before the second. */
    method Select(from: nat, bound: nat, lim: Limits, types: set<string>, ghost later: seq<Step>)
      returns (r: Result<Page, ReadError>)
      requires Valid() && from < bound && Granted(cluster.sys.db, bound)
      ensures r.Err? ==> r.error.Poison? && Poisoned(cluster.sys.db.log, Types(ws, types), from, bound, lim,
                                                     r.error.tooLarge)
      ensures r.Err? <==> FirstIsOverCap(cluster.sys.db.log, Types(ws, types), from, bound, lim)
      ensures r.Ok? ==> Closed(Run(cluster.sys, later).db, Types(ws, types), from, lim, r.value)
      ensures r.Ok? ==> TakesAll(Run(cluster.sys, later).db.log, Types(ws, types), from, bound, lim, r.value)
    {
      var candidates := RowsIn(cluster.sys.db.log, Types(ws, types), from, bound);
      var page := ReadPage(candidates, lim);
      if page.Err? {
        return Err(Poison(page.error));
      }
      PageStaysComplete(cluster.origin, cluster.history, later, Types(ws, types), from, bound, lim, page.value);
      PageIsClosed(cluster.origin, cluster.history, later, Types(ws, types), from, bound, lim, page.value);
      r := Ok(page.value);
    }
  }

  /** There is a matching row inside the bound, and the first one is over the cap. */
  ghost predicate FirstIsOverCap(log: Log, scope: Scope, from: nat, bound: nat, lim: Limits) {
    RowsIn(log, scope, from, bound) != [] && OverCap(lim.cap, RowsIn(log, scope, from, bound)[0])
  }

  /** ... and the error names it. */
  ghost predicate Poisoned(log: Log, scope: Scope, from: nat, bound: nat, lim: Limits, t: TooLarge) {
    && FirstIsOverCap(log, scope, from, bound, lim)
    && var e := RowsIn(log, scope, from, bound)[0];
       t == TooLarge(e.pos, e.row.typ, |e.row.payload|, lim.cap)
  }

  /** What everybody else does around one page read of a stream. */
  datatype Round = Round(idle: seq<Step>, sched: Schedule, beforeQueries: seq<Step>, betweenQueries: seq<Step>)
  {
    predicate Foreign(i: nat) {
      Others(idle, i) && sched.Foreign(i) && Others(beforeQueries, i) && Others(betweenQueries, i)
    }
  }

  /** What everything sent up to a cursor looks like in the log. */
  ghost predicate SentUpTo(db: Db, scope: Scope, from: nat, pos: nat, sent: seq<Entry>) {
    from <= pos && sent == RowsIn(db.log, scope, from, pos) && (pos != from ==> SettledTo(db, pos))
  }

  /** One round of the loop up to the sends: what was sent before stays right, and with the page added it
      is right up to the cursor after it. */
  method ReadRound(log: Workspace, ghost from: nat, pos: nat, lim: Limits, types: set<string>, round: Round)
    returns (page: Result<Page, ReadError>)
    requires log.Valid() && lim.limit > 0 && types != {} && round.Foreign(log.id)
    requires from <= pos && (pos != from ==> SettledTo(log.cluster.sys.db, pos))
    modifies log, log.cluster
    ensures log.Valid() && Calls(log.cluster.history, log.id) == old(Calls(log.cluster.history, log.id)) + 1
    ensures var scope := Types(log.ws, types);
            var sent := old(RowsIn(log.cluster.sys.db.log, scope, from, pos));
            if page.Err? then SentUpTo(log.cluster.sys.db, scope, from, pos, sent)
            else SentUpTo(log.cluster.sys.db, scope, from, CursorAfter(pos, page.value), sent + page.value.rows)
    ensures page.Err? ==> round.sched.faults != {} || Stuck(log.cluster.sys, log.id, Types(log.ws, types), pos, lim)
    ensures page.Ok? ==> forall e | e in page.value.rows :: !OverCap(lim.cap, e)
    ensures page.Ok? && !ContinuesAtOnce(page.value, lim.limit) ==>
              Drained(log.cluster.sys, log.id, Types(log.ws, types), CursorAfter(pos, page.value))
  {
    ghost var before := log.cluster.history;
    OthersLeaveReader(log.cluster.sys, round.idle, log.id);
    OthersDoNotCall(before, round.idle, log.id);
    log.cluster.Interleave(round.idle);
    page := log.ReadAllBounded(pos, lim, types, round.sched, round.beforeQueries, round.betweenQueries);
    SentStaysExact(log.cluster.origin, before, log.cluster.history, Types(log.ws, types), from, pos);
    if page.Ok? {
      PageMovesOn(log.cluster.sys, log.id, Types(log.ws, types), from, pos, lim, page.value);
    }
  }

  /** The server's read/send loop over one Workspace. Whatever everybody else does between and
      during its page reads, what it has sent is exactly the matching rows of the log, as it stands
      now, from where it started to where it is. It stops after the given rounds or at the first
      error, which is a failed statement or an over-cap row next in line; it wants to wait only when
      nothing matching is left inside the bound it read up to. */
  method StreamPages(log: Workspace, from: nat, lim: Limits, types: set<string>, rounds: seq<Round>)
    returns (sent: seq<Entry>, pos: nat, failed: bool, idle: bool)
    requires log.Valid() && lim.limit > 0 && types != {}
    requires forall k | 0 <= k < |rounds| :: rounds[k].Foreign(log.id)
    modifies log, log.cluster
    ensures log.Valid()
    ensures from <= pos && sent == RowsIn(log.cluster.sys.db.log, Types(log.ws, types), from, pos)
    ensures pos != from ==> SettledTo(log.cluster.sys.db, pos)
    ensures forall e | e in sent :: !OverCap(lim.cap, e)
    ensures rounds != [] && !failed && !idle ==> sent != []
    ensures !failed ==> Calls(log.cluster.history, log.id) == old(Calls(log.cluster.history, log.id)) + |rounds|
    ensures failed ==> Faulty(rounds, Calls(log.cluster.history, log.id) - old(Calls(log.cluster.history, log.id)) - 1)
                       || Stuck(log.cluster.sys, log.id, Types(log.ws, types), pos, lim)
    ensures idle ==> Drained(log.cluster.sys, log.id, Types(log.ws, types), pos)
  {
    sent, pos, failed, idle := [], from, false, false;
    var k := 0;
    while k < |rounds|
      invariant 0 <= k <= |rounds| && log.Valid() && !failed
      invariant from <= pos && sent == RowsIn(log.cluster.sys.db.log, Types(log.ws, types), from, pos)
      invariant pos != from ==> SettledTo(log.cluster.sys.db, pos)
      invariant forall e | e in sent :: !OverCap(lim.cap, e)
      invariant 0 < k && !idle ==> sent != []
      invariant Calls(log.cluster.history, log.id) == old(Calls(log.cluster.history, log.id)) + k
      invariant idle ==> Drained(log.cluster.sys, log.id, Types(log.ws, types), pos)
    {
      var page := ReadRound(log, from, pos, lim, types, rounds[k]);
      if page.Err? {
        failed, idle := true, false;
        return;
      }
      sent, pos := SendAll(sent, pos, page.value);
      idle := !ContinuesAtOnce(page.value, lim.limit);
      k := k + 1;
    }
  }

  /** A statement of round k was to fail. */
  predicate Faulty(rounds: seq<Round>, k: int) {
    0 <= k < |rounds| && rounds[k].sched.faults != {}
  }

  /** The next matching row inside the bound reader i was last given is over the cap. */
  ghost predicate Stuck(sys: Sys, i: nat, scope: Scope, pos: nat, lim: Limits) {
    i in sys.readers && sys.readers[i].ret.Some?
      && FirstIsOverCap(sys.db.log, scope, pos, sys.readers[i].ret.value, lim)
  }

  /** No matching row is left between pos and the bound reader i was last given. */
  ghost predicate Drained(sys: Sys, i: nat, scope: Scope, pos: nat) {
    && i in sys.readers && sys.readers[i].ret.Some?
    && (sys.readers[i].ret.value > 1 ==> RowsIn(sys.db.log, scope, pos, sys.readers[i].ret.value) == [])
  }

  lemma PageMovesOn(sys: Sys, i: nat, scope: Scope, from: nat, pos: nat, lim: Limits, page: Page)
    requires i in sys.readers && sys.readers[i].ret.Some? && lim.limit > 0 && from <= pos
    requires Closed(sys.db, scope, pos, lim, page)
    requires TakesAll(sys.db.log, scope, pos, sys.readers[i].ret.value, lim, page)
    ensures pos <= CursorAfter(pos, page)
    ensures RowsIn(sys.db.log, scope, from, pos) + page.rows == RowsIn(sys.db.log, scope, from, CursorAfter(pos, page))
    ensures !ContinuesAtOnce(page, lim.limit) ==> Drained(sys, i, scope, CursorAfter(pos, page))
  {
    var bound := sys.readers[i].ret.value;
    assert pos <= CursorAfter(pos, page);
    RowsInSplits(sys.db.log, scope, from, pos, CursorAfter(pos, page));
    if pos < bound && bound > 1 {
      IdleMeansDrained(sys.db.log, scope, pos, bound, lim, page);
    }
  }

  /** The inner loop: send each row of the page and move the cursor to it. */
  method SendAll(already: seq<Entry>, from: nat, page: Page) returns (sent: seq<Entry>, pos: nat)
    ensures sent == already + page.rows
    ensures pos == CursorAfter(from, page)
  {
    sent, pos := already, from;
    for i := 0 to |page.rows|
      invariant sent == already + page.rows[..i]
      invariant pos == if i == 0 then from else page.rows[i - 1].pos
    {
      sent := sent + [page.rows[i]];
      pos := page.rows[i].pos;
    }
  }

  lemma SentStaysExact(origin: Sys, before: seq<Step>, now: seq<Step>, scope: Scope, from: nat, pos: nat)
    requires Init(origin) && before <= now && from <= pos
    requires pos != from ==> SettledTo(Run(origin, before).db, pos)
    ensures RowsIn(Run(origin, before).db.log, scope, from, pos) == RowsIn(Run(origin, now).db.log, scope, from, pos)
    ensures pos != from ==> SettledTo(Run(origin, now).db, pos)
  {
    if pos != from {
      var more := now[|before|..];
      assert before + more == now;
      RunConcat(origin, before, more);
      InvAlongRun(origin, before);
      SettledAlongRun(Run(origin, before), more, pos);
      RowsInAgrees(Run(origin, before).db.log, Run(origin, now).db.log, scope, from, pos);
    }
  }

  /** The page is the matching rows of the log from the cursor to its own end, and nothing can
      still appear in that range. */
  ghost predicate Closed(db: Db, scope: Scope, from: nat, lim: Limits, page: Page) {
    var end := CursorAfter(from, page);
    && page.rows == RowsIn(db.log, scope, from, end)
    && (page.rows != [] ==> SettledTo(db, end))
    && (forall e | e in page.rows :: !OverCap(lim.cap, e))
  }

  /** The page takes as much of the bound as its limits allow. A bound of 1 from a sequence nothing
      was drawn from promises nothing about position 1. */
  ghost predicate TakesAll(log: Log, scope: Scope, from: nat, bound: nat, lim: Limits, page: Page) {
    if bound <= from then page == Page([], false)
    else bound > 1 ==> IsPage(RowsIn(log, scope, from, bound), lim, page)
  }

  lemma PageStaysComplete(origin: Sys, history: seq<Step>, others: seq<Step>, scope: Scope, from: nat, bound: nat,
                          lim: Limits, page: Page)
    requires Init(origin) && Granted(Run(origin, history).db, bound) && from < bound
    requires IsPage(RowsIn(Run(origin, history).db.log, scope, from, bound), lim, page)
    ensures TakesAll(Run(Run(origin, history), others).db.log, scope, from, bound, lim, page)
  {
    if bound > 1 {
      InvAlongRun(origin, history);
      SettledAlongRun(Run(origin, history), others, bound);
      RowsInAgrees(Run(origin, history).db.log, Run(Run(origin, history), others).db.log, scope, from, bound);
    }
  }

  lemma EmptyPageIsClosed(db: Db, scope: Scope, from: nat, lim: Limits)
    ensures forall t :: Closed(db, scope, from, lim, Page([], t))
  {
    assert RowsIn(db.log, scope, from, from) == [];
  }

  /** A page selected inside a granted bound is still the closed page after anything else runs. */
  lemma PageIsClosed(origin: Sys, history: seq<Step>, others: seq<Step>, scope: Scope, from: nat, bound: nat,
                     lim: Limits, page: Page)
    requires Init(origin) && Granted(Run(origin, history).db, bound) && from < bound
    requires IsPage(RowsIn(Run(origin, history).db.log, scope, from, bound), lim, page)
    ensures Closed(Run(Run(origin, history), others).db, scope, from, lim, page)
  {
    var sys := Run(origin, history);
    InvAlongRun(origin, history);
    if page.rows == [] {
      EmptyPageIsClosed(Run(sys, others).db, scope, from, lim);
    } else {
      PageCoversItsRange(sys.db.log, scope, from, bound, lim, page);
      var end := CursorAfter(from, page);
      CommittedInsideGranted(sys.db, bound, end);
      SettledAlongRun(sys, others, end);
      RowsInAgrees(sys.db.log, Run(sys, others).db.log, scope, from, end);
    }
  }

  /** The log holds these rows. */
  ghost predicate RowsOf(log: Log, chosen: seq<Entry>) {
    forall i | 0 <= i < |chosen| :: chosen[i].pos in log && log[chosen[i].pos] == chosen[i].row
  }

  lemma ClosedRowsAreThere(db: Db, scope: Scope, from: nat, lim: Limits, page: Page)
    requires Closed(db, scope, from, lim, page)
    ensures RowsOf(db.log, page.rows)
  {
  }

  /** Step 2 of ReadAllBounded: full rows for the chosen positions only. */
  method Fetch(log: Log, chosen: seq<Entry>) returns (rows: seq<Entry>)
    requires RowsOf(log, chosen)
    ensures rows == chosen
  {
    rows := [];
    for k := 0 to |chosen|
      invariant rows == chosen[..k]
    {
      rows := rows + [Entry(chosen[k].pos, log[chosen[k].pos])];
    }
  }
}
