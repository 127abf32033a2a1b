/** One stream in Postgres under concurrent append transactions (postgres/wsstore.go): head read, commit
    clock, inserts against the UNIQUE (stream, version) index, commit and rollback, interleaved
    statement by statement at READ COMMITTED. */
module StreamStore {
  import opened Wrappers
  import opened ByteStrings
  import opened StreamIds
  import opened Envelopes
  import opened ChainVerify
  import opened ChainedAppend

  /** Failed: the append returned an error, so the transaction can only end without its rows. */
  datatype Phase =
    | Started
    | HeadRead(prev: Digest)
    | Clocked(prev: Digest, recorded: Time)
    | Failed

  /** at holds the global positions of the rows inserted so far. */
  datatype Tx = Tx(p: AppendParams, phase: Phase, at: seq<nat>)

  datatype Store = Store(rows: seq<Envelope>, now: Time, txs: map<nat, Tx>)

  /** What stays fixed: the hashes, the workspace, the stream, when the chain began and how many rows predate it. */
  datatype Setting = Setting(h: Hasher, ws: Bytes, sid: StreamId, since: Option<Time>, k: nat)

  datatype Step =
    | Begin(t: nat, p: AppendParams)
    | ReadHead(t: nat)
    | ReadClock(t: nat)
    | Insert(t: nat, pos: nat)
    | Commit(t: nat)
    | Rollback(t: nat)
    | Tick(d: nat)

  function Inserted(c: Setting, tx: Tx): seq<Envelope> {
    if tx.phase.Clocked? && |tx.at| <= |tx.p.events|
    then Batch(c.h, tx.p, c.ws, tx.phase.prev, tx.phase.recorded, tx.at, |tx.at|) else []
  }

  function NextVersion(tx: Tx): nat {
    tx.p.expectedVersion + |tx.at| + 1
  }

  /** Another open transaction already inserted this version: the INSERT waits for it to settle. */
  predicate Blocked(st: Store, t: nat, v: nat) {
    exists u :: u in st.txs && u != t && st.txs[u].p.expectedVersion < v < NextVersion(st.txs[u])
  }

  function TxNext(c: Setting, st: Store, tx: Tx, step: Step): Tx {
    match step
    case ReadHead(_) =>
      if !tx.phase.Started? then tx
      else if |st.rows| != tx.p.expectedVersion then tx.(phase := Failed)
      else tx.(phase := HeadRead(LinkAfter(c.h, c.sid, Head(st.rows))))
    case ReadClock(_) =>
      if tx.phase.HeadRead? then tx.(phase := Clocked(tx.phase.prev, TruncateMicros(st.now))) else tx
    case Insert(t, pos) =>
      if !tx.phase.Clocked? || |tx.at| >= |tx.p.events| || Blocked(st, t, NextVersion(tx)) then tx
      else if NextVersion(tx) <= |st.rows| then tx.(phase := Failed, at := [])
      else tx.(at := tx.at + [pos])
    case _ => tx
  }

  /** The append returned without error, so the transaction may commit its rows. */
  predicate Complete(tx: Tx) {
    tx.phase.Clocked? && |tx.at| == |tx.p.events|
  }

  function Next(c: Setting, st: Store, step: Step): Store {
    match step
    case Tick(d) => st.(now := st.now + d)
    case Begin(t, p) =>
      if t in st.txs || p.sid != c.sid then st else st.(txs := st.txs[t := Tx(p, Started, [])])
    case Rollback(t) => st.(txs := st.txs - {t})
    case Commit(t) =>
      if t !in st.txs then st
      else
        var rows := if Complete(st.txs[t]) then st.rows + Inserted(c, st.txs[t]) else st.rows;
        st.(rows := rows, txs := st.txs - {t})
    case _ =>
      if step.t in st.txs then st.(txs := st.txs[step.t := TxNext(c, st, st.txs[step.t], step)]) else st
  }

  function Run(c: Setting, st: Store, steps: seq<Step>): Store {
    if steps == [] then st else Next(c, Run(c, st, steps[..|steps| - 1]), steps[|steps| - 1])
  }

  // ---------------------------------------------------------------- what every step keeps

  ghost predicate RecordedInOrder(rows: seq<Envelope>) {
    forall i, j | 0 <= i <= j < |rows| :: rows[i].recordedAt <= rows[j].recordedAt
  }

  ghost predicate RecordedBy(rows: seq<Envelope>, n: nat, t: Time)
    requires n <= |rows|
  {
    forall i | 0 <= i < n :: rows[i].recordedAt <= t
  }

  ghost predicate TxOk(c: Setting, st: Store, tx: Tx) {
    var e := tx.p.expectedVersion;
    && tx.p.sid == c.sid
    && |tx.at| <= |tx.p.events|
    && (!tx.phase.Clocked? ==> tx.at == [])
    && (tx.phase.HeadRead? || tx.phase.Clocked? ==>
          e <= |st.rows| && tx.phase.prev == LinkAfter(c.h, c.sid, Head(st.rows[..e])))
    && (tx.phase.Clocked? ==>
          RecordedBy(st.rows, e, tx.phase.recorded) && tx.phase.recorded <= TruncateMicros(st.now))
    && (tx.at != [] ==> e == |st.rows|)
  }

  ghost predicate Inv(c: Setting, st: Store) {
    && StreamOk(c.h, c.sid, c.since, st.rows, c.k)
    && RecordedInOrder(st.rows) && RecordedBy(st.rows, |st.rows|, TruncateMicros(st.now))
    && (forall t | t in st.txs :: TxOk(c, st, st.txs[t]))
    && (forall t, u | t in st.txs && u in st.txs && st.txs[t].at != [] && st.txs[u].at != [] :: t == u)
  }

  lemma MicrosGrow(a: Time, b: Time)
    requires a <= b
    ensures TruncateMicros(a) <= TruncateMicros(b)
  {
  }

  lemma TxStepOk(c: Setting, st: Store, step: Step)
    requires Inv(c, st) && (step.ReadHead? || step.ReadClock? || step.Insert?) && step.t in st.txs
    ensures TxOk(c, st, TxNext(c, st, st.txs[step.t], step))
    ensures TxNext(c, st, st.txs[step.t], step).at != [] ==> forall u | u in st.txs && st.txs[u].at != [] :: u == step.t
  {
    var tx := st.txs[step.t];
    assert TxOk(c, st, tx);
    assert st.rows[..|st.rows|] == st.rows;
    if step.Insert? && tx.phase.Clocked? && tx.at == [] {
      forall u | u in st.txs && u != step.t && st.txs[u].at != []
        ensures tx.p.expectedVersion == |st.rows| ==> Blocked(st, step.t, NextVersion(tx))
      {
        assert TxOk(c, st, st.txs[u]);
      }
    }
  }

  /** A transaction that inserted rows commits them exactly at the stream's end. */
  lemma CommitIsAtTheEnd(c: Setting, st: Store, t: nat)
    requires Inv(c, st) && t in st.txs && Complete(st.txs[t]) && st.txs[t].p.events != []
    ensures st.txs[t].p.expectedVersion == |st.rows|
    ensures st.txs[t].phase.prev == LinkAfter(c.h, c.sid, Head(st.rows))
  {
    assert TxOk(c, st, st.txs[t]);
    assert st.rows[..|st.rows|] == st.rows;
  }

  lemma CommitOk(c: Setting, st: Store, t: nat)
    requires Inv(c, st) && IgnoresStoreColumns(c.h) && t in st.txs && Complete(st.txs[t]) && st.txs[t].p.events != []
    ensures var rows := st.rows + Inserted(c, st.txs[t]);
            && StreamOk(c.h, c.sid, c.since, rows, c.k)
            && RecordedInOrder(rows) && RecordedBy(rows, |rows|, TruncateMicros(st.now))
  {
    var tx := st.txs[t];
    CommitIsAtTheEnd(c, st, t);
    assert TxOk(c, st, tx);
    BatchExtends(c.h, c.sid, c.since, st.rows, c.k, tx.p, c.ws, tx.phase.recorded, tx.at, |tx.at|);
  }

  lemma OthersKept(c: Setting, st: Store, t: nat, more: seq<Envelope>, u: nat)
    requires Inv(c, st) && u in st.txs && u != t && (more == [] || st.txs[u].at == [])
    ensures TxOk(c, st.(rows := st.rows + more), st.txs[u])
  {
    assert TxOk(c, st, st.txs[u]);
    var e := st.txs[u].p.expectedVersion;
    if e <= |st.rows| {
      assert (st.rows + more)[..e] == st.rows[..e];
    }
    if more == [] {
      assert st.rows + more == st.rows;
    }
  }

  lemma CommitStepOk(c: Setting, st: Store, t: nat)
    requires Inv(c, st) && IgnoresStoreColumns(c.h) && t in st.txs
    ensures Inv(c, Next(c, st, Commit(t)))
  {
    var tx := st.txs[t];
    assert TxOk(c, st, tx);
    var more := if Complete(tx) then Inserted(c, tx) else [];
    assert st.rows + [] == st.rows;
    if more != [] {
      CommitOk(c, st, t);
    }
    var st' := Next(c, st, Commit(t));
    assert st'.rows == st.rows + more;
    CommitLeavesOthers(c, st, t, more);
  }

  lemma CommitLeavesOthers(c: Setting, st: Store, t: nat, more: seq<Envelope>)
    requires Inv(c, st) && t in st.txs && more == if Complete(st.txs[t]) then Inserted(c, st.txs[t]) else []
    ensures var st' := Next(c, st, Commit(t)); forall u | u in st'.txs :: TxOk(c, st', st'.txs[u])
  {
    var st' := Next(c, st, Commit(t));
    assert st.rows + [] == st.rows;
    forall u | u in st'.txs
      ensures TxOk(c, st', st'.txs[u])
    {
      OthersKept(c, st, t, more, u);
    }
  }

  lemma InvKept(c: Setting, st: Store, step: Step)
    requires Inv(c, st) && IgnoresStoreColumns(c.h)
    ensures Inv(c, Next(c, st, step))
  {
    match step {
      case Tick(d) => TickOk(c, st, d);
      case Commit(t) => if t in st.txs { CommitStepOk(c, st, t); }
      case Begin(t, p) => BeginOk(c, st, t, p);
      case Rollback(t) => RollbackOk(c, st, t);
      case _ =>
        if step.t in st.txs {
          TxStepOk(c, st, step);
          ReplaceOk(c, st, step.t, TxNext(c, st, st.txs[step.t], step));
        }
    }
  }

  lemma BeginOk(c: Setting, st: Store, t: nat, p: AppendParams)
    requires Inv(c, st)
    ensures Inv(c, Next(c, st, Begin(t, p)))
  {
    var st' := Next(c, st, Begin(t, p));
    forall u | u in st'.txs
      ensures TxOk(c, st', st'.txs[u])
    {
      assert u in st.txs ==> TxOk(c, st, st.txs[u]);
    }
  }

  lemma RollbackOk(c: Setting, st: Store, t: nat)
    requires Inv(c, st)
    ensures Inv(c, Next(c, st, Rollback(t)))
  {
    var st' := Next(c, st, Rollback(t));
    forall u | u in st'.txs
      ensures TxOk(c, st', st'.txs[u])
    {
      assert TxOk(c, st, st.txs[u]);
    }
  }

  lemma ReplaceOk(c: Setting, st: Store, t: nat, tx: Tx)
    requires Inv(c, st) && t in st.txs && TxOk(c, st, tx)
    requires tx.at != [] ==> forall u | u in st.txs && st.txs[u].at != [] :: u == t
    ensures Inv(c, st.(txs := st.txs[t := tx]))
  {
    var st' := st.(txs := st.txs[t := tx]);
    forall u | u in st'.txs
      ensures TxOk(c, st', st'.txs[u])
    {
      if u != t {
        assert TxOk(c, st, st.txs[u]);
      }
    }
  }

  lemma TickOk(c: Setting, st: Store, d: nat)
    requires Inv(c, st)
    ensures Inv(c, Next(c, st, Tick(d)))
  {
    MicrosGrow(st.now, st.now + d);
    var st' := Next(c, st, Tick(d));
    forall t | t in st'.txs
      ensures TxOk(c, st', st'.txs[t])
    {
      assert TxOk(c, st, st.txs[t]);
    }
  }

  lemma {:induction false} InvAlongRun(c: Setting, st: Store, steps: seq<Step>)
    requires Inv(c, st) && IgnoresStoreColumns(c.h)
    ensures Inv(c, Run(c, st, steps))
  {
    if steps != [] {
      InvAlongRun(c, st, steps[..|steps| - 1]);
      InvKept(c, Run(c, st, steps[..|steps| - 1]), steps[|steps| - 1]);
    }
  }

  // ---------------------------------------------------------------- the guarantees

  ghost predicate Init(c: Setting, st: Store) {
    && st.txs == map[] && |st.rows| == c.k
    && StreamOk(c.h, c.sid, c.since, st.rows, c.k)
    && RecordedInOrder(st.rows) && RecordedBy(st.rows, |st.rows|, TruncateMicros(st.now))
  }

  /** Every stream that any interleaving of append transactions produces, over any prefix of k rows that
      predate the chain, is accepted by the checker, chained from k + 1, with its length as the head. */
  lemma ConcurrentAppendsVerify(c: Setting, sha: Sha, st: Store, steps: seq<Step>)
    requires c.h == Chain(sha) && Init(c, st)
    ensures var rows := Run(c, st, steps).rows;
            && Accepts(c.h, c.sid, c.since, rows)
            && CheckAll(c.h, Start(c.sid, c.since), rows).rep.chainedFrom == (if c.k < |rows| then c.k + 1 else 0)
            && CheckAll(c.h, Start(c.sid, c.since), rows).rep.head == |rows|
  {
    ChainIgnoresStoreColumns(sha);
    InvAlongRun(c, st, steps);
    StreamVerifies(c.h, c.sid, c.since, Run(c, st, steps).rows, c.k);
  }

  /** ReadStreamAsOf: WHERE recorded_at <= t ORDER BY version. */
  function AsOf(rows: seq<Envelope>, t: Time): seq<Envelope> {
    if rows == [] then []
    else
      var before := AsOf(rows[..|rows| - 1], t);
      if rows[|rows| - 1].recordedAt <= t then before + [rows[|rows| - 1]] else before
  }

  /** Among rows recorded in order, those recorded by t are the first n. */
  ghost predicate FirstBy(rows: seq<Envelope>, t: Time, n: nat) {
    n <= |rows| && forall i | 0 <= i < |rows| :: rows[i].recordedAt <= t <==> i < n
  }

  lemma {:induction false} AsOfIsPrefix(rows: seq<Envelope>, t: Time)
    requires RecordedInOrder(rows)
    ensures |AsOf(rows, t)| <= |rows| && AsOf(rows, t) == rows[..|AsOf(rows, t)|]
    ensures FirstBy(rows, t, |AsOf(rows, t)|)
  {
    if rows != [] {
      var n := |rows| - 1;
      var init, before := rows[..n], AsOf(rows[..n], t);
      AsOfIsPrefix(init, t);
      FirstByOneMore(rows, t, |before|);
      if rows[n].recordedAt <= t {
        assert before == init;
        assert rows == init + [rows[n]];
      }
    }
  }

  lemma FirstByOneMore(rows: seq<Envelope>, t: Time, k: nat)
    requires RecordedInOrder(rows) && rows != [] && FirstBy(rows[..|rows| - 1], t, k)
    ensures if rows[|rows| - 1].recordedAt <= t then k == |rows| - 1 && FirstBy(rows, t, k + 1) else FirstBy(rows, t, k)
  {
    var n := |rows| - 1;
    var init := rows[..n];
    assert forall i | 0 <= i < n :: init[i] == rows[i];
    if rows[n].recordedAt <= t && n > 0 {
      assert init[n - 1].recordedAt <= rows[n].recordedAt;
    }
  }

  /** recorded_at never decreases with the version, in any interleaving, because the clock is read after
      the version check; so a read as of any instant is a version prefix. */
  lemma RecordedAtIsMonotonic(c: Setting, sha: Sha, st: Store, steps: seq<Step>, t: Time)
    requires c.h == Chain(sha) && Init(c, st)
    ensures var rows := Run(c, st, steps).rows;
            && RecordedInOrder(rows)
            && |AsOf(rows, t)| <= |rows| && AsOf(rows, t) == rows[..|AsOf(rows, t)|]
  {
    ChainIgnoresStoreColumns(sha);
    InvAlongRun(c, st, steps);
    AsOfIsPrefix(Run(c, st, steps).rows, t);
  }

  /** The log is append-only: whatever runs, a committed row keeps its version and its content. */
  lemma {:induction false} StreamOnlyGrows(c: Setting, st: Store, steps: seq<Step>)
    ensures st.rows <= Run(c, st, steps).rows
  {
    if steps != [] {
      StreamOnlyGrows(c, st, steps[..|steps| - 1]);
    }
  }
}
