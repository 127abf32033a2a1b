/** Serializability at the level of the store's statements: Handle's appends (aggregate/runtime.go) as the
    interleaved Postgres transactions of StreamStore, with nothing taken as one atomic step. */
module SerialAppends {
  import opened Wrappers
  import opened ByteStrings
  import opened Envelopes
  import opened ChainedAppend
  import opened Aggregate
  import opened TimeTravel
  import K = Commands
  import St = StreamStore

  /** The command an append carries out, and what Decide answered it with. */
  datatype Order<C, E> = Order(cmd: C, events: seq<E>)

  function Payloads(p: AppendParams): (r: seq<Encoded>)
    ensures |r| == |p.events|
    ensures forall i | 0 <= i < |r| :: r[i] == Encoded(p.events[i].typeUrl, p.events[i].schemaVersion,
                                                       p.events[i].payload)
  {
    seq(|p.events|, i requires 0 <= i < |p.events| =>
                      Encoded(p.events[i].typeUrl, p.events[i].schemaVersion, p.events[i].payload))
  }

  /** The append carries what Decide produced on the fold of the first expectedVersion events. */
  ghost predicate Honest<S, C, E>(rt: Runtime<S, C, E>, log: seq<Encoded>, p: AppendParams, o: Order<C, E>) {
    && K.DecidedOn(rt, log, p.expectedVersion, o.cmd, o.events)
    && K.EncodeAll(rt, o.events) == Some(Payloads(p))
  }

  /** Every transaction of the run began with such an append, for some prefix of the rows then committed. */
  ghost predicate HonestRun<S, C, E>(
    rt: Runtime<S, C, E>, why: AppendParams -> Order<C, E>, c: St.Setting, st: St.Store, steps: seq<St.Step>)
  {
    steps == [] ||
    (var init, last := steps[..|steps| - 1], steps[|steps| - 1];
     && HonestRun(rt, why, c, st, init)
     && (last.Begin? ==> Honest(rt, Stored(St.Run(c, st, init).rows), last.p, why(last.p))))
  }

  /** Transaction t commits rows now. */
  predicate Lands(st: St.Store, step: St.Step) {
    step.Commit? && step.t in st.txs && St.Complete(st.txs[step.t]) && st.txs[step.t].p.events != []
  }

  function WithLanding<C, E>(why: AppendParams -> Order<C, E>, st: St.Store, step: St.Step,
                             batches: seq<K.Batch<C, E>>): seq<K.Batch<C, E>> {
    if Lands(st, step) then
      var p := st.txs[step.t].p;
      batches + [K.Batch(step.t, why(p).cmd, p.expectedVersion, why(p).events)]
    else batches
  }

  /** The batches in the order in which their transactions committed. */
  function Landed<C, E>(why: AppendParams -> Order<C, E>, c: St.Setting, st: St.Store,
                        steps: seq<St.Step>): seq<K.Batch<C, E>> {
    if steps == [] then []
    else
      var init := steps[..|steps| - 1];
      WithLanding(why, St.Run(c, st, init), steps[|steps| - 1], Landed(why, c, st, init))
  }

  ghost predicate TxsHonest<S, C, E>(rt: Runtime<S, C, E>, why: AppendParams -> Order<C, E>, st: St.Store) {
    forall t | t in st.txs :: Honest(rt, Stored(st.rows), st.txs[t].p, why(st.txs[t].p))
  }

  lemma HonestGrows<S, C, E>(rt: Runtime<S, C, E>, log: seq<Encoded>, later: seq<Encoded>, p: AppendParams,
                             o: Order<C, E>)
    requires Honest(rt, log, p, o) && log <= later
    ensures Honest(rt, later, p, o)
  {
    assert later[..p.expectedVersion] == log[..p.expectedVersion];
  }

  lemma StoredConcat(a: seq<Envelope>, b: seq<Envelope>)
    ensures Stored(a + b) == Stored(a) + Stored(b)
  {
  }

  lemma {:induction false} BatchStores(h: Hasher, p: AppendParams, ws: Bytes, prev: Digest, recorded: Time,
                                       at: seq<nat>, n: nat)
    requires n <= |p.events| && n <= |at|
    ensures Stored(Batch(h, p, ws, prev, recorded, at, n)) == Payloads(p)[..n]
  {
    if n > 0 {
      BatchStores(h, p, ws, prev, recorded, at, n - 1);
      var before := Batch(h, p, ws, prev, recorded, at, n - 1);
      var e := Placed(Chained(h, p, ws, n - 1, LinkIn(before, prev), recorded), at[n - 1]);
      StoredConcat(before, [e]);
      assert Stored([e]) == [Payloads(p)[n - 1]];
      assert Payloads(p)[..n] == Payloads(p)[..n - 1] + [Payloads(p)[n - 1]];
    }
  }

  lemma LandingStores(c: St.Setting, st: St.Store, step: St.Step)
    requires Lands(st, step)
    ensures Stored(St.Next(c, st, step).rows) == Stored(st.rows) + Payloads(st.txs[step.t].p)
  {
    var tx := st.txs[step.t];
    StoredConcat(st.rows, St.Inserted(c, tx));
    BatchStores(c.h, tx.p, c.ws, tx.phase.prev, tx.phase.recorded, tx.at, |tx.at|);
    assert Payloads(tx.p)[..|tx.at|] == Payloads(tx.p);
  }

  lemma OtherStepsStore(c: St.Setting, st: St.Store, step: St.Step)
    requires !Lands(st, step)
    ensures St.Next(c, st, step).rows == st.rows
  {
  }

  lemma StoredGrows(c: St.Setting, st: St.Store, step: St.Step)
    ensures Stored(st.rows) <= Stored(St.Next(c, st, step).rows)
  {
    if Lands(st, step) {
      LandingStores(c, st, step);
    } else {
      OtherStepsStore(c, st, step);
    }
  }

  /** A transaction keeps the append it began with. */
  lemma TxsKeepParams(c: St.Setting, st: St.Store, step: St.Step)
    ensures forall t | t in St.Next(c, st, step).txs ::
              if t in st.txs then St.Next(c, st, step).txs[t].p == st.txs[t].p
              else step.Begin? && St.Next(c, st, step).txs[t].p == step.p
    ensures forall t | t in St.Next(c, st, step).txs && t !in st.txs ::
              step.Begin? && step.t == t && St.Next(c, st, step).rows == st.rows
  {
  }

  lemma TxsStayHonest<S, C, E>(rt: Runtime<S, C, E>, why: AppendParams -> Order<C, E>, c: St.Setting, st: St.Store,
                               step: St.Step)
    requires TxsHonest(rt, why, st) && (step.Begin? ==> Honest(rt, Stored(st.rows), step.p, why(step.p)))
    ensures TxsHonest(rt, why, St.Next(c, st, step))
  {
    var st' := St.Next(c, st, step);
    StoredGrows(c, st, step);
    TxsKeepParams(c, st, step);
    forall t | t in st'.txs
      ensures Honest(rt, Stored(st'.rows), st'.txs[t].p, why(st'.txs[t].p))
    {
      if t in st.txs {
        HonestGrows(rt, Stored(st.rows), Stored(st'.rows), st.txs[t].p, why(st.txs[t].p));
      }
    }
  }

  lemma {:induction false} HonestAlongRun<S, C, E>(
    rt: Runtime<S, C, E>, why: AppendParams -> Order<C, E>, c: St.Setting, st: St.Store, steps: seq<St.Step>)
    requires St.Init(c, st) && HonestRun(rt, why, c, st, steps)
    ensures TxsHonest(rt, why, St.Run(c, st, steps))
  {
    if steps != [] {
      HonestAlongRun(rt, why, c, st, steps[..|steps| - 1]);
      TxsStayHonest(rt, why, c, St.Run(c, st, steps[..|steps| - 1]), steps[|steps| - 1]);
    }
  }

  lemma LandingIsSerial<S, C, E>(
    rt: Runtime<S, C, E>, why: AppendParams -> Order<C, E>, base: seq<Encoded>, c: St.Setting, st: St.Store,
    step: St.Step,
    batches: seq<K.Batch<C, E>>)
    requires St.Inv(c, st) && TxsHonest(rt, why, st) && Lands(st, step) && K.Serial(rt, base, Stored(st.rows), batches)
    ensures K.Serial(rt, base, Stored(St.Next(c, st, step).rows), WithLanding(why, st, step, batches))
  {
    var p := st.txs[step.t].p;
    assert Honest(rt, Stored(st.rows), p, why(p));
    St.CommitIsAtTheEnd(c, st, step.t);
    LandingStores(c, st, step);
    assert why(p).events != [] by {
      assert |Payloads(p)| > 0;
    }
    K.SerialGrows(rt, base, Stored(st.rows), batches, K.Batch(step.t, why(p).cmd, p.expectedVersion, why(p).events),
                  Payloads(p));
  }

  lemma StepIsSerial<S, C, E>(
    rt: Runtime<S, C, E>, why: AppendParams -> Order<C, E>, base: seq<Encoded>, c: St.Setting, st: St.Store,
    step: St.Step,
    batches: seq<K.Batch<C, E>>)
    requires St.Inv(c, st) && TxsHonest(rt, why, st) && K.Serial(rt, base, Stored(st.rows), batches)
    ensures K.Serial(rt, base, Stored(St.Next(c, st, step).rows), WithLanding(why, st, step, batches))
  {
    if Lands(st, step) {
      LandingIsSerial(rt, why, base, c, st, step, batches);
    } else {
      OtherStepsStore(c, st, step);
    }
  }

  lemma StoreInvAlongRun(c: St.Setting, sha: Sha, st: St.Store, steps: seq<St.Step>)
    requires c.h == Chain(sha) && St.Init(c, st)
    ensures St.Inv(c, St.Run(c, st, steps))
  {
    ChainIgnoresStoreColumns(sha);
    St.InvAlongRun(c, st, steps);
  }

  /** However the statements of the appending transactions interleave, the committed stream is what was
      there, followed by the batches in commit order, each of which Decide produced on the fold of exactly
      the events before it, on a state that is not terminal. */
  lemma {:induction false} StatementsAreSerializable<S, C, E>(
    rt: Runtime<S, C, E>, why: AppendParams -> Order<C, E>, c: St.Setting, sha: Sha, st: St.Store, steps: seq<St.Step>)
    requires c.h == Chain(sha) && St.Init(c, st) && HonestRun(rt, why, c, st, steps)
    ensures K.Serial(rt, Stored(st.rows), Stored(St.Run(c, st, steps).rows), Landed(why, c, st, steps))
  {
    if steps != [] {
      var init, last := steps[..|steps| - 1], steps[|steps| - 1];
      StatementsAreSerializable(rt, why, c, sha, st, init);
      HonestAlongRun(rt, why, c, st, init);
      StoreInvAlongRun(c, sha, st, init);
      StepIsSerial(rt, why, Stored(st.rows), c, St.Run(c, st, init), last, Landed(why, c, st, init));
    }
  }
}
