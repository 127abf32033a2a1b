/** Handle's calls (aggregate/runtime.go) over the statements of their append transactions
    (postgres/wsstore.go). A call that has decided opens a transaction of StreamStore; its head read, clock,
    inserts, commit and rollback interleave with everything else, and the call goes by what they returned.
    Every such run is a run of Commands, where the append is one step. */
module CommandsOnStore {
  import opened Wrappers
  import opened Envelopes
  import opened ChainedAppend
  import opened Aggregate
  import opened TimeTravel
  import CL = CommandLoop
  import K = Commands
  import SA = SerialAppends
  import St = StreamStore

  /** Transaction t is that of call t; a call opens one per attempt. */
  datatype World<S, C, E> = World(
    store: St.Store, cache: Option<Snapshot>, calls: map<nat, K.Call<S, C, E>>, batches: seq<K.Batch<C, E>>)

  datatype Step<C> =
    | OfCall(step: K.Step<C>)
    | BeginTx(id: nat, p: AppendParams)
    | Statement(stmt: St.Step)
    | CommitTx(id: nat, acked: bool)
    | EndTx(id: nat, told: bool)

  /** What the calls see: the stream is the committed rows. */
  function Abs<S, C, E>(w: World<S, C, E>): K.World<S, C, E> {
    K.World(Stored(w.store.rows), w.cache, w.calls, w.batches)
  }

  // ---------------------------------------------------------------- the steps

  /** A call's other steps; one whose transaction is open is in the store's hands. */
  predicate Steps<S, C, E>(w: World<S, C, E>, step: K.Step<C>) {
    !step.Append? && (step.Cancel? ==> step.id !in w.store.txs)
  }

  /** The append carries what the call decided, at the version the call loaded. */
  predicate Opens<S, C, E>(c: St.Setting, w: World<S, C, E>, id: nat, p: AppendParams) {
    && id !in w.store.txs && id in w.calls && w.calls[id].phase.Decided?
    && p.sid == c.sid && p.expectedVersion == w.calls[id].phase.version && SA.Payloads(p) == w.calls[id].phase.encoded
  }

  predicate InTx(step: St.Step) {
    step.ReadHead? || step.ReadClock? || step.Insert? || step.Tick?
  }

  predicate Open<S, C, E>(w: World<S, C, E>, id: nat) {
    id in w.store.txs && id in w.calls && w.calls[id].phase.Decided?
  }

  /** The commit returned, or its acknowledgement was lost. */
  function Committed<S, C, E>(rt: Runtime<S, C, E>, c: St.Setting, w: World<S, C, E>, id: nat,
                              acked: bool): World<S, C, E>
    requires Open(w, id)
  {
    var call := w.calls[id];
    var p := call.phase;
    World(St.Next(c, w.store, St.Commit(id)), w.cache,
          w.calls[id := call.(phase := K.CommittedPhase(rt, p, if acked then K.NoFault else K.Unacknowledged))],
          if p.events == [] then w.batches else w.batches + [K.Batch(id, call.cmd, p.version, p.events)])
  }

  /** The transaction rolled back: a conflict if a statement said so and the call was told, or else an error. */
  function Ended<S, C, E>(rt: Runtime<S, C, E>, c: St.Setting, w: World<S, C, E>, id: nat, told: bool): World<S, C, E>
    requires Open(w, id)
  {
    var call := w.calls[id];
    w.(store := St.Next(c, w.store, St.Rollback(id)),
       calls := w.calls[id := if told && w.store.txs[id].phase.Failed? then K.AfterConflict(rt, call)
                              else call.(phase := K.Done(K.Failed))])
  }

  function Next<S, C, E>(rt: Runtime<S, C, E>, c: St.Setting, w: World<S, C, E>, step: Step<C>): World<S, C, E> {
    match step
    case OfCall(s) =>
      if !Steps(w, s) then w
      else
        var k := K.Next(rt, Abs(w), s);
        w.(cache := k.cache, calls := k.calls)
    case BeginTx(id, p) => if Opens(c, w, id, p) then w.(store := St.Next(c, w.store, St.Begin(id, p))) else w
    case Statement(s) => if InTx(s) then w.(store := St.Next(c, w.store, s)) else w
    case CommitTx(id, acked) =>
      if Open(w, id) && St.Complete(w.store.txs[id]) then Committed(rt, c, w, id, acked) else w
    case EndTx(id, told) => if Open(w, id) then Ended(rt, c, w, id, told) else w
  }

  function Run<S, C, E>(rt: Runtime<S, C, E>, c: St.Setting, w: World<S, C, E>, steps: seq<Step<C>>): World<S, C, E> {
    if steps == [] then w else Next(rt, c, Run(rt, c, w, steps[..|steps| - 1]), steps[|steps| - 1])
  }

  // ---------------------------------------------------------------- the append as one step

  /** A commit that finds the stream moved on is that of an append without events. */
  function CommitFault<S, C, E>(w: World<S, C, E>, id: nat, acked: bool): K.Fault
    requires Open(w, id)
  {
    if |w.store.rows| == w.calls[id].phase.version then if acked then K.NoFault else K.Unacknowledged
    else if acked then K.Overtaken else K.NotWritten
  }

  function EndFault<S, C, E>(w: World<S, C, E>, id: nat, told: bool): K.Fault
    requires Open(w, id)
  {
    if told && w.store.txs[id].phase.Failed? then K.NoFault else K.NotWritten
  }

  /** The step, or none, that Commands takes for a step here. */
  function AsCommands<S, C, E>(w: World<S, C, E>, step: Step<C>): (steps: seq<K.Step<C>>)
    ensures |steps| <= 1
  {
    match step
    case OfCall(s) => if Steps(w, s) then [s] else []
    case CommitTx(id, acked) =>
      if Open(w, id) && St.Complete(w.store.txs[id]) then [K.Append(id, CommitFault(w, id, acked))] else []
    case EndTx(id, told) =>
      if Open(w, id) then [K.Append(id, EndFault(w, id, told))] else []
    case _ => []
  }

  function AllAsCommands<S, C, E>(rt: Runtime<S, C, E>, c: St.Setting, w: World<S, C, E>,
                                  steps: seq<Step<C>>): seq<K.Step<C>> {
    if steps == [] then []
    else
      var init := steps[..|steps| - 1];
      AllAsCommands(rt, c, w, init) + AsCommands(Run(rt, c, w, init), steps[|steps| - 1])
  }

  /** A transaction carries what its call decided; one that failed did so because the stream is longer. */
  ghost predicate Carries<S, C, E>(w: World<S, C, E>, t: nat)
    requires t in w.store.txs
  {
    var tx := w.store.txs[t];
    && Open(w, t)
    && tx.p.expectedVersion == w.calls[t].phase.version && SA.Payloads(tx.p) == w.calls[t].phase.encoded
    && (tx.phase.Failed? ==> tx.p.expectedVersion < |w.store.rows|)
  }

  ghost predicate Inv<S, C, E>(rt: Runtime<S, C, E>, c: St.Setting, base: seq<Encoded>, w: World<S, C, E>) {
    && St.Inv(c, w.store) && K.Inv(rt, base, Abs(w))
    && forall t | t in w.store.txs :: Carries(w, t)
  }

  lemma LoadedWithin<S, C, E>(rt: Runtime<S, C, E>, c: St.Setting, base: seq<Encoded>, w: World<S, C, E>, t: nat)
    requires Inv(rt, c, base, w) && t in w.store.txs
    ensures w.store.txs[t].p.expectedVersion <= |w.store.rows|
    ensures t in w.calls && K.PhaseOk(rt, Stored(w.store.rows), w.calls[t])
  {
    assert Carries(w, t);
  }

  // ---------------------------------------------------------------- one step

  lemma CallStepIs<S, C, E>(rt: Runtime<S, C, E>, w: World<S, C, E>, step: K.Step<C>)
    requires Steps(w, step) && forall t | t in w.store.txs :: Carries(w, t)
    ensures var k := K.Next(rt, Abs(w), step);
            && k.log == Stored(w.store.rows) && k.batches == w.batches
            && (forall t | t in w.store.txs :: t in w.calls && t in k.calls && k.calls[t] == w.calls[t])
  {
    forall t | t in w.store.txs
      ensures t in w.calls && t in K.Next(rt, Abs(w), step).calls && K.Next(rt, Abs(w), step).calls[t] == w.calls[t]
    {
      assert Carries(w, t);
    }
  }

  lemma CallStep<S(!new), C, E(!new)>(rt: Runtime<S, C, E>, c: St.Setting, base: seq<Encoded>, w: World<S, C, E>,
                                      step: K.Step<C>)
    requires Faithful(rt) && Inv(rt, c, base, w) && Steps(w, step)
    ensures Inv(rt, c, base, Next(rt, c, w, OfCall(step)))
    ensures Abs(Next(rt, c, w, OfCall(step))) == K.Next(rt, Abs(w), step)
  {
    CallStepIs(rt, w, step);
    K.InvKept(rt, base, Abs(w), step);
    var w' := Next(rt, c, w, OfCall(step));
    forall t | t in w'.store.txs
      ensures Carries(w', t)
    {
      assert Carries(w, t);
    }
  }

  lemma BeginStep<S, C, E>(rt: Runtime<S, C, E>, c: St.Setting, base: seq<Encoded>, w: World<S, C, E>, id: nat,
                           p: AppendParams)
    requires Inv(rt, c, base, w) && Opens(c, w, id, p)
    ensures Inv(rt, c, base, Next(rt, c, w, BeginTx(id, p))) && Abs(Next(rt, c, w, BeginTx(id, p))) == Abs(w)
  {
    St.BeginOk(c, w.store, id, p);
    var w' := Next(rt, c, w, BeginTx(id, p));
    forall t | t in w'.store.txs
      ensures Carries(w', t)
    {
      assert t in w.store.txs ==> Carries(w, t);
    }
  }

  /** A statement of a transaction shows to nobody, and fails only where the stream has outgrown it. */
  lemma StatementIs(c: St.Setting, st: St.Store, step: St.Step)
    requires InTx(step)
    ensures var st' := St.Next(c, st, step);
            && st'.rows == st.rows && st'.txs.Keys == st.txs.Keys
            && forall t | t in st.txs ::
                 && st'.txs[t].p == st.txs[t].p
                 && (st'.txs[t].phase.Failed? ==>
                       st.txs[t].phase.Failed? || |st.rows| != st.txs[t].p.expectedVersion)
  {
  }

  lemma StatementStep<S, C, E>(rt: Runtime<S, C, E>, c: St.Setting, base: seq<Encoded>, w: World<S, C, E>,
                               step: St.Step)
    requires IgnoresStoreColumns(c.h) && Inv(rt, c, base, w) && InTx(step)
    ensures Inv(rt, c, base, Next(rt, c, w, Statement(step))) && Abs(Next(rt, c, w, Statement(step))) == Abs(w)
  {
    St.InvKept(c, w.store, step);
    StatementIs(c, w.store, step);
    var w' := Next(rt, c, w, Statement(step));
    forall t | t in w'.store.txs
      ensures Carries(w', t)
    {
      assert Carries(w, t);
      LoadedWithin(rt, c, base, w, t);
    }
  }

  /** What a commit adds to the stream: the call's events, where the call loaded it. */
  lemma CommitAdds<S(!new), C, E(!new)>(rt: Runtime<S, C, E>, c: St.Setting, base: seq<Encoded>, w: World<S, C, E>,
                                        id: nat)
    requires Faithful(rt) && Inv(rt, c, base, w) && Open(w, id) && St.Complete(w.store.txs[id])
    ensures Stored(St.Next(c, w.store, St.Commit(id)).rows) == Stored(w.store.rows) + w.calls[id].phase.encoded
    ensures w.calls[id].phase.events != [] ==> |w.store.rows| == w.calls[id].phase.version
    ensures w.calls[id].phase.events == [] ==> w.calls[id].phase.encoded == []
  {
    assert Carries(w, id);
    LoadedWithin(rt, c, base, w, id);
    var p := w.calls[id].phase;
    K.EncodedFolds(rt, p.state, p.events);
    if p.events == [] {
      SA.OtherStepsStore(c, w.store, St.Commit(id));
      assert Stored(w.store.rows) + [] == Stored(w.store.rows);
    } else {
      St.CommitIsAtTheEnd(c, w.store, id);
      SA.LandingStores(c, w.store, St.Commit(id));
    }
  }

  /** An append that finds the stream where it was loaded, or carries nothing, with what it leaves. */
  lemma AppendIs<S, C, E>(rt: Runtime<S, C, E>, k: K.World<S, C, E>, id: nat, acked: bool)
    requires id in k.calls && k.calls[id].phase.Decided?
    requires |k.log| != k.calls[id].phase.version ==> k.calls[id].phase.events == [] && k.calls[id].phase.encoded == []
    ensures var call := k.calls[id];
            var p := call.phase;
            var fault := if |k.log| == p.version then if acked then K.NoFault else K.Unacknowledged
                         else if acked then K.Overtaken else K.NotWritten;
            var batches := if p.events == [] then k.batches
              else k.batches + [K.Batch(id, call.cmd, p.version, p.events)];
            var told := K.CommittedPhase(rt, p, if acked then K.NoFault else K.Unacknowledged);
            K.AppendNext(rt, k, id, fault) == K.World(k.log + p.encoded, k.cache, k.calls[id := call.(phase := told)],
                                                      batches)
  {
    assert k.log + [] == k.log;
  }

  lemma CommitIsAppend<S, C, E>(rt: Runtime<S, C, E>, c: St.Setting, w: World<S, C, E>, id: nat, acked: bool)
    requires Open(w, id)
    requires Stored(St.Next(c, w.store, St.Commit(id)).rows) == Stored(w.store.rows) + w.calls[id].phase.encoded
    requires w.calls[id].phase.events != [] ==> |w.store.rows| == w.calls[id].phase.version
    requires w.calls[id].phase.events == [] ==> w.calls[id].phase.encoded == []
    ensures Abs(Committed(rt, c, w, id, acked)) == K.Next(rt, Abs(w), K.Append(id, CommitFault(w, id, acked)))
  {
    AppendIs(rt, Abs(w), id, acked);
  }

  /** The transactions left after one ends keep carrying what their calls decided. */
  lemma OthersCarry<S, C, E>(w: World<S, C, E>, w': World<S, C, E>, id: nat)
    requires forall t | t in w.store.txs :: Carries(w, t)
    requires w'.store.txs == w.store.txs - {id} && |w.store.rows| <= |w'.store.rows|
    requires id in w'.calls && w'.calls == w.calls[id := w'.calls[id]]
    ensures forall t | t in w'.store.txs :: Carries(w', t)
  {
    forall t | t in w'.store.txs
      ensures Carries(w', t)
    {
      assert Carries(w, t);
    }
  }

  lemma CommitStep<S(!new), C, E(!new)>(
    rt: Runtime<S, C, E>, c: St.Setting, base: seq<Encoded>, w: World<S, C, E>, id: nat, acked: bool)
    requires Faithful(rt) && IgnoresStoreColumns(c.h) && Inv(rt, c, base, w) && Open(w, id)
             && St.Complete(w.store.txs[id])
    ensures Inv(rt, c, base, Committed(rt, c, w, id, acked))
    ensures Abs(Committed(rt, c, w, id, acked)) == K.Next(rt, Abs(w), K.Append(id, CommitFault(w, id, acked)))
  {
    CommitAdds(rt, c, base, w, id);
    CommitIsAppend(rt, c, w, id, acked);
    K.InvKept(rt, base, Abs(w), K.Append(id, CommitFault(w, id, acked)));
    CommitKeepsStore(rt, c, w, id, acked);
  }

  lemma CommitKeepsStore<S, C, E>(rt: Runtime<S, C, E>, c: St.Setting, w: World<S, C, E>, id: nat, acked: bool)
    requires IgnoresStoreColumns(c.h) && St.Inv(c, w.store) && Open(w, id)
    requires forall t | t in w.store.txs :: Carries(w, t)
    ensures var w' := Committed(rt, c, w, id, acked);
            St.Inv(c, w'.store) && forall t | t in w'.store.txs :: Carries(w', t)
  {
    St.InvKept(c, w.store, St.Commit(id));
    OthersCarry(w, Committed(rt, c, w, id, acked), id);
  }

  lemma EndIsAppend<S, C, E>(rt: Runtime<S, C, E>, c: St.Setting, w: World<S, C, E>, id: nat, told: bool)
    requires Open(w, id) && Carries(w, id)
    ensures Abs(Ended(rt, c, w, id, told)) ==
            K.AppendNext(rt, Abs(w), id, EndFault(w, id, told))
  {
  }

  lemma EndStep<S(!new), C, E(!new)>(
    rt: Runtime<S, C, E>, c: St.Setting, base: seq<Encoded>, w: World<S, C, E>, id: nat, told: bool)
    requires Faithful(rt) && Inv(rt, c, base, w) && Open(w, id)
    ensures Inv(rt, c, base, Ended(rt, c, w, id, told))
    ensures Abs(Ended(rt, c, w, id, told)) ==
            K.Next(rt, Abs(w), K.Append(id, EndFault(w, id, told)))
  {
    assert Carries(w, id);
    EndIsAppend(rt, c, w, id, told);
    var w' := Ended(rt, c, w, id, told);
    assert Abs(w') == K.Next(rt, Abs(w), K.Append(id, EndFault(w, id, told)));
    K.InvKept(rt, base, Abs(w), K.Append(id, EndFault(w, id, told)));
    EndKeepsStore(rt, c, w, id, told);
  }

  lemma EndKeepsStore<S, C, E>(rt: Runtime<S, C, E>, c: St.Setting, w: World<S, C, E>, id: nat, told: bool)
    requires St.Inv(c, w.store) && Open(w, id) && forall t | t in w.store.txs :: Carries(w, t)
    ensures var w' := Ended(rt, c, w, id, told); St.Inv(c, w'.store) && forall t | t in w'.store.txs :: Carries(w', t)
  {
    St.RollbackOk(c, w.store, id);
    OthersCarry(w, Ended(rt, c, w, id, told), id);
  }

  lemma OneStep<S, C, E>(rt: Runtime<S, C, E>, w: K.World<S, C, E>, step: K.Step<C>)
    ensures K.Run(rt, w, [step]) == K.Next(rt, w, step)
  {
    assert [step][..0] == [];
  }

  /** Each step is one step of Commands, or none. */
  lemma StepRefines<S(!new), C, E(!new)>(rt: Runtime<S, C, E>, c: St.Setting, base: seq<Encoded>, w: World<S, C, E>,
                                         step: Step<C>)
    requires Faithful(rt) && IgnoresStoreColumns(c.h) && Inv(rt, c, base, w)
    ensures Inv(rt, c, base, Next(rt, c, w, step))
    ensures Abs(Next(rt, c, w, step)) == K.Run(rt, Abs(w), AsCommands(w, step))
  {
    if AsCommands(w, step) != [] {
      OneStep(rt, Abs(w), AsCommands(w, step)[0]);
    }
    match step
    case OfCall(s) => if Steps(w, s) { CallStep(rt, c, base, w, s); }
    case BeginTx(id, p) => if Opens(c, w, id, p) { BeginStep(rt, c, base, w, id, p); }
    case Statement(s) => if InTx(s) { StatementStep(rt, c, base, w, s); }
    case CommitTx(id, acked) =>
      if Open(w, id) && St.Complete(w.store.txs[id]) { CommitStep(rt, c, base, w, id, acked); }
    case EndTx(id, told) => if Open(w, id) { EndStep(rt, c, base, w, id, told); }
  }

  // ---------------------------------------------------------------- whole runs

  ghost predicate Init<S, C, E>(rt: Runtime<S, C, E>, c: St.Setting, w: World<S, C, E>) {
    St.Init(c, w.store) && K.Init(rt, Abs(w))
  }

  lemma {:induction false} RunRefines<S(!new), C, E(!new)>(
    rt: Runtime<S, C, E>, c: St.Setting, w: World<S, C, E>, steps: seq<Step<C>>)
    requires Faithful(rt) && IgnoresStoreColumns(c.h) && Init(rt, c, w)
    ensures Inv(rt, c, Stored(w.store.rows), Run(rt, c, w, steps))
    ensures Abs(Run(rt, c, w, steps)) == K.Run(rt, Abs(w), AllAsCommands(rt, c, w, steps))
  {
    if steps != [] {
      var init, last := steps[..|steps| - 1], steps[|steps| - 1];
      RunRefines(rt, c, w, init);
      var mid := Run(rt, c, w, init);
      StepRefines(rt, c, Stored(w.store.rows), mid, last);
      CL.RunConcat(rt, Abs(w), AllAsCommands(rt, c, w, init), AsCommands(mid, last));
    }
  }

  /** However the statements of the calls' transactions interleave, the run is one of Commands, in which
      each append is a single step. So the committed stream is what was there followed by batches that
      Decide produced on exactly the events before them; no call wrote two of them over all its attempts, one
      that ended in a refusal or a conflict wrote none, and none retries past its budget. And the stream
      the transactions wrote is an unbroken chain. */
  lemma HandlingIsSerializable<S(!new), C, E(!new)>(
    rt: Runtime<S, C, E>, c: St.Setting, sha: Sha, w: World<S, C, E>, steps: seq<Step<C>>)
    requires Faithful(rt) && c.h == Chain(sha) && Init(rt, c, w)
    ensures var w' := Run(rt, c, w, steps);
            && Abs(w') == K.Run(rt, Abs(w), AllAsCommands(rt, c, w, steps))
            && K.Serial(rt, Stored(w.store.rows), Stored(w'.store.rows), w'.batches)
            && K.Owned(w'.batches, w'.calls)
            && (forall id | id in w'.calls :: w'.calls[id].attempt <= rt.retries)
            && (forall id | id in w'.calls && w'.calls[id].phase == K.Done(K.Conflict) ::
                w'.calls[id].attempt == rt.retries)
            && StreamOk(c.h, c.sid, c.since, w'.store.rows, c.k)
  {
    ChainIgnoresStoreColumns(sha);
    RunRefines(rt, c, w, steps);
    K.Serializable(rt, Abs(w), AllAsCommands(rt, c, w, steps));
  }

  /** A success reports committed rows: its events stand at from..to of the stream, decided on what precedes
      them, and its state is their fold. */
  lemma SuccessIsCommitted<S(!new), C, E(!new)>(
    rt: Runtime<S, C, E>, c: St.Setting, sha: Sha, w: World<S, C, E>, steps: seq<Step<C>>, id: nat)
    requires Faithful(rt) && c.h == Chain(sha) && Init(rt, c, w)
    requires id in Run(rt, c, w, steps).calls && Run(rt, c, w, steps).calls[id].phase.Done?
    requires Run(rt, c, w, steps).calls[id].phase.outcome.Succeeded?
    ensures var w' := Run(rt, c, w, steps);
            var o := w'.calls[id].phase.outcome;
            K.Reports(rt, Stored(w'.store.rows), w'.calls[id], o.state, o.from, o.to, o.events)
  {
    ChainIgnoresStoreColumns(sha);
    RunRefines(rt, c, w, steps);
    var w' := Run(rt, c, w, steps);
    assert K.PhaseOk(rt, Abs(w').log, Abs(w').calls[id]);
  }
}
