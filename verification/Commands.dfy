/** Concurrent commands on one stream (aggregate/runtime.go): many Handle calls, each cache read, log read,
    decide, append and snapshot write its own step, interleaved with crashes, failed and unacknowledged appends,
    late and failed snapshot writes. The append is the store's atomic check-and-insert: an
    event-producing append commits exactly when the stream still ends where the call loaded it. */
module Commands {
  import opened Wrappers
  import opened ByteStrings
  import opened Aggregate

  datatype Outcome<S, E> =
    | Succeeded(state: S, from: nat, to: nat, events: seq<E>)
    | Terminal | Rejected | StaleAssertion | Conflict | Failed

  datatype Phase<S, E> =
    | Idle
    | Seeded(seed: Seed<S>)
    | Loaded(state: S, version: nat)
    | Decided(state: S, version: nat, events: seq<E>, encoded: seq<Encoded>)
    | Appended(state: S, from: nat, to: nat, events: seq<E>)
    | Done(outcome: Outcome<S, E>)

  /** attempt counts from 0, as in the retry loop; expected == 0 asserts nothing. */
  datatype Call<S, C, E> = Call(cmd: C, expected: nat, attempt: nat, phase: Phase<S, E>)

  datatype Batch<C, E> = Batch(id: nat, cmd: C, from: nat, events: seq<E>)

  /** batches records which call appended what. */
  datatype World<S, C, E> = World(
    log: seq<Encoded>, cache: Option<Snapshot>, calls: map<nat, Call<S, C, E>>, batches: seq<Batch<C, E>>)

  /** How an append can go beside the plain commit or conflict: nothing was written (a violated constraint is
      one cause), or it committed and the caller was told otherwise, or it carried no events and committed
      although the stream had moved on since its head was read. */
  datatype Fault = NoFault | NotWritten | Unacknowledged | Overtaken

  datatype Step<C> =
    | Begin(id: nat, cmd: C, expected: nat)
    | ReadCache(id: nat)
    | ReadLog(id: nat)
    | Decide(id: nat)
    | Append(id: nat, fault: Fault)
    | SaveSnapshot(id: nat, written: bool)
    | Cancel(id: nat)
    | ForeignSnapshot(snapshot: Snapshot)
    | DropCache

  // ---------------------------------------------------------------- the steps

  function EncodeAll<S, C, E>(rt: Runtime<S, C, E>, events: seq<E>): Option<seq<Encoded>> {
    if events == [] then Some([])
    else
      match EncodeAll(rt, events[..|events| - 1])
      case None => None
      case Some(before) =>
        match rt.encode(events[|events| - 1])
        case None => None
        case Some(x) => Some(before + [x])
  }

  function Evolve<S, C, E>(rt: Runtime<S, C, E>, s: S, events: seq<E>): S {
    if events == [] then s else rt.evolve(Evolve(rt, s, events[..|events| - 1]), events[|events| - 1])
  }

  function LoadPhase<S, C, E>(rt: Runtime<S, C, E>, w: World<S, C, E>, seed: Seed<S>): Phase<S, E> {
    match LoadFrom(rt, seed, w.log)
    case None => Done(Failed)
    case Some(seed) => Loaded(seed.state, seed.from)
  }

  function DecidePhase<S, C, E>(rt: Runtime<S, C, E>, c: Call<S, C, E>): Phase<S, E>
    requires c.phase.Loaded?
  {
    var Loaded(s, v) := c.phase;
    if c.expected != 0 && v != c.expected then Done(StaleAssertion)
    else if rt.terminal(s) then Done(Terminal)
    else
      match rt.decide(s, c.cmd)
      case Reject => Done(Rejected)
      case Produce(events, constrained) =>
        if events == [] && !constrained then Done(Succeeded(s, v, v, []))
        else
          match EncodeAll(rt, events)
          case None => Done(Failed)
          case Some(encoded) => Decided(s, v, events, encoded)
  }

  /** Only a write race is retried, and only while the budget lasts. */
  function AfterConflict<S, C, E>(rt: Runtime<S, C, E>, c: Call<S, C, E>): Call<S, C, E> {
    if c.attempt >= rt.retries then c.(phase := Done(Conflict)) else c.(attempt := c.attempt + 1, phase := Idle)
  }

  function CommittedPhase<S, C, E>(rt: Runtime<S, C, E>, p: Phase<S, E>, fault: Fault): Phase<S, E>
    requires p.Decided?
  {
    if fault == Unacknowledged then Done(Failed)
    else Appended(Evolve(rt, p.state, p.events), p.version, p.version + |p.events|, p.events)
  }

  /** The stream has moved on, which an append without events may not notice. */
  predicate LosesRace<S, E>(log: seq<Encoded>, p: Phase<S, E>, fault: Fault)
    requires p.Decided?
  {
    |log| != p.version && !(fault == Overtaken && p.events == [])
  }

  function AppendNext<S, C, E>(rt: Runtime<S, C, E>, w: World<S, C, E>, id: nat, fault: Fault): World<S, C, E>
    requires id in w.calls && w.calls[id].phase.Decided?
  {
    var c := w.calls[id];
    var p := c.phase;
    if fault == NotWritten then w.(calls := w.calls[id := c.(phase := Done(Failed))])
    else if LosesRace(w.log, p, fault) then w.(calls := w.calls[id := AfterConflict(rt, c)])
    else
      World(w.log + p.encoded, w.cache, w.calls[id := c.(phase := CommittedPhase(rt, p, fault))],
            if p.events == [] then w.batches else w.batches + [Batch(id, c.cmd, p.version, p.events)])
  }

  /** The write-through: best effort, and only what the state codec can encode. */
  function Saved<S, C, E>(rt: Runtime<S, C, E>, cache: Option<Snapshot>, s: S, version: nat): Option<Snapshot> {
    if rt.cached && rt.encodeState(s).Some? then Some(Snapshot(version, rt.foldVersion, rt.encodeState(s).value))
      else cache
  }

  function SaveNext<S, C, E>(rt: Runtime<S, C, E>, w: World<S, C, E>, id: nat, written: bool): World<S, C, E>
    requires id in w.calls && w.calls[id].phase.Appended?
  {
    var c := w.calls[id];
    var Appended(s, from, to, events) := c.phase;
    w.(cache := if written then Saved(rt, w.cache, s, to) else w.cache,
       calls := w.calls[id := c.(phase := Done(Succeeded(s, from, to, events)))])
  }

  function Next<S, C, E>(rt: Runtime<S, C, E>, w: World<S, C, E>, step: Step<C>): World<S, C, E> {
    match step
    case Begin(id, cmd, expected) =>
      if id in w.calls then w else w.(calls := w.calls[id := Call(cmd, expected, 0, Idle)])
    case ReadCache(id) =>
      if id in w.calls && w.calls[id].phase.Idle?
        then w.(calls := w.calls[id := w.calls[id].(phase := Seeded(SeedOf(rt, w.cache)))])
      else w
    case ReadLog(id) =>
      if id in w.calls && w.calls[id].phase.Seeded?
      then w.(calls := w.calls[id := w.calls[id].(phase := LoadPhase(rt, w, w.calls[id].phase.seed))])
      else w
    case Decide(id) =>
      if id in w.calls && w.calls[id].phase.Loaded?
      then w.(calls := w.calls[id := w.calls[id].(phase := DecidePhase(rt, w.calls[id]))])
      else w
    case Append(id, fault) => if id in w.calls && w.calls[id].phase.Decided? then AppendNext(rt, w, id, fault) else w
    case SaveSnapshot(id, written) => if id in w.calls && w.calls[id].phase.Appended? then SaveNext(rt, w, id, written)
      else w
    case Cancel(id) =>
      if id in w.calls && !w.calls[id].phase.Done? then w.(calls := w.calls[id := w.calls[id].(phase := Done(Failed))])
        else w
    case ForeignSnapshot(s) => if s.foldVersion != rt.foldVersion then w.(cache := Some(s)) else w
    case DropCache => w.(cache := None)
  }

  function Run<S, C, E>(rt: Runtime<S, C, E>, w: World<S, C, E>, steps: seq<Step<C>>): World<S, C, E> {
    if steps == [] then w else Next(rt, Run(rt, w, steps[..|steps| - 1]), steps[|steps| - 1])
  }

  // ---------------------------------------------------------------- what every step keeps

  /** State s is what the first v events fold to. */
  ghost predicate FoldsTo<S, C, E>(rt: Runtime<S, C, E>, log: seq<Encoded>, v: nat, s: S) {
    v <= |log| && Fold(rt, log[..v]) == Some(s)
  }

  /** Events is what Decide answers cmd with on the fold of exactly the first `from` events. */
  ghost predicate DecidedOn<S, C, E>(rt: Runtime<S, C, E>, log: seq<Encoded>, from: nat, cmd: C, events: seq<E>) {
    && from <= |log| && Fold(rt, log[..from]).Some?
    && var s := Fold(rt, log[..from]).value;
       !rt.terminal(s) && rt.decide(s, cmd).Produce? && rt.decide(s, cmd).events == events
  }

  /** A success reports what is in the log: its events at from..to, decided on what precedes them, and
      the fold up to them. */
  ghost predicate Reports<S, C, E>(rt: Runtime<S, C, E>, log: seq<Encoded>, c: Call<S, C, E>, s: S, from: nat, to: nat,
                                   events: seq<E>) {
    && from <= to && FoldsTo(rt, log, to, s)
    && DecidedOn(rt, log, from, c.cmd, events)
    && EncodeAll(rt, events) == Some(log[from..to])
    && (c.expected != 0 ==> from == c.expected)
  }

  ghost predicate PhaseOk<S, C, E>(rt: Runtime<S, C, E>, log: seq<Encoded>, c: Call<S, C, E>) {
    match c.phase
    case Seeded(seed) => FoldsTo(rt, log, seed.from, seed.state)
    case Loaded(s, v) => FoldsTo(rt, log, v, s)
    case Decided(s, v, events, encoded) =>
      && FoldsTo(rt, log, v, s) && DecidedOn(rt, log, v, c.cmd, events)
      && EncodeAll(rt, events) == Some(encoded) && (c.expected != 0 ==> v == c.expected)
    case Appended(s, from, to, events) => Reports(rt, log, c, s, from, to, events)
    case Done(Succeeded(s, from, to, events)) => Reports(rt, log, c, s, from, to, events)
    case Done(Conflict) => c.attempt == rt.retries
    case _ => true
  }

  /** The stream is base followed by the batches, each decided on the fold of exactly what precedes it. */
  ghost predicate Serial<S, C, E>(rt: Runtime<S, C, E>, base: seq<Encoded>, log: seq<Encoded>,
                                  batches: seq<Batch<C, E>>)
    decreases |batches|
  {
    if batches == [] then log == base
    else
      var init, b := batches[..|batches| - 1], batches[|batches| - 1];
      && b.events != [] && DecidedOn(rt, log, b.from, b.cmd, b.events)
      && EncodeAll(rt, b.events) == Some(log[b.from..])
      && Serial(rt, base, log[..b.from], init)
  }

  ghost predicate CallsOk<S, C, E>(rt: Runtime<S, C, E>, log: seq<Encoded>, calls: map<nat, Call<S, C, E>>) {
    forall id | id in calls :: PhaseOk(rt, log, calls[id]) && calls[id].attempt <= rt.retries
  }

  /** Only these calls can have written: a definite refusal means nothing was appended. */
  predicate MayHaveWritten<S, E>(p: Phase<S, E>) {
    p.Appended? || (p.Done? && (p.outcome.Succeeded? || p.outcome.Failed?))
  }

  ghost predicate Owned<S, C, E>(batches: seq<Batch<C, E>>, calls: map<nat, Call<S, C, E>>) {
    && (forall i | 0 <= i < |batches| :: batches[i].id in calls && MayHaveWritten(calls[batches[i].id].phase))
    && (forall i, j | 0 <= i < j < |batches| :: batches[i].id != batches[j].id)
  }

  ghost predicate Inv<S, C, E>(rt: Runtime<S, C, E>, base: seq<Encoded>, w: World<S, C, E>) {
    && CacheOk(rt, w.cache, w.log)
    && Serial(rt, base, w.log, w.batches)
    && CallsOk(rt, w.log, w.calls)
    && Owned(w.batches, w.calls)
  }

  lemma {:induction false} EncodedFolds<S(!new), C, E(!new)>(rt: Runtime<S, C, E>, s: S, events: seq<E>)
    requires Faithful(rt) && EncodeAll(rt, events).Some?
    ensures FoldFrom(rt, s, EncodeAll(rt, events).value) == Some(Evolve(rt, s, events))
    ensures |EncodeAll(rt, events).value| == |events|
  {
    if events != [] {
      var n := |events| - 1;
      EncodedFolds(rt, s, events[..n]);
      var all := EncodeAll(rt, events).value;
      assert all[..|all| - 1] == EncodeAll(rt, events[..n]).value;
    }
  }

  lemma GrowsKeepsFold<S, C, E>(rt: Runtime<S, C, E>, log: seq<Encoded>, more: seq<Encoded>, v: nat, s: S)
    requires FoldsTo(rt, log, v, s)
    ensures FoldsTo(rt, log + more, v, s)
  {
    assert (log + more)[..v] == log[..v];
  }

  lemma GrowsKeepsReport<S, C, E>(
    rt: Runtime<S, C, E>, log: seq<Encoded>, more: seq<Encoded>, c: Call<S, C, E>, s: S, from: nat, to: nat,
    events: seq<E>)
    requires Reports(rt, log, c, s, from, to, events)
    ensures Reports(rt, log + more, c, s, from, to, events)
  {
    GrowsKeepsFold(rt, log, more, to, s);
    assert (log + more)[..from] == log[..from];
    assert (log + more)[from..to] == log[from..to];
  }

  lemma GrowsKeepsPhase<S, C, E>(rt: Runtime<S, C, E>, log: seq<Encoded>, more: seq<Encoded>, c: Call<S, C, E>)
    requires PhaseOk(rt, log, c)
    ensures PhaseOk(rt, log + more, c)
  {
    match c.phase
    case Seeded(seed) => GrowsKeepsFold(rt, log, more, seed.from, seed.state);
    case Loaded(s, v) => GrowsKeepsFold(rt, log, more, v, s);
    case Decided(s, v, _, _) => GrowsKeepsFold(rt, log, more, v, s); assert (log + more)[..v] == log[..v];
    case Appended(s, from, to, events) => GrowsKeepsReport(rt, log, more, c, s, from, to, events);
    case Done(Succeeded(s, from, to, events)) => GrowsKeepsReport(rt, log, more, c, s, from, to, events);
    case _ =>
  }

  lemma SeedLoadsTheFold<S, C, E>(rt: Runtime<S, C, E>, seed: Seed<S>, log: seq<Encoded>)
    requires FoldsTo(rt, log, seed.from, seed.state)
    ensures LoadFrom(rt, seed, log) == if Fold(rt, log).Some? then Some(Seed(Fold(rt, log).value, |log|)) else None
  {
    FoldConcat(rt, rt.initial, log[..seed.from], log[seed.from..]);
    assert log[..seed.from] + log[seed.from..] == log;
    assert ReadStream(log, seed.from, 0) == log[seed.from..];
  }

  lemma LoadIsTheFold<S, C, E>(rt: Runtime<S, C, E>, cache: Option<Snapshot>, log: seq<Encoded>)
    requires CacheOk(rt, cache, log)
    ensures LoadCurrent(rt, cache, log) == if Fold(rt, log).Some? then Some(Seed(Fold(rt, log).value, |log|)) else None
  {
    SeedLoadsTheFold(rt, SeedOf(rt, cache), log);
  }

  lemma LoadOk<S, C, E>(rt: Runtime<S, C, E>, w: World<S, C, E>, c: Call<S, C, E>)
    requires c.phase.Seeded? && PhaseOk(rt, w.log, c)
    ensures PhaseOk(rt, w.log, c.(phase := LoadPhase(rt, w, c.phase.seed)))
  {
    SeedLoadsTheFold(rt, c.phase.seed, w.log);
    assert w.log[..|w.log|] == w.log;
  }

  lemma DecideOk<S, C, E>(rt: Runtime<S, C, E>, log: seq<Encoded>, c: Call<S, C, E>)
    requires c.phase.Loaded? && PhaseOk(rt, log, c)
    ensures PhaseOk(rt, log, c.(phase := DecidePhase(rt, c)))
  {
    assert log[c.phase.version..c.phase.version] == [];
  }

  lemma AppendFolds<S(!new), C, E(!new)>(rt: Runtime<S, C, E>, log: seq<Encoded>, s: S, events: seq<E>,
                                         more: seq<Encoded>)
    requires Faithful(rt) && EncodeAll(rt, events) == Some(more) && Fold(rt, log) == Some(s)
    ensures FoldsTo(rt, log + more, |log + more|, Evolve(rt, s, events)) && |more| == |events|
  {
    EncodedFolds(rt, s, events);
    FoldConcat(rt, rt.initial, log, more);
    assert (log + more)[..|log + more|] == log + more;
  }

  lemma CommitOk<S(!new), C, E(!new)>(rt: Runtime<S, C, E>, log: seq<Encoded>, c: Call<S, C, E>, fault: Fault)
    requires Faithful(rt) && c.phase.Decided? && PhaseOk(rt, log, c) && |log| == c.phase.version
    ensures PhaseOk(rt, log + c.phase.encoded, c.(phase := CommittedPhase(rt, c.phase, fault)))
  {
    if fault != Unacknowledged {
      var Decided(s, v, events, more) := c.phase;
      assert log[..v] == log;
      AppendFolds(rt, log, s, events, more);
      assert (log + more)[..v] == log && (log + more)[v..v + |events|] == more;
      assert Reports(rt, log + more, c, Evolve(rt, s, events), v, v + |events|, events);
    }
  }

  lemma SaveOk<S(!new), C, E(!new)>(rt: Runtime<S, C, E>, cache: Option<Snapshot>, log: seq<Encoded>, s: S, v: nat)
    requires Faithful(rt) && CacheOk(rt, cache, log) && FoldsTo(rt, log, v, s)
    ensures CacheOk(rt, Saved(rt, cache, s, v), log)
  {
  }

  lemma SerialGrows<S, C, E>(
    rt: Runtime<S, C, E>, base: seq<Encoded>, log: seq<Encoded>, batches: seq<Batch<C, E>>, b: Batch<C, E>,
    more: seq<Encoded>)
    requires Serial(rt, base, log, batches)
    requires b.events != [] && b.from == |log| && DecidedOn(rt, log, b.from, b.cmd, b.events)
             && EncodeAll(rt, b.events) == Some(more)
    ensures Serial(rt, base, log + more, batches + [b])
  {
    assert (batches + [b])[..|batches|] == batches;
    assert log[..|log|] == log;
    assert (log + more)[..|log|] == log && (log + more)[|log|..] == more;
  }

  lemma CommitCallsOk<S(!new), C, E(!new)>(rt: Runtime<S, C, E>, log: seq<Encoded>, calls: map<nat, Call<S, C, E>>,
                                           id: nat, fault: Fault)
    requires Faithful(rt) && CallsOk(rt, log, calls) && id in calls && calls[id].phase.Decided?
             && |log| == calls[id].phase.version
    ensures var c := calls[id];
            CallsOk(rt, log + c.phase.encoded, calls[id := c.(phase := CommittedPhase(rt, c.phase, fault))])
  {
    CommitOk(rt, log, calls[id], fault);
    forall k | k in calls && k != id
      ensures PhaseOk(rt, log + calls[id].phase.encoded, calls[k])
    {
      GrowsKeepsPhase(rt, log, calls[id].phase.encoded, calls[k]);
    }
  }

  lemma CommitCacheOk<S, C, E>(rt: Runtime<S, C, E>, cache: Option<Snapshot>, log: seq<Encoded>, more: seq<Encoded>)
    requires CacheOk(rt, cache, log)
    ensures CacheOk(rt, cache, log + more)
  {
    GrowsKeepsFold(rt, log, more, SeedOf(rt, cache).from, SeedOf(rt, cache).state);
  }

  lemma CommitIsSerial<S, C, E>(rt: Runtime<S, C, E>, base: seq<Encoded>, w: World<S, C, E>, id: nat, fault: Fault)
    requires Serial(rt, base, w.log, w.batches) && id in w.calls && w.calls[id].phase.Decided?
             && PhaseOk(rt, w.log, w.calls[id])
    requires fault != NotWritten && |w.log| == w.calls[id].phase.version
    ensures Serial(rt, base, AppendNext(rt, w, id, fault).log, AppendNext(rt, w, id, fault).batches)
  {
    var c := w.calls[id];
    if c.phase.events != [] {
      SerialGrows(rt, base, w.log, w.batches, Batch(id, c.cmd, c.phase.version, c.phase.events), c.phase.encoded);
    } else {
      assert w.log + [] == w.log;
    }
  }

  lemma CommitOwned<S, C, E>(rt: Runtime<S, C, E>, w: World<S, C, E>, id: nat, fault: Fault)
    requires Owned(w.batches, w.calls) && id in w.calls && w.calls[id].phase.Decided?
    requires fault != NotWritten && |w.log| == w.calls[id].phase.version
    ensures Owned(AppendNext(rt, w, id, fault).batches, AppendNext(rt, w, id, fault).calls)
  {
  }

  lemma CommitKeeps<S(!new), C, E(!new)>(rt: Runtime<S, C, E>, base: seq<Encoded>, w: World<S, C, E>, id: nat,
                                         fault: Fault)
    requires Faithful(rt) && Inv(rt, base, w) && id in w.calls && w.calls[id].phase.Decided?
    requires fault != NotWritten && |w.log| == w.calls[id].phase.version
    ensures Inv(rt, base, AppendNext(rt, w, id, fault))
  {
    CommitCallsOk(rt, w.log, w.calls, id, fault);
    CommitCacheOk(rt, w.cache, w.log, w.calls[id].phase.encoded);
    CommitIsSerial(rt, base, w, id, fault);
    CommitOwned(rt, w, id, fault);
  }

  /** A step that changes one call and not the log. */
  lemma CallMoves<S, C, E>(rt: Runtime<S, C, E>, w: World<S, C, E>, id: nat, c: Call<S, C, E>)
    requires CallsOk(rt, w.log, w.calls) && Owned(w.batches, w.calls)
    requires PhaseOk(rt, w.log, c) && c.attempt <= rt.retries
    requires id in w.calls && MayHaveWritten(w.calls[id].phase) ==> MayHaveWritten(c.phase)
    ensures CallsOk(rt, w.log, w.calls[id := c]) && Owned(w.batches, w.calls[id := c])
  {
  }

  lemma OvertakenOk<S, C, E>(rt: Runtime<S, C, E>, log: seq<Encoded>, c: Call<S, C, E>)
    requires c.phase.Decided? && c.phase.events == [] && PhaseOk(rt, log, c)
    ensures PhaseOk(rt, log, c.(phase := CommittedPhase(rt, c.phase, Overtaken))) && log + c.phase.encoded == log
  {
    var v := c.phase.version;
    assert log[v..v] == [];
    assert Reports(rt, log, c, c.phase.state, v, v, []);
  }

  lemma AppendKeeps<S(!new), C, E(!new)>(rt: Runtime<S, C, E>, base: seq<Encoded>, w: World<S, C, E>, id: nat,
                                         fault: Fault)
    requires Faithful(rt) && Inv(rt, base, w) && id in w.calls && w.calls[id].phase.Decided?
    ensures Inv(rt, base, AppendNext(rt, w, id, fault))
  {
    if fault != NotWritten && |w.log| == w.calls[id].phase.version {
      CommitKeeps(rt, base, w, id, fault);
    } else if fault != NotWritten && !LosesRace(w.log, w.calls[id].phase, fault) {
      OvertakenOk(rt, w.log, w.calls[id]);
      CallMoves(rt, w, id, AppendNext(rt, w, id, fault).calls[id]);
    } else {
      CallMoves(rt, w, id, AppendNext(rt, w, id, fault).calls[id]);
    }
  }

  lemma SaveKeeps<S(!new), C, E(!new)>(rt: Runtime<S, C, E>, base: seq<Encoded>, w: World<S, C, E>, id: nat,
                                       written: bool)
    requires Faithful(rt) && Inv(rt, base, w) && id in w.calls && w.calls[id].phase.Appended?
    ensures Inv(rt, base, SaveNext(rt, w, id, written))
  {
    SaveOk(rt, w.cache, w.log, w.calls[id].phase.state, w.calls[id].phase.to);
    CallMoves(rt, w, id, SaveNext(rt, w, id, written).calls[id]);
  }

  /** The steps that only read: begin, the loads, decide, cancel. */
  lemma ReadStepKeeps<S, C, E>(rt: Runtime<S, C, E>, base: seq<Encoded>, w: World<S, C, E>, step: Step<C>)
    requires Inv(rt, base, w)
    requires step.Begin? || step.ReadCache? || step.ReadLog? || step.Decide? || step.Cancel?
    ensures Inv(rt, base, Next(rt, w, step))
  {
    var w', id := Next(rt, w, step), step.id;
    if step.ReadLog? && id in w.calls && w.calls[id].phase.Seeded? {
      LoadOk(rt, w, w.calls[id]);
    }
    if step.Decide? && id in w.calls && w.calls[id].phase.Loaded? {
      DecideOk(rt, w.log, w.calls[id]);
    }
    if w' != w {
      CallMoves(rt, w, id, w'.calls[id]);
    }
  }

  lemma InvKept<S(!new), C, E(!new)>(rt: Runtime<S, C, E>, base: seq<Encoded>, w: World<S, C, E>, step: Step<C>)
    requires Faithful(rt) && Inv(rt, base, w)
    ensures Inv(rt, base, Next(rt, w, step))
  {
    match step
    case Append(id, fault) =>
      if id in w.calls && w.calls[id].phase.Decided? {
        AppendKeeps(rt, base, w, id, fault);
      }
    case SaveSnapshot(id, written) =>
      if id in w.calls && w.calls[id].phase.Appended? {
        SaveKeeps(rt, base, w, id, written);
      }
    case ForeignSnapshot(_) => assert w.log[..0] == [];
    case DropCache => assert w.log[..0] == [];
    case _ => ReadStepKeeps(rt, base, w, step);
  }

  /** Any stream, with any cache whose usable snapshot is a fold of it. */
  ghost predicate Init<S, C, E>(rt: Runtime<S, C, E>, w: World<S, C, E>) {
    w.calls == map[] && w.batches == [] && CacheOk(rt, w.cache, w.log)
  }

  lemma {:induction false} InvAlongRun<S(!new), C, E(!new)>(rt: Runtime<S, C, E>, base: seq<Encoded>, w: World<S, C, E>,
                                                            steps: seq<Step<C>>)
    requires Faithful(rt) && Inv(rt, base, w)
    ensures Inv(rt, base, Run(rt, w, steps))
  {
    if steps != [] {
      InvAlongRun(rt, base, w, steps[..|steps| - 1]);
      InvKept(rt, base, Run(rt, w, steps[..|steps| - 1]), steps[|steps| - 1]);
    }
  }

  // ---------------------------------------------------------------- the main theorems

  /** In every run the stream is what was there, followed by batches each of which Decide produced on the
      fold of exactly the events before it, on a state that is not terminal; no call wrote two of them, a
      call that ended in a refusal or a conflict wrote none, and no call retries past its budget. */
  lemma Serializable<S(!new), C, E(!new)>(rt: Runtime<S, C, E>, w: World<S, C, E>, steps: seq<Step<C>>)
    requires Faithful(rt) && Init(rt, w)
    ensures var w' := Run(rt, w, steps);
            && Serial(rt, w.log, w'.log, w'.batches)
            && Owned(w'.batches, w'.calls)
            && (forall id | id in w'.calls :: w'.calls[id].attempt <= rt.retries)
            && (forall id | id in w'.calls && w'.calls[id].phase == Done(Conflict) ::
                w'.calls[id].attempt == rt.retries)
  {
    InvAlongRun(rt, w.log, w, steps);
  }

  lemma {:induction false} LogOnlyGrows<S, C, E>(rt: Runtime<S, C, E>, w: World<S, C, E>, steps: seq<Step<C>>)
    ensures w.log <= Run(rt, w, steps).log
  {
    if steps != [] {
      LogOnlyGrows(rt, w, steps[..|steps| - 1]);
    }
  }

  /** Whatever the cache went through, and whatever runs between reading it and reading the log, a load is
      the fold of the whole stream at its version when the log was read. */
  lemma LoadAfterAnyHistory<S(!new), C, E(!new)>(rt: Runtime<S, C, E>, w: World<S, C, E>, steps: seq<Step<C>>,
                                                 between: seq<Step<C>>)
    requires Faithful(rt) && Init(rt, w)
    ensures var cached := Run(rt, w, steps);
            var log := Run(rt, cached, between).log;
            && CacheOk(rt, cached.cache, log)
            && LoadCurrent(rt, cached.cache, log) == if Fold(rt, log).Some? then Some(Seed(Fold(rt, log).value, |log|))
               else None
  {
    InvAlongRun(rt, w.log, w, steps);
    var cached := Run(rt, w, steps);
    var log, seed := Run(rt, cached, between).log, SeedOf(rt, cached.cache);
    LogOnlyGrows(rt, cached, between);
    assert log[..seed.from] == cached.log[..seed.from];
    LoadIsTheFold(rt, cached.cache, log);
  }

  lemma {:induction false} DoneIsFinal<S, C, E>(rt: Runtime<S, C, E>, w: World<S, C, E>, steps: seq<Step<C>>, id: nat)
    requires id in w.calls && w.calls[id].phase.Done?
    ensures id in Run(rt, w, steps).calls && Run(rt, w, steps).calls[id] == w.calls[id]
  {
    if steps != [] {
      DoneIsFinal(rt, w, steps[..|steps| - 1], id);
    }
  }

  /** A success stays true of the log for ever: its events stand at from..to, decided on what precedes
      them, and its state is what LoadAsOfVersion(to) folds. */
  lemma ResultStaysTrue<S(!new), C, E(!new)>(rt: Runtime<S, C, E>, w: World<S, C, E>, steps: seq<Step<C>>,
                                             more: seq<Step<C>>, id: nat)
    requires Faithful(rt) && Init(rt, w)
    requires id in Run(rt, w, steps).calls && Run(rt, w, steps).calls[id].phase.Done?
    requires Run(rt, w, steps).calls[id].phase.outcome.Succeeded?
    ensures var c := Run(rt, w, steps).calls[id];
            var later := Run(rt, Run(rt, w, steps), more);
            Reports(rt, later.log, c, c.phase.outcome.state, c.phase.outcome.from, c.phase.outcome.to,
                    c.phase.outcome.events)
  {
    InvAlongRun(rt, w.log, w, steps);
    var mid := Run(rt, w, steps);
    InvAlongRun(rt, w.log, mid, more);
    DoneIsFinal(rt, mid, more, id);
    var later := Run(rt, mid, more);
    assert PhaseOk(rt, later.log, later.calls[id]);
  }

  /** Nothing follows a terminal state. */
  lemma {:induction false} TerminalIsFinal<S(!new), C, E(!new)>(
    rt: Runtime<S, C, E>, base: seq<Encoded>, w: World<S, C, E>, steps: seq<Step<C>>)
    requires Faithful(rt) && Inv(rt, base, w)
    requires Fold(rt, w.log).Some? && rt.terminal(Fold(rt, w.log).value)
    ensures Run(rt, w, steps).log == w.log
  {
    if steps != [] {
      var init, last := steps[..|steps| - 1], steps[|steps| - 1];
      TerminalIsFinal(rt, base, w, init);
      InvAlongRun(rt, base, w, init);
      var mid := Run(rt, w, init);
      assert mid.log[..|mid.log|] == mid.log;
      if last.Append? && last.id in mid.calls {
        assert PhaseOk(rt, mid.log, mid.calls[last.id]);
      }
    }
  }

  /** The append function must be durable when it returns. If the caller's transaction rolls back after
      the write-through, the next load is right exactly when no snapshot of new events was written. */
  lemma RolledBackAppend<S(!new), C, E(!new)>(rt: Runtime<S, C, E>, cache: Option<Snapshot>, log: seq<Encoded>, s: S,
                                              events: seq<E>)
    requires Faithful(rt) && CacheOk(rt, cache, log) && FoldsTo(rt, log, |log|, s)
    ensures var after := Saved(rt, cache, Evolve(rt, s, events), |log| + |events|);
            LoadCurrent(rt, after, log) == Some(Seed(s, |log|))
            <==> !rt.cached || rt.encodeState(Evolve(rt, s, events)).None? || events == []
  {
    assert log[..|log|] == log;
    var s' := Evolve(rt, s, events);
    var after := Saved(rt, cache, s', |log| + |events|);
    if !rt.cached || rt.encodeState(s').None? || events == [] {
      LoadIsTheFold(rt, after, log);
    }
  }

  // ---------------------------------------------------------------- a rolled-back append at one input

  /** A stream that counts its events: state n is written as n bytes, an event as one. */
  function Counting(): Runtime<int, bool, bool> {
    Runtime(0, (s: int, c: bool) => Produce([c], false), (s: int, e: bool) => s + 1, (s: int) => false,
            (e: bool) => Some(Encoded([], 1, [if e then 1 else 0])),
            (x: Encoded) => Some(x.payload == [1]),
            (x: Encoded, e: bool) => Some(e),
            true, (s: int) => if s >= 0 then Some(seq(s, _ => 0)) else None, (b: Bytes) => Some(|b|), 1, 0)
  }

  /** It is a faithful runtime, its empty stream folds to 0, and after an append of one event that rolled
      back behind the write-through the next load reports state 1 at version 1. */
  lemma RolledBackAppendPoisonsTheCache()
    ensures var rt := Counting();
            && Faithful(rt) && Fold(rt, []) == Some(0) && CacheOk(rt, None, [])
            && LoadCurrent(rt, Saved(rt, None, Evolve(rt, 0, [true]), 1), []) == Some(Seed(1, 1))
  {
    var rt := Counting();
    var zero: Bytes, one: Bytes := [0], [1];
    assert zero[0] != one[0];
    var state: Bytes := seq(1, _ => 0);
    assert [true][..0] == [];
    assert Evolve(rt, 0, []) == 0;
    assert Evolve(rt, 0, [true]) == 1;
    assert SeedOf(rt, Some(Snapshot(1, 1, state))) == Seed(1, 1);
  }
}
