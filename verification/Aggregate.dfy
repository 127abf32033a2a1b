/** Loading an aggregate (aggregate/runtime.go): the fold of its stream, from a snapshot or from the start,
    current, bounded by a version, or as stale as the cache. Deciders and codecs are parameters. */
module Aggregate {
  import opened Wrappers
  import opened ByteStrings

  datatype Encoded = Encoded(typeUrl: Bytes, schemaVersion: nat, payload: Bytes)

  /** Decide: reject the command, or events and uniqueness constraints to commit together. */
  datatype Decision<E> = Reject | Produce(events: seq<E>, constrained: bool)

  datatype Runtime<!S, !C, !E> = Runtime(
    initial: S, decide: (S, C) -> Decision<E>, evolve: (S, E) -> S, terminal: S -> bool,
    encode: E -> Option<Encoded>, decode: Encoded -> Option<E>, upcast: (Encoded, E) -> Option<E>,
    cached: bool, encodeState: S -> Option<Bytes>, decodeState: Bytes -> Option<S>, foldVersion: nat,
    retries: nat)

  /** What snapshots and read-your-writes rely on: codecs round-trip and the upcaster leaves events of
      the current schema alone. */
  ghost predicate Faithful<S(!new), C, E(!new)>(rt: Runtime<S, C, E>) {
    && (forall e: E :: rt.encode(e).Some? ==>
          rt.decode(rt.encode(e).value) == Some(e) && rt.upcast(rt.encode(e).value, e) == Some(e))
    && (forall s: S :: rt.encodeState(s).Some? ==> rt.decodeState(rt.encodeState(s).value) == Some(s))
  }

  // ---------------------------------------------------------------- folding

  /** One stored event as the fold sees it: decoded, then upcast. */
  function View<S, C, E>(rt: Runtime<S, C, E>, x: Encoded): Option<E> {
    match rt.decode(x)
    case None => None
    case Some(e) => rt.upcast(x, e)
  }

  function FoldFrom<S, C, E>(rt: Runtime<S, C, E>, s: S, log: seq<Encoded>): Option<S> {
    if log == [] then Some(s)
    else
      match FoldFrom(rt, s, log[..|log| - 1])
      case None => None
      case Some(t) =>
        match View(rt, log[|log| - 1])
        case None => None
        case Some(e) => Some(rt.evolve(t, e))
  }

  function Fold<S, C, E>(rt: Runtime<S, C, E>, log: seq<Encoded>): Option<S> {
    FoldFrom(rt, rt.initial, log)
  }

  lemma {:induction false} FoldConcat<S, C, E>(rt: Runtime<S, C, E>, s: S, a: seq<Encoded>, b: seq<Encoded>)
    requires FoldFrom(rt, s, a).Some?
    ensures FoldFrom(rt, s, a + b) == FoldFrom(rt, FoldFrom(rt, s, a).value, b)
    decreases |b|
  {
    if b == [] {
      assert a + b == a;
    } else {
      var n := |b| - 1;
      assert (a + b)[..|a| + n] == a + b[..n];
      FoldConcat(rt, s, a, b[..n]);
    }
  }

  lemma {:induction false} FoldFailsEarly<S, C, E>(rt: Runtime<S, C, E>, s: S, log: seq<Encoded>, n: nat)
    requires n <= |log| && FoldFrom(rt, s, log[..n]).None?
    ensures FoldFrom(rt, s, log).None?
    decreases |log|
  {
    if n < |log| {
      assert log[..|log| - 1][..n] == log[..n];
      FoldFailsEarly(rt, s, log[..|log| - 1], n);
    } else {
      assert log[..n] == log;
    }
  }

  // ---------------------------------------------------------------- loading

  datatype Snapshot = Snapshot(version: nat, foldVersion: nat, state: Bytes)

  datatype Seed<S> = Seed(state: S, from: nat)

  /** The snapshot seed, when there is a usable one. */
  function SeedOf<S, C, E>(rt: Runtime<S, C, E>, cache: Option<Snapshot>): Seed<S> {
    if rt.cached && cache.Some? && cache.value.foldVersion == rt.foldVersion && rt.decodeState(cache.value.state).Some?
    then Seed(rt.decodeState(cache.value.state).value, cache.value.version)
    else Seed(rt.initial, 0)
  }

  /** ReadStream(from, to): to == 0 means no upper bound. */
  function ReadStream(log: seq<Encoded>, from: nat, to: nat): seq<Encoded> {
    var hi := if to == 0 || to > |log| then |log| else to;
    if from <= hi then log[from..hi] else []
  }

  /** A current load: the seed and the tail above it, which need not be read at the same instant. */
  function LoadCurrent<S, C, E>(rt: Runtime<S, C, E>, cache: Option<Snapshot>, log: seq<Encoded>): Option<Seed<S>> {
    LoadFrom(rt, SeedOf(rt, cache), log)
  }

  function LoadFrom<S, C, E>(rt: Runtime<S, C, E>, seed: Seed<S>, log: seq<Encoded>): Option<Seed<S>> {
    var envs := ReadStream(log, seed.from, 0);
    match FoldFrom(rt, seed.state, envs)
    case None => None
    case Some(s) => Some(Seed(s, seed.from + |envs|))
  }

  datatype LoadError = Undecodable | OutOfRange(version: nat)

  /** The fold loop of load: decode, upcast, evolve. */
  method FoldEach<S, C, E>(rt: Runtime<S, C, E>, from: S, envs: seq<Encoded>) returns (r: Option<S>)
    ensures r == FoldFrom(rt, from, envs)
  {
    var state := from;
    assert envs[..0] == [];
    for i := 0 to |envs|
      invariant FoldFrom(rt, from, envs[..i]) == Some(state)
    {
      assert envs[..i + 1][..i] == envs[..i];
      var ev := View(rt, envs[i]);
      if ev.None? {
        FoldFailsEarly(rt, from, envs, i + 1);
        return None;
      }
      state := rt.evolve(state, ev.value);
    }
    assert envs[..|envs|] == envs;
    r := Some(state);
  }

  /** load: the fold of what the store returned, from the snapshot seed for a current load, from
      the initial state for time travel (upTo > 0). */
  method Load<S, C, E>(rt: Runtime<S, C, E>, cache: Option<Snapshot>, log: seq<Encoded>, upTo: nat)
    returns (r: Result<(S, nat), LoadError>)
    ensures upTo == 0 ==>
              match LoadCurrent(rt, cache, log)
              case None => r == Err(Undecodable)
              case Some(seed) => r == Ok((seed.state, seed.from))
    ensures upTo == 0 && CacheOk(rt, cache, log) ==>
              if Fold(rt, log).Some? then r == Ok((Fold(rt, log).value, |log|)) else r == Err(Undecodable)
    ensures 0 < upTo <= |log| ==>
              if Fold(rt, log[..upTo]).Some? then r == Ok((Fold(rt, log[..upTo]).value, upTo))
                else r == Err(Undecodable)
    ensures upTo > |log| ==> r == Err(if Fold(rt, log).Some? then OutOfRange(|log|) else Undecodable)
  {
    var seed := if upTo == 0 then SeedOf(rt, cache) else Seed(rt.initial, 0);
    var envs := ReadStream(log, seed.from, upTo);
    if upTo == 0 && CacheOk(rt, cache, log) {
      SeededFold(rt, cache, log);
    } else if 0 < upTo <= |log| {
      assert envs == log[..upTo];
    } else if upTo > |log| {
      assert envs == log;
    }
    var folded := FoldEach(rt, seed.state, envs);
    if folded.None? {
      return Err(Undecodable);
    }
    var state, version := folded.value, seed.from + |envs|;
    if upTo > 0 && version != upTo {
      return Err(OutOfRange(version));
    }
    r := Ok((state, version));
  }

  /** A snapshot of the current fold version holds the fold of the prefix it names. */
  ghost predicate CacheOk<S, C, E>(rt: Runtime<S, C, E>, cache: Option<Snapshot>, log: seq<Encoded>) {
    var seed := SeedOf(rt, cache);
    seed.from <= |log| && Fold(rt, log[..seed.from]) == Some(seed.state)
  }

  lemma SeededFold<S, C, E>(rt: Runtime<S, C, E>, cache: Option<Snapshot>, log: seq<Encoded>)
    requires CacheOk(rt, cache, log)
    ensures var seed := SeedOf(rt, cache);
            && FoldFrom(rt, seed.state, log[seed.from..]) == Fold(rt, log)
            && ReadStream(log, seed.from, 0) == log[seed.from..]
  {
    var seed := SeedOf(rt, cache);
    FoldConcat(rt, rt.initial, log[..seed.from], log[seed.from..]);
    assert log[..seed.from] + log[seed.from..] == log;
  }

  /** LoadAsOfVersion. */
  method LoadAsOfVersion<S, C, E>(rt: Runtime<S, C, E>, cache: Option<Snapshot>, log: seq<Encoded>, v: nat)
    returns (r: Result<S, LoadError>)
    ensures v <= |log| ==>
              if Fold(rt, log[..v]).Some? then r == Ok(Fold(rt, log[..v]).value) else r == Err(Undecodable)
    ensures v > |log| ==> r == Err(if Fold(rt, log).Some? then OutOfRange(|log|) else Undecodable)
  {
    if v == 0 {
      assert log[..0] == [];
      return Ok(rt.initial);
    }
    var full := Load(rt, cache, log, v);
    r := if full.Ok? then Ok(full.value.0) else Err(full.error);
  }

  /** LoadStale: the cached state without reading the log when a snapshot is usable and young enough,
      otherwise a strong load. Either way the state is the fold of the prefix it reports. */
  method LoadStale<S, C, E>(rt: Runtime<S, C, E>, cache: Option<Snapshot>, log: seq<Encoded>, youngEnough: bool)
    returns (r: Result<(S, nat), LoadError>, cacheOnly: bool)
    ensures CacheOk(rt, cache, log) && r.Ok? ==> r.value.1 <= |log| && Fold(rt, log[..r.value.1]) == Some(r.value.0)
    ensures CacheOk(rt, cache, log) && r.Ok? && !cacheOnly ==> r.value.1 == |log|
    ensures CacheOk(rt, cache, log) ==> (r.Err? <==> !cacheOnly && Fold(rt, log).None?)
    ensures cacheOnly ==> r.Ok? && youngEnough && rt.cached && cache.Some?
  {
    if rt.cached && cache.Some? && cache.value.foldVersion == rt.foldVersion && youngEnough {
      var s := rt.decodeState(cache.value.state);
      if s.Some? {
        return Ok((s.value, cache.value.version)), true;
      }
    }
    assert log[..|log|] == log;
    r := Load(rt, cache, log, 0);
    cacheOnly := false;
  }
}
