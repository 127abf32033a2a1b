/** Time travel by wall clock (aggregate/runtime.go over ReadStreamAsOf): LoadAsOfTime is LoadAsOfVersion
    at the version the stream had reached by then, in every concurrent run of the store. */
module TimeTravel {
  import opened Wrappers
  import opened Envelopes
  import opened Aggregate
  import ChainedAppend
  import StreamStore

  function Stored(rows: seq<Envelope>): (r: seq<Encoded>)
    ensures |r| == |rows|
    ensures forall i | 0 <= i < |rows| :: r[i] == Encoded(rows[i].typeUrl, rows[i].schemaVersion, rows[i].payload)
  {
    seq(|rows|, i requires 0 <= i < |rows| => Encoded(rows[i].typeUrl, rows[i].schemaVersion, rows[i].payload))
  }

  lemma StoredPrefix(rows: seq<Envelope>, n: nat)
    requires n <= |rows|
    ensures Stored(rows[..n]) == Stored(rows)[..n]
  {
  }

  /** What LoadAsOfVersion(v) answers for a version the stream has reached. */
  function AtVersion<S, C, E>(rt: Runtime<S, C, E>, log: seq<Encoded>, v: nat): Result<S, LoadError>
    requires v <= |log|
  {
    match Fold(rt, log[..v])
    case Some(s) => Ok(s)
    case None => Err(Undecodable)
  }

  /** LoadAsOfTime: the zero time means no bound, so it is a current load. */
  method LoadAsOfTime<S, C, E>(rt: Runtime<S, C, E>, cache: Option<Snapshot>, rows: seq<Envelope>, t: Time)
    returns (r: Result<S, LoadError>)
    ensures StreamStore.RecordedInOrder(rows) && t != ZERO_TIME ==>
              && |StreamStore.AsOf(rows, t)| <= |rows|
              && r == AtVersion(rt, Stored(rows), |StreamStore.AsOf(rows, t)|)
    ensures CacheOk(rt, cache, Stored(rows)) && t == ZERO_TIME ==> r == AtVersion(rt, Stored(rows), |rows|)
  {
    if t == ZERO_TIME {
      assert Stored(rows)[..|rows|] == Stored(rows);
      var full := Load(rt, cache, Stored(rows), 0);
      return if full.Ok? then Ok(full.value.0) else Err(full.error);
    }
    var envs := Stored(StreamStore.AsOf(rows, t));
    if StreamStore.RecordedInOrder(rows) {
      StreamStore.AsOfIsPrefix(rows, t);
      StoredPrefix(rows, |envs|);
    }
    var folded := FoldEach(rt, rt.initial, envs);
    r := if folded.Some? then Ok(folded.value) else Err(Undecodable);
  }

  /** v is the version a stream had reached by t, and folding the as-of read is folding that prefix. */
  ghost predicate VersionAt<S, C, E>(rt: Runtime<S, C, E>, rows: seq<Envelope>, t: Time, v: nat) {
    && v <= |rows|
    && (forall i | 0 <= i < |rows| :: rows[i].recordedAt <= t <==> i < v)
    && Fold(rt, Stored(StreamStore.AsOf(rows, t))) == Fold(rt, Stored(rows)[..v])
  }

  lemma OrderedRowsHaveAVersionAt<S, C, E>(rt: Runtime<S, C, E>, rows: seq<Envelope>, t: Time)
    requires StreamStore.RecordedInOrder(rows)
    ensures VersionAt(rt, rows, t, |StreamStore.AsOf(rows, t)|)
  {
    StreamStore.AsOfIsPrefix(rows, t);
    StoredPrefix(rows, |StreamStore.AsOf(rows, t)|);
  }

  lemma LaterVersionAt<S, C, E>(rt: Runtime<S, C, E>, rows: seq<Envelope>, later: seq<Envelope>, t: Time, v: nat,
                                v': nat)
    requires rows <= later && VersionAt(rt, rows, t, v) && VersionAt(rt, later, t, v')
    ensures v <= v' && (v < |rows| ==> v' == v) && Stored(later)[..v] == Stored(rows)[..v]
  {
    if v > 0 {
      assert later[v - 1] == rows[v - 1];
    }
    if v < |rows| {
      assert later[v] == rows[v];
    }
    StoredPrefix(rows, v);
    StoredPrefix(later, v);
    assert later[..v] == rows[..v];
  }

  lemma RunsRecordInOrder(c: StreamStore.Setting, sha: Sha, st: StreamStore.Store, steps: seq<StreamStore.Step>,
                          more: seq<StreamStore.Step>)
    requires c.h == Chain(sha) && StreamStore.Init(c, st)
    ensures var mid := StreamStore.Run(c, st, steps);
            && StreamStore.RecordedInOrder(mid.rows)
            && StreamStore.RecordedInOrder(StreamStore.Run(c, mid, more).rows)
            && mid.rows <= StreamStore.Run(c, mid, more).rows
  {
    ChainedAppend.ChainIgnoresStoreColumns(sha);
    StreamStore.InvAlongRun(c, st, steps);
    StreamStore.InvAlongRun(c, StreamStore.Run(c, st, steps), more);
    StreamStore.StreamOnlyGrows(c, StreamStore.Run(c, st, steps), more);
  }

  /** However the appends interleave, the as-of-time state is the as-of-version state at the one version
      reached by t; and once a row later than t has committed, no further append ever changes it. */
  lemma AsOfTimeIsAsOfVersion<S, C, E>(
    rt: Runtime<S, C, E>, c: StreamStore.Setting, sha: Sha, st: StreamStore.Store,
    steps: seq<StreamStore.Step>, more: seq<StreamStore.Step>, t: Time)
    requires c.h == Chain(sha) && StreamStore.Init(c, st)
    ensures var mid := StreamStore.Run(c, st, steps);
            var later := StreamStore.Run(c, mid, more).rows;
            var v, v' := |StreamStore.AsOf(mid.rows, t)|, |StreamStore.AsOf(later, t)|;
            && VersionAt(rt, mid.rows, t, v) && VersionAt(rt, later, t, v')
            && v <= v' && (v < |mid.rows| ==> v' == v)
            && Stored(later)[..v] == Stored(mid.rows)[..v]
  {
    RunsRecordInOrder(c, sha, st, steps, more);
    var mid := StreamStore.Run(c, st, steps);
    var later := StreamStore.Run(c, mid, more).rows;
    OrderedRowsHaveAVersionAt(rt, mid.rows, t);
    OrderedRowsHaveAVersionAt(rt, later, t);
    LaterVersionAt(rt, mid.rows, later, t, |StreamStore.AsOf(mid.rows, t)|, |StreamStore.AsOf(later, t)|);
  }
}
