/** The event log as the feed reads it: committed rows keyed by global_position.
    A scope names what one query sees: a whole workspace, or a workspace
    restricted to a set of type URLs. */
module EventLog {
  import opened ByteStrings

  datatype Row = Row(ws: string, typ: string, payload: Bytes)

  datatype Entry = Entry(pos: nat, row: Row)

  type Log = map<nat, Row>

  datatype Scope =
    | Workspace(ws: string)
    | Types(ws: string, types: set<string>)
  {
    predicate Matches(row: Row) {
      row.ws == ws && (Types? ==> row.typ in types)
    }
  }

  /** SELECT ... WHERE lo < global_position <= hi AND scope ORDER BY global_position. */
  function RowsIn(log: Log, scope: Scope, lo: nat, hi: nat): (rows: seq<Entry>)
    ensures forall i :: 0 <= i < |rows| ==>
                          && lo < rows[i].pos <= hi
                          && rows[i].pos in log
                          && rows[i].row == log[rows[i].pos]
                          && scope.Matches(rows[i].row)
    ensures forall i, j :: 0 <= i < j < |rows| ==> rows[i].pos < rows[j].pos
    ensures forall p | lo < p <= hi && p in log && scope.Matches(log[p]) :: Entry(p, log[p]) in rows
    decreases hi
  {
    if hi <= lo then []
    else
      var before := RowsIn(log, scope, lo, hi - 1);
      if hi in log && scope.Matches(log[hi]) then before + [Entry(hi, log[hi])] else before
  }

  /** COALESCE(MAX(global_position), 0) over the scope's rows at or below hi. */
  function HeadAt(log: Log, scope: Scope, hi: nat): (head: nat)
    ensures head <= hi
    ensures head != 0 ==> head in log && scope.Matches(log[head])
    ensures forall p | head < p <= hi && p in log :: !scope.Matches(log[p])
  {
    if hi == 0 then 0
    else if hi in log && scope.Matches(log[hi]) then hi
    else HeadAt(log, scope, hi - 1)
  }

  /** The log only ever gains rows. */
  ghost predicate Extends(before: Log, after: Log) {
    forall p | p in before :: p in after && after[p] == before[p]
  }

  /** No row at or below p appears, changes or disappears. */
  ghost predicate AgreeTo(before: Log, after: Log, p: nat) {
    forall q | q <= p :: (q in before <==> q in after) && (q in before ==> before[q] == after[q])
  }

  lemma {:induction false} RowsInSplits(log: Log, scope: Scope, lo: nat, mid: nat, hi: nat)
    requires lo <= mid <= hi
    ensures RowsIn(log, scope, lo, hi) == RowsIn(log, scope, lo, mid) + RowsIn(log, scope, mid, hi)
    decreases hi
  {
    if mid < hi {
      RowsInSplits(log, scope, lo, mid, hi - 1);
    }
  }

  lemma {:induction false} RowsInAgrees(before: Log, after: Log, scope: Scope, lo: nat, hi: nat)
    requires AgreeTo(before, after, hi)
    ensures RowsIn(before, scope, lo, hi) == RowsIn(after, scope, lo, hi)
    decreases hi
  {
    if lo < hi {
      RowsInAgrees(before, after, scope, lo, hi - 1);
    }
  }

  lemma CutAtRow(all: seq<Entry>, below: seq<Entry>, above: seq<Entry>, n: nat)
    requires all == below + above && 0 < n <= |all|
    requires forall i | 0 <= i < |below| :: below[i].pos <= all[n - 1].pos
    requires forall i | 0 <= i < |above| :: above[i].pos > all[n - 1].pos
    requires forall i, j | 0 <= i < j < |all| :: all[i].pos < all[j].pos
    ensures all[..n] == below
  {
    if above != [] {
      assert above[0] == all[|below|];
    }
    assert |below| >= n;
    assert below[|below| - 1] == all[|below| - 1];
  }

  /** Cutting an ordered range after its n-th row is the same as lowering its upper bound to that row. */
  lemma PrefixIsRange(log: Log, scope: Scope, lo: nat, hi: nat, n: nat)
    requires 0 < n <= |RowsIn(log, scope, lo, hi)|
    ensures RowsIn(log, scope, lo, hi)[..n] == RowsIn(log, scope, lo, RowsIn(log, scope, lo, hi)[n - 1].pos)
  {
    var all := RowsIn(log, scope, lo, hi);
    var p := all[n - 1].pos;
    RowsInSplits(log, scope, lo, p, hi);
    CutAtRow(all, RowsIn(log, scope, lo, p), RowsIn(log, scope, p, hi), n);
  }
}
