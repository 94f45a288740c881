/** Moving the scorer's counters to the miner_scores table while observations keep arriving.

    A flush first takes the counters out of memory and only then writes them, so a flush that fails
    loses them; rows not written for a retention period are deleted.  `CountsAreConserved` accounts for
    every observation ever made, over every interleaving.
 */
module ScoreFlush {
  import opened Options
  import opened MinerScoring

  datatype Row = Row(minerUid: int, quality: real, total: nat, successful: nat, avgLatency: real, updatedAt: real)

  type Table = map<Key, Row>

  /** INSERT ... ON CONFLICT: counters add up, the rest is overwritten, the uid of an existing row stays. */
  function UpsertedRow(old_: Option<Row>, s: Score, now: real): Row {
    match old_
    case None => Row(s.minerUid, s.quality, s.total, s.successful, s.avgLatency, now)
    case Some(r) => Row(r.minerUid, s.quality, r.total + s.total, r.successful + s.successful, s.avgLatency, now)
  }

  predicate Worth(snap: map<Key, Score>, k: Key) {
    k in snap && snap[k].total > 0
  }

  /** The table after upserting a whole snapshot; miners without new requests are skipped. */
  function Upserted(rows: Table, snap: map<Key, Score>, now: real): Table {
    map k | k in rows.Keys + snap.Keys && (k in rows || Worth(snap, k)) ::
      if Worth(snap, k) then UpsertedRow(Get(rows, k), snap[k], now) else rows[k]
  }

  function Purged(rows: Table, cutoff: real): Table {
    map k | k in rows && rows[k].updatedAt >= cutoff :: rows[k]
  }

  function Flushed(rows: Table, snap: map<Key, Score>, now: real, retention: real): Table {
    Purged(Upserted(rows, snap, now), now - retention)
  }

  function UpsertOne(rows: Table, s: Score, now: real): Table {
    if s.total == 0 then rows else rows[s.Key() := UpsertedRow(Get(rows, s.Key()), s, now)]
  }

  /** The upserts one statement at a time. */
  function UpsertAll(rows: Table, lines: seq<Score>, now: real): Table {
    if lines == [] then rows
    else UpsertOne(UpsertAll(rows, lines[..|lines| - 1], now), lines[|lines| - 1], now)
  }

  lemma UpsertNext(rows: Table, lines: seq<Score>, i: nat, now: real)
    requires i < |lines|
    ensures UpsertAll(rows, lines[..i + 1], now) == UpsertOne(UpsertAll(rows, lines[..i], now), lines[i], now)
  {
    assert lines[..i + 1][..i] == lines[..i];
  }

  lemma {:induction false} UpsertAllAt(rows: Table, lines: seq<Score>, now: real, k: Key)
    requires forall i, j | 0 <= i < j < |lines| :: lines[i].Key() != lines[j].Key()
    ensures !Mentions(lines, k) ==> Get(UpsertAll(rows, lines, now), k) == Get(rows, k)
    ensures forall i | 0 <= i < |lines| && lines[i].Key() == k ::
      Get(UpsertAll(rows, lines, now), k) ==
        (if lines[i].total == 0 then Get(rows, k) else Some(UpsertedRow(Get(rows, k), lines[i], now)))
  {
    if lines != [] {
      var n := |lines| - 1;
      UpsertAllAt(rows, lines[..n], now, k);
      if Mentions(lines[..n], k) {
        var i :| 0 <= i < n && lines[..n][i].Key() == k;
        assert lines[i].Key() == k;
      }
    }
  }

  lemma UpsertAllIsUpserted(rows: Table, lines: seq<Score>, snap: map<Key, Score>, now: real)
    requires Lists(lines, snap)
    ensures UpsertAll(rows, lines, now) == Upserted(rows, snap, now)
  {
    var one, all := UpsertAll(rows, lines, now), Upserted(rows, snap, now);
    forall k: Key ensures Get(one, k) == Get(all, k) {
      UpsertAllAt(rows, lines, now, k);
      if k in snap {
        assert Mentions(lines, k);
        var i :| 0 <= i < |lines| && lines[i].Key() == k;
      }
    }
    SameLookups(one, all);
  }

  lemma SameLookups<K(!new), V>(a: map<K, V>, b: map<K, V>)
    requires forall k :: Get(a, k) == Get(b, k)
    ensures a == b
  {
    forall k ensures k in a <==> k in b {
      assert Get(a, k) == Get(b, k);
    }
    forall k | k in a ensures a[k] == b[k] {
      assert Get(a, k) == Get(b, k);
    }
  }

  class ScoreFlushTask {
    const scorer: MinerScorer
    const retention: real
    var rows: Table

    constructor (scorer: MinerScorer, retention: real)
      ensures this.scorer == scorer && this.retention == retention && rows == map[]
    {
      this.scorer := scorer;
      this.retention := retention;
      rows := map[];
    }

    /** With `fault`, the session raises at that statement and the transaction is rolled back. */
    method FlushOnce(now: real, fault: Option<nat>) returns (committed: bool)
      requires WellFiled(scorer.states)
      modifies this, scorer
      ensures scorer.states == Reset(old(scorer.states)) && WellFiled(scorer.states)
      ensures rows == if committed then Flushed(old(rows), SnapshotOf(old(scorer.states)), now, retention) else old(rows)
      ensures committed <==> fault.None?
    {
      var snapshot := scorer.GetSnapshotAndReset();
      var session := Execute(rows, snapshot, now, fault);
      UpsertAllIsUpserted(rows, snapshot, SnapshotOf(old(scorer.states)), now);
      if session.None? {
        return false;
      }
      var kept := map k | k in session.value && session.value[k].updatedAt >= now - retention :: session.value[k];
      if fault.Some? {
        return false;
      }
      rows := kept;
      return true;
    }
  }

  /** The upserts of one session, up to the statement that raises. */
  method Execute(rows: Table, snapshot: seq<Score>, now: real, fault: Option<nat>) returns (session: Option<Table>)
    ensures session == if fault.Some? && fault.value < |snapshot| then None else Some(UpsertAll(rows, snapshot, now))
  {
    var written := rows;
    for i := 0 to |snapshot|
      invariant written == UpsertAll(rows, snapshot[..i], now) && (fault.Some? ==> fault.value >= i)
    {
      UpsertNext(rows, snapshot, i, now);
      var s := snapshot[i];
      if fault == Some(i) {
        return None;
      }
      if s.total != 0 {
        written := written[s.Key() := UpsertedRow(Get(written, s.Key()), s, now)];
      }
    }
    assert snapshot[..|snapshot|] == snapshot;
    return Some(written);
  }

  // ---------- all interleavings ----------

  /** Memory, the snapshot a flush is holding, and the table. */
  datatype Plant = Plant(now: real, mem: States, held: Option<map<Key, Score>>, rows: Table)

  datatype Event = Tick(elapsed: real) | Observe(obs: Observation) | Begin | Commit | Abort

  datatype Setup = Setup(alpha: real, timeouts: map<int, real>, retention: real)

  predicate Enabled(w: Plant, e: Event) {
    match e
    case Tick(elapsed) => elapsed >= 0.0
    case Observe(_) => true
    case Begin => w.held.None?
    case _ => w.held.Some?
  }

  function Apply(w: Plant, e: Event, c: Setup): Plant
    requires Enabled(w, e)
  {
    match e
    case Tick(elapsed) => w.(now := w.now + elapsed)
    case Observe(obs) => w.(mem := Recorded(w.mem, c.alpha, c.timeouts, obs))
    case Begin => w.(mem := Reset(w.mem), held := Some(SnapshotOf(w.mem)))
    case Commit => w.(rows := Flushed(w.rows, w.held.value, w.now, c.retention), held := None)
    case Abort => w.(held := None)
  }

  datatype Run = Run(states: seq<Plant>, events: seq<Event>)

  ghost predicate IsRun(r: Run, c: Setup) {
    && |r.states| == |r.events| + 1
    && r.states[0].mem == map[] && r.states[0].held == None && r.states[0].rows == map[]
    && forall i | 0 <= i < |r.events| :: StepAt(r, i, c)
  }

  ghost predicate StepAt(r: Run, i: nat, c: Setup)
    requires i < |r.events| < |r.states|
  {
    Enabled(r.states[i], r.events[i]) && r.states[i + 1] == Apply(r.states[i], r.events[i], c)
  }

  /** What is counted: all requests, or the successful ones. */
  datatype Measure = Requests | Successes

  function InMemory(w: Plant, k: Key, m: Measure): nat {
    if k !in w.mem then 0 else if m.Requests? then w.mem[k].total else w.mem[k].successful
  }

  function InFlight(w: Plant, k: Key, m: Measure): nat {
    if w.held.None? || k !in w.held.value then 0
    else if m.Requests? then w.held.value[k].total else w.held.value[k].successful
  }

  function InTable(rows: Table, k: Key, m: Measure): nat {
    if k !in rows then 0 else if m.Requests? then rows[k].total else rows[k].successful
  }

  /** What the system still holds of one miner. */
  function Kept(w: Plant, k: Key, m: Measure): nat {
    InMemory(w, k, m) + InFlight(w, k, m) + InTable(w.rows, k, m)
  }

  function ObservedBy(e: Event, k: Key, m: Measure): nat {
    if e.Observe? && e.obs.Key() == k && (m.Requests? || e.obs.success) then 1 else 0
  }

  /** What a failing flush drops. */
  function LostBy(w: Plant, e: Event, k: Key, m: Measure): nat {
    if e.Abort? then InFlight(w, k, m) else 0
  }

  /** What retention deletes as a flush commits. */
  function ExpiredBy(w: Plant, e: Event, c: Setup, k: Key, m: Measure): nat {
    if e.Commit? && w.held.Some? && k !in Flushed(w.rows, w.held.value, w.now, c.retention)
    then InTable(Upserted(w.rows, w.held.value, w.now), k, m) else 0
  }

  /** Totals over the first `n` steps of a run: everything observed, lost and expired. */
  function Observed(r: Run, k: Key, m: Measure, n: nat): nat
    requires n <= |r.events|
  {
    if n == 0 then 0 else Observed(r, k, m, n - 1) + ObservedBy(r.events[n - 1], k, m)
  }

  function Lost(r: Run, k: Key, m: Measure, n: nat): nat
    requires n <= |r.events| < |r.states|
  {
    if n == 0 then 0 else Lost(r, k, m, n - 1) + LostBy(r.states[n - 1], r.events[n - 1], k, m)
  }

  function Expired(r: Run, c: Setup, k: Key, m: Measure, n: nat): nat
    requires n <= |r.events| < |r.states|
  {
    if n == 0 then 0 else Expired(r, c, k, m, n - 1) + ExpiredBy(r.states[n - 1], r.events[n - 1], c, k, m)
  }

  /** Nowhere more successes than requests. */
  predicate Proper(w: Plant, k: Key) {
    && InMemory(w, k, Successes) <= InMemory(w, k, Requests)
    && InFlight(w, k, Successes) <= InFlight(w, k, Requests)
    && InTable(w.rows, k, Successes) <= InTable(w.rows, k, Requests)
  }

  lemma UpsertAddsUp(w: Plant, k: Key, m: Measure)
    requires w.held.Some? && Proper(w, k)
    ensures InTable(Upserted(w.rows, w.held.value, w.now), k, m) == InTable(w.rows, k, m) + InFlight(w, k, m)
  {
    var snap, rows := w.held.value, Upserted(w.rows, w.held.value, w.now);
    if Worth(snap, k) {
      assert rows[k] == UpsertedRow(Get(w.rows, k), snap[k], w.now);
    } else {
      assert InFlight(w, k, m) == 0;
      assert k in rows <==> k in w.rows;
    }
  }

  lemma StepConserves(w: Plant, e: Event, c: Setup, k: Key, m: Measure)
    requires Enabled(w, e) && Proper(w, k)
    ensures Kept(w, k, m) + ObservedBy(e, k, m) == Kept(Apply(w, e, c), k, m) + LostBy(w, e, k, m) + ExpiredBy(w, e, c, k, m)
  {
    if e.Commit? {
      UpsertAddsUp(w, k, m);
    }
  }

  lemma StepProper(w: Plant, e: Event, c: Setup, k: Key)
    requires Enabled(w, e) && Proper(w, k)
    ensures Proper(Apply(w, e, c), k)
  {
    if e.Commit? {
      UpsertAddsUp(w, k, Requests);
      UpsertAddsUp(w, k, Successes);
    }
  }

  lemma {:induction false} ProperThroughout(r: Run, c: Setup, k: Key, n: nat)
    requires IsRun(r, c) && n <= |r.events|
    ensures Proper(r.states[n], k)
  {
    if n > 0 {
      ProperThroughout(r, c, k, n - 1);
      assert StepAt(r, n - 1, c);
      StepProper(r.states[n - 1], r.events[n - 1], c, k);
    }
  }

  /** Every observation is in memory, in a snapshot being written, in the table, in a snapshot that failed
      to be written, or in a row deleted by retention, exactly once; and so is every success. */
  lemma {:induction false} CountsAreConserved(r: Run, c: Setup, k: Key, m: Measure, n: nat)
    requires IsRun(r, c) && n <= |r.events|
    ensures var w := r.states[n];
      Observed(r, k, m, n) == InMemory(w, k, m) + InFlight(w, k, m) + InTable(w.rows, k, m)
                              + Lost(r, k, m, n) + Expired(r, c, k, m, n)
  {
    if n > 0 {
      CountsAreConserved(r, c, k, m, n - 1);
      assert StepAt(r, n - 1, c);
      ProperThroughout(r, c, k, n - 1);
      StepConserves(r.states[n - 1], r.events[n - 1], c, k, m);
    }
  }

  /** Retention never deletes a row in the transaction that wrote it. */
  lemma FlushKeepsWhatItWrites(rows: Table, snap: map<Key, Score>, now: real, retention: real, k: Key)
    requires retention >= 0.0 && Worth(snap, k)
    ensures Get(Flushed(rows, snap, now, retention), k) == Some(UpsertedRow(Get(rows, k), snap[k], now))
  {
  }

  /** One row after a flush.  A miner with new requests has a row with its score, its counts added, the average
      latency of the new requests and the time of the flush; the uid is the one the row began with.  Any other
      row is left alone, or deleted when it is older than the retention period. */
  lemma FlushedRow(rows: Table, states: States, now: real, retention: real, k: Key)
    requires retention >= 0.0 && WellFiled(states)
    ensures var after := Get(Flushed(rows, SnapshotOf(states), now, retention), k);
      if k in states && states[k].total > 0 then
        && after.Some? && var (row, s) := (after.value, states[k]);
          && row.quality == s.quality && row.updatedAt == now && row.avgLatency * s.total as real == s.latencySum
          && row.minerUid == (if k in rows then rows[k].minerUid else s.minerUid)
          && row.total == s.total + (if k in rows then rows[k].total else 0)
          && row.successful == s.successful + (if k in rows then rows[k].successful else 0)
      else after == if k in rows && now - rows[k].updatedAt <= retention then Some(rows[k]) else None
  {
    if k in states && states[k].total > 0 {
      FlushKeepsWhatItWrites(rows, SnapshotOf(states), now, retention, k);
      LineTells(states[k]);
    }
  }

  // ---------- scores in the table ----------

  /** Apart from requests not yet written, table and memory hold the same score. */
  predicate ScoreCurrent(w: Plant, k: Key) {
    k in w.mem && w.mem[k].total == 0 ==>
      && (w.held.Some? && k in w.held.value ==> w.held.value[k].quality == w.mem[k].quality)
      && (k in w.rows && !(w.held.Some? && Worth(w.held.value, k)) ==> w.rows[k].quality == w.mem[k].quality)
  }

  /** As long as no failed flush cost a miner requests, memory and table agree on its score wherever both
      have one and nothing is left to write. */
  lemma {:induction false} ScoresStayCurrent(r: Run, c: Setup, n: nat, k: Key)
    requires IsRun(r, c) && n <= |r.events| && Lost(r, k, Requests, n) == 0
    ensures ScoreCurrent(r.states[n], k)
    ensures k in r.states[n].rows || (r.states[n].held.Some? && k in r.states[n].held.value) ==> k in r.states[n].mem
  {
    if n > 0 {
      ScoresStayCurrent(r, c, n - 1, k);
      assert StepAt(r, n - 1, c);
      assert LostBy(r.states[n - 1], r.events[n - 1], k, Requests) == 0;
    }
  }

  lemma {:induction false} KnownMinersWereObserved(r: Run, c: Setup, n: nat, k: Key)
    requires IsRun(r, c) && n <= |r.events| && k in r.states[n].mem
    ensures Observed(r, k, Requests, n) >= 1
  {
    assert StepAt(r, n - 1, c);
    if k in r.states[n - 1].mem {
      KnownMinersWereObserved(r, c, n - 1, k);
    }
  }

  /** A miner that lost nothing to failed flushes and nothing to retention, and has nothing left to write, is
      in the table with its present score. */
  lemma ScoresReachTheTable(r: Run, c: Setup, n: nat, k: Key)
    requires IsRun(r, c) && n <= |r.events| && Lost(r, k, Requests, n) == 0 && Expired(r, c, k, Requests, n) == 0
    requires k in r.states[n].mem && InMemory(r.states[n], k, Requests) == InFlight(r.states[n], k, Requests) == 0
    ensures k in r.states[n].rows && r.states[n].rows[k].quality == r.states[n].mem[k].quality
  {
    KnownMinersWereObserved(r, c, n, k);
    CountsAreConserved(r, c, k, Requests, n);
    ScoresStayCurrent(r, c, n, k);
  }
}
