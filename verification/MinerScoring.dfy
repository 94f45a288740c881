/** Miner quality scores: an exponential moving average per (subnet, hotkey), with request counters that a
    background task moves to the database.  Floats are modelled as reals. */
module MinerScoring {
  import opened Options

  const SUCCESS_WEIGHT := 0.5
  const LATENCY_WEIGHT := 0.3
  const COMPLETENESS_WEIGHT := 0.2
  const DEFAULT_TIMEOUT_MS := 30000.0

  type Key = (int, string)

  datatype Observation = Observation(minerUid: int, hotkey: string, netuid: int, success: bool, latencyMs: real,
                                     complete: Option<bool>, timestamp: real) {
    function Key(): Key {
      (netuid, hotkey)
    }
  }

  datatype MinerState = MinerState(minerUid: int, hotkey: string, netuid: int, quality: real, total: nat,
                                   successful: nat, latencySum: real, updated: real) {
    function Key(): Key {
      (netuid, hotkey)
    }
  }

  /** One line of the flush snapshot. */
  datatype Score = Score(minerUid: int, hotkey: string, netuid: int, quality: real, total: nat, successful: nat,
                         avgLatency: real, updated: real) {
    function Key(): Key {
      (netuid, hotkey)
    }
  }

  type States = map<Key, MinerState>

  function Unit(b: bool): real {
    if b then 1.0 else 0.0
  }

  function TimeoutFor(timeouts: map<int, real>, netuid: int): real {
    if netuid in timeouts then timeouts[netuid] else DEFAULT_TIMEOUT_MS
  }

  function ObservationScore(timeouts: map<int, real>, obs: Observation): real {
    var timeout := TimeoutFor(timeouts, obs.netuid);
    var room := if timeout > 0.0 then 1.0 - obs.latencyMs / timeout else 0.0;
    var latency := if room > 0.0 then room else 0.0;
    var completeness := if obs.complete.None? then 1.0 else Unit(obs.complete.value);
    SUCCESS_WEIGHT * Unit(obs.success) + LATENCY_WEIGHT * latency + COMPLETENESS_WEIGHT * completeness
  }

  /** Scores lie between 0 and 1, a failure earns at most half, and a success at least half. */
  lemma ObservationScoreRange(timeouts: map<int, real>, obs: Observation)
    requires obs.latencyMs >= 0.0
    ensures 0.0 <= ObservationScore(timeouts, obs) <= 1.0
    ensures if obs.success then ObservationScore(timeouts, obs) >= 0.5 else ObservationScore(timeouts, obs) <= 0.5
  {
    var timeout := TimeoutFor(timeouts, obs.netuid);
    if timeout > 0.0 {
      QuotientNonNegative(obs.latencyMs, timeout);
    }
  }

  /** Success earns a half, a response not found incomplete a fifth, and speed up to three tenths: in proportion
      to the time left of the subnet's timeout, which is 30 seconds unless configured, and nothing after it. */
  lemma ObservationPoints(timeouts: map<int, real>, obs: Observation)
    ensures var timeout := if obs.netuid in timeouts then timeouts[obs.netuid] else 30000.0;
      var earned := (if obs.success then 0.5 else 0.0) + if obs.complete == Some(false) then 0.0 else 0.2;
      var score := ObservationScore(timeouts, obs);
      && (obs.latencyMs >= timeout || timeout <= 0.0 ==> score == earned)
      && (obs.latencyMs < timeout && timeout > 0.0 ==> (score - earned) * timeout == 0.3 * (timeout - obs.latencyMs))
      && (obs.latencyMs == 0.0 && timeout > 0.0 ==> score == earned + 0.3)
  {
    var timeout := TimeoutFor(timeouts, obs.netuid);
    if timeout > 0.0 {
      QuotientAgainstOne(obs.latencyMs, timeout);
    }
  }

  lemma QuotientAgainstOne(x: real, y: real)
    requires y > 0.0
    ensures (x / y) * y == x && (x / y >= 1.0 <==> x >= y)
  {
    var q := x / y;
    assert q * y == x;
    if q >= 1.0 {
      Product(q - 1.0, y);
      assert (q - 1.0) * y == x - y;
    }
  }

  lemma Cancel(x: real, y: real, z: real)
    requires z > 0.0 && x * z < y * z
    ensures x < y
  {
    if x >= y {
      Product(x - y, z);
    }
  }

  /** Of two observations that differ in latency only, the faster one scores more, unless it too came in after
      the timeout: then both score the same. */
  lemma FasterScoresMore(timeouts: map<int, real>, fast: Observation, slow: Observation)
    requires 0.0 <= fast.latencyMs < slow.latencyMs && fast.netuid == slow.netuid
    requires fast.success == slow.success && fast.complete == slow.complete
    ensures if fast.latencyMs < TimeoutFor(timeouts, fast.netuid)
            then ObservationScore(timeouts, fast) > ObservationScore(timeouts, slow)
            else ObservationScore(timeouts, fast) == ObservationScore(timeouts, slow)
  {
    var (timeout, f, s) := (TimeoutFor(timeouts, fast.netuid), ObservationScore(timeouts, fast), ObservationScore(timeouts, slow));
    ObservationPoints(timeouts, fast);
    ObservationPoints(timeouts, slow);
    if fast.latencyMs < timeout {
      var earned := (if fast.success then 0.5 else 0.0) + if fast.complete == Some(false) then 0.0 else 0.2;
      assert 0.0 * timeout == 0.0;
      Cancel(s - earned, f - earned, timeout);
    }
  }

  /** A complete success scores 1 when instant and 0.7 from the timeout on; an incomplete response costs 0.2
      against one that was complete or not sampled, and a failure 0.5 against a success. */
  lemma ScoreMarks(timeouts: map<int, real>, obs: Observation)
    ensures var (score, lack) := (ObservationScore(timeouts, obs), if obs.complete == Some(false) then 0.2 else 0.0);
      && score == ObservationScore(timeouts, obs.(complete := None)) - lack
      && score == ObservationScore(timeouts, obs.(complete := Some(true))) - lack
    ensures ObservationScore(timeouts, obs.(success := true)) == ObservationScore(timeouts, obs.(success := false)) + 0.5
    ensures obs.netuid !in timeouts && obs.success && obs.complete == Some(true) ==>
      && (obs.latencyMs == 0.0 ==> ObservationScore(timeouts, obs) == 1.0)
      && (obs.latencyMs == 15000.0 ==> ObservationScore(timeouts, obs) == 0.85)
      && (obs.latencyMs >= 30000.0 ==> ObservationScore(timeouts, obs) == 0.7)
  {
    ObservationPoints(timeouts, obs);
  }

  lemma QuotientNonNegative(x: real, y: real)
    requires x >= 0.0 && y > 0.0
    ensures x / y >= 0.0
  {
    assert (x / y) * y == x;
  }

  function Times(x: real, y: real): real {
    x * y
  }

  function Blend(alpha: real, next: real, old_: real): real {
    Times(alpha, next) + Times(1.0 - alpha, old_)
  }

  /** What `record_observation` leaves in the dictionary. */
  function Recorded(states: States, alpha: real, timeouts: map<int, real>, obs: Observation): States {
    var score := ObservationScore(timeouts, obs);
    var s := if obs.Key() in states then states[obs.Key()].(quality := Blend(alpha, score, states[obs.Key()].quality))
             else MinerState(obs.minerUid, obs.hotkey, obs.netuid, score, 0, 0, 0.0, obs.timestamp);
    states[obs.Key() := s.(total := s.total + 1,
                           successful := s.successful + if obs.success then 1 else 0,
                           latencySum := s.latencySum + obs.latencyMs,
                           updated := obs.timestamp)]
  }

  function Emptied(s: MinerState): MinerState {
    s.(total := 0, successful := 0, latencySum := 0.0)
  }

  function Line(s: MinerState): Score {
    Score(s.minerUid, s.hotkey, s.netuid, s.quality, s.total, s.successful,
          if s.total > 0 then s.latencySum / s.total as real else 0.0, s.updated)
  }

  function Reset(states: States): States {
    map k | k in states :: Emptied(states[k])
  }

  function SnapshotOf(states: States): map<Key, Score> {
    map k | k in states :: Line(states[k])
  }

  /** States are filed under their own key and never report more successes than requests. */
  predicate WellFiled(states: States) {
    forall k | k in states :: states[k].Key() == k && states[k].successful <= states[k].total
  }

  /** `lines` lists the values of `m`, each under its own key, once. */
  ghost predicate Lists(lines: seq<Score>, m: map<Key, Score>) {
    && (forall i | 0 <= i < |lines| :: lines[i].Key() in m && m[lines[i].Key()] == lines[i])
    && (forall i, j | 0 <= i < j < |lines| :: lines[i].Key() != lines[j].Key())
    && (forall k | k in m :: Mentions(lines, k))
  }

  ghost predicate Mentions(lines: seq<Score>, k: Key) {
    exists i :: 0 <= i < |lines| && lines[i].Key() == k
  }

  /** The first observation of a miner sets its score and later ones are blended in; each is counted. */
  predicate Absorbs(before: Option<MinerState>, after: MinerState, obs: Observation, alpha: real, score: real) {
    && after.netuid == obs.netuid && after.hotkey == obs.hotkey && after.updated == obs.timestamp
    && var hit := if obs.success then 1 else 0;
      match before
      case None =>
        && after.minerUid == obs.minerUid && after.quality == score
        && after.total == 1 && after.successful == hit && after.latencySum == obs.latencyMs
      case Some(s) =>
        && after.minerUid == s.minerUid && after.quality == s.quality + alpha * (score - s.quality)
        && after.total == s.total + 1 && after.successful == s.successful + hit
        && after.latencySum == s.latencySum + obs.latencyMs
  }

  /** The line tells what the state holds, its average latency times the requests being their sum. */
  predicate Tells(line: Score, s: MinerState) {
    && (line.minerUid, line.hotkey, line.netuid) == (s.minerUid, s.hotkey, s.netuid)
    && (line.quality, line.total, line.successful, line.updated) == (s.quality, s.total, s.successful, s.updated)
    && if s.total == 0 then line.avgLatency == 0.0 else line.avgLatency * s.total as real == s.latencySum
  }

  lemma LineTells(s: MinerState)
    ensures Tells(Line(s), s)
  {
    if s.total > 0 {
      QuotientAgainstOne(s.latencySum, s.total as real);
    }
  }

  lemma LinesTell(lines: seq<Score>, states: States)
    requires Lists(lines, SnapshotOf(states))
    ensures forall line | line in lines :: line.Key() in states && Tells(line, states[line.Key()])
  {
    forall line | line in lines ensures line.Key() in states && Tells(line, states[line.Key()]) {
      LineTells(states[line.Key()]);
    }
  }

  lemma RecordedAbsorbs(states: States, alpha: real, timeouts: map<int, real>, obs: Observation)
    ensures var (k, after) := ((obs.netuid, obs.hotkey), Recorded(states, alpha, timeouts, obs));
      WellFiled(states) ==> k in after && Absorbs(Get(states, k), after[k], obs, alpha, ObservationScore(timeouts, obs))
  {
    var score := ObservationScore(timeouts, obs);
    if obs.Key() in states {
      assert Blend(alpha, score, states[obs.Key()].quality) ==
             states[obs.Key()].quality + alpha * (score - states[obs.Key()].quality);
    }
  }

  /** No requests are counted, and the score is what it was. */
  predicate Clears(before: MinerState, after: MinerState) {
    && (after.total, after.successful, after.latencySum) == (0, 0, 0.0)
    && (after.minerUid, after.hotkey, after.netuid) == (before.minerUid, before.hotkey, before.netuid)
    && (after.quality, after.updated) == (before.quality, before.updated)
  }

  class MinerScorer {
    const alpha: real
    const timeouts: map<int, real>
    var states: States

    constructor (alpha: real, timeouts: map<int, real>)
      ensures this.alpha == alpha && this.timeouts == timeouts && states == map[]
    {
      this.alpha := alpha;
      this.timeouts := timeouts;
      states := map[];
    }

    method RecordObservation(obs: Observation)
      requires WellFiled(states)
      modifies this
      ensures states == Recorded(old(states), alpha, timeouts, obs) && WellFiled(states)
      ensures var (k, score) := ((obs.netuid, obs.hotkey), ObservationScore(timeouts, obs));
        && states.Keys == old(states).Keys + {k} && (forall j | j in old(states) && j != k :: states[j] == old(states)[j])
        && Absorbs(Get(old(states), k), states[k], obs, alpha, score)
    {
      var key := obs.Key();
      var score := ObservationScore(timeouts, obs);
      var state;
      if key !in states {
        state := MinerState(obs.minerUid, obs.hotkey, obs.netuid, score, 0, 0, 0.0, obs.timestamp);
      } else {
        state := states[key];
        state := state.(quality := alpha * score + (1.0 - alpha) * state.quality);
      }
      state := state.(total := state.total + 1);
      if obs.success {
        state := state.(successful := state.successful + 1);
      }
      state := state.(latencySum := state.latencySum + obs.latencyMs, updated := obs.timestamp);
      assert state == Recorded(states, alpha, timeouts, obs)[key];
      RecordedAbsorbs(states, alpha, timeouts, obs);
      states := states[key := state];
    }

    function GetScore(netuid: int, hotkey: string): (score: Option<real>)
      reads this
      ensures score.Some? <==> (netuid, hotkey) in states
      ensures score.Some? ==> score.value == states[(netuid, hotkey)].quality
    {
      if (netuid, hotkey) in states then Some(states[(netuid, hotkey)].quality) else None
    }

    /** The scores of one subnet, by hotkey. */
    method GetScores(netuid: int) returns (scores: map<string, real>)
      ensures forall hotkey :: Get(scores, hotkey) == GetScore(netuid, hotkey)
      ensures forall hotkey :: hotkey in scores <==> (netuid, hotkey) in states
      ensures forall hotkey | hotkey in scores :: scores[hotkey] == states[(netuid, hotkey)].quality
    {
      scores := map[];
      var todo := states.Keys;
      while todo != {}
        invariant todo <= states.Keys
        invariant forall hotkey ::
          Get(scores, hotkey) == (if (netuid, hotkey) in todo then None else GetScore(netuid, hotkey))
        decreases todo
      {
        var k :| k in todo;
        todo := todo - {k};
        if k.0 == netuid {
          scores := scores[k.1 := states[k].quality];
        }
      }
    }

    /** Hand out every counter and start counting afresh; scores stay. */
    method GetSnapshotAndReset() returns (snapshot: seq<Score>)
      requires WellFiled(states)
      modifies this
      ensures Lists(snapshot, SnapshotOf(old(states)))
      ensures states == Reset(old(states)) && WellFiled(states)
      ensures forall line | line in snapshot :: line.Key() in old(states) && Tells(line, old(states)[line.Key()])
      ensures forall k | k in old(states) :: Clears(old(states)[k], states[k])
    {
      snapshot := [];
      var before := states;
      var todo := states.Keys;
      ghost var done: map<Key, Score> := map[];
      while todo != {}
        invariant todo <= before.Keys == states.Keys
        invariant forall k | k in before :: states[k] == if k in todo then before[k] else Emptied(before[k])
        invariant done.Keys == before.Keys - todo && forall k | k in done :: done[k] == Line(before[k])
        invariant Lists(snapshot, done)
        decreases todo
      {
        var k :| k in todo;
        var state := states[k];
        ListsAppend(snapshot, done, Line(state));
        snapshot := snapshot + [Line(state)];
        states := states[k := state.(total := 0, successful := 0, latencySum := 0.0)];
        done := done[k := Line(state)];
        todo := todo - {k};
      }
      assert done == SnapshotOf(before);
      LinesTell(snapshot, before);
    }
  }

  lemma ListsAppend(lines: seq<Score>, m: map<Key, Score>, line: Score)
    requires Lists(lines, m) && line.Key() !in m
    ensures Lists(lines + [line], m[line.Key() := line])
  {
    var more := lines + [line];
    forall k | k in m[line.Key() := line] ensures Mentions(more, k) {
      if k == line.Key() {
        assert more[|lines|].Key() == k;
      } else {
        assert Mentions(lines, k);
        var i :| 0 <= i < |lines| && lines[i].Key() == k;
        assert more[i].Key() == k;
      }
    }
  }

  // ---------- the moving average ----------

  /** The average after a non-empty sequence of observation scores. */
  function Ema(alpha: real, scores: seq<real>): real
    requires scores != []
  {
    var n := |scores| - 1;
    if n == 0 then scores[0] else Blend(alpha, scores[n], Ema(alpha, scores[..n]))
  }

  lemma EmaAppend(alpha: real, scores: seq<real>, next: real)
    requires scores != []
    ensures Ema(alpha, scores + [next]) == Blend(alpha, next, Ema(alpha, scores))
  {
    assert (scores + [next])[..|scores|] == scores;
  }

  lemma Product(x: real, y: real)
    requires x >= 0.0 && y >= 0.0
    ensures x * y >= 0.0
  {
  }

  function Pow(x: real, n: nat): real {
    if n == 0 then 1.0 else x * Pow(x, n - 1)
  }

  /** The weight of the i-th of n scores, oldest first: every later score scales it down. */
  function Weight(alpha: real, n: nat, i: nat): real
    requires i < n
  {
    (if i == 0 then 1.0 else alpha) * Pow(1.0 - alpha, n - 1 - i)
  }

  function Weights(alpha: real, n: nat): seq<real> {
    seq(n, i requires 0 <= i < n => Weight(alpha, n, i))
  }

  function Dot(w: seq<real>, s: seq<real>): real
    requires |w| == |s|
  {
    var n := |s| - 1;
    if n < 0 then 0.0 else Dot(w[..n], s[..n]) + Times(w[n], s[n])
  }

  lemma DotAppend(w: seq<real>, s: seq<real>, x: real, y: real)
    requires |w| == |s|
    ensures Dot(w + [x], s + [y]) == Dot(w, s) + Times(x, y)
  {
    assert (w + [x])[..|s|] == w && (s + [y])[..|s|] == s;
  }

  function Scaled(x: real, s: seq<real>): (r: seq<real>)
    ensures |r| == |s|
  {
    if s == [] then [] else Scaled(x, s[..|s| - 1]) + [Times(x, s[|s| - 1])]
  }

  lemma {:induction false} ScaledAt(x: real, s: seq<real>, i: nat)
    requires i < |s|
    ensures Scaled(x, s)[i] == Times(x, s[i])
  {
    if i < |s| - 1 {
      ScaledAt(x, s[..|s| - 1], i);
    }
  }

  lemma Distribute(x: real, a: real, w: real, s: real)
    ensures Times(x, a) + Times(Times(x, w), s) == Times(x, a + Times(w, s))
  {
    assert (x * w) * s == x * (w * s);
  }

  lemma {:induction false} DotOfScaled(x: real, w: seq<real>, s: seq<real>)
    requires |w| == |s|
    ensures Dot(Scaled(x, w), s) == Times(x, Dot(w, s))
  {
    if s != [] {
      var n := |s| - 1;
      DotOfScaled(x, w[..n], s[..n]);
      DotAppend(Scaled(x, w[..n]), s[..n], Times(x, w[n]), s[n]);
      assert s == s[..n] + [s[n]];
      Distribute(x, Dot(w[..n], s[..n]), w[n], s[n]);
    }
  }

  /** The weights built up one score at a time: each new score scales the earlier weights down. */
  function Decayed(alpha: real, n: nat): (w: seq<real>)
    requires n >= 1
    ensures |w| == n
  {
    if n == 1 then [1.0] else Scaled(1.0 - alpha, Decayed(alpha, n - 1)) + [alpha]
  }

  lemma WeightDecays(alpha: real, n: nat, i: nat)
    requires i < n
    ensures Weight(alpha, n + 1, i) == Times(1.0 - alpha, Weight(alpha, n, i))
  {
    var x, rest := if i == 0 then 1.0 else alpha, 1.0 - alpha;
    var p := Pow(rest, n - 1 - i);
    assert Pow(rest, n - i) == rest * p;
    assert x * (rest * p) == rest * (x * p);
  }

  lemma {:induction false} DecayedAt(alpha: real, n: nat, i: nat)
    requires i < n
    ensures Decayed(alpha, n)[i] == Weight(alpha, n, i)
  {
    if i < n - 1 {
      DecayedAt(alpha, n - 1, i);
      ScaledAt(1.0 - alpha, Decayed(alpha, n - 1), i);
      WeightDecays(alpha, n - 1, i);
    } else {
      assert Pow(1.0 - alpha, 0) == 1.0;
    }
  }

  lemma DotBlends(alpha: real, w: seq<real>, s: seq<real>, last: real, e: real)
    requires |w| == |s| && Dot(w, s) == Times(1.0 - alpha, e)
    ensures Dot(w + [alpha], s + [last]) == Blend(alpha, last, e)
  {
    DotAppend(w, s, alpha, last);
  }

  /** Scaling the weights down and giving the rest to a new score blends it in. */
  lemma ScaledDotBlends(alpha: real, w: seq<real>, scaled: seq<real>, s: seq<real>, last: real)
    requires |w| == |s| && scaled == Scaled(1.0 - alpha, w)
    ensures Dot(scaled + [alpha], s + [last]) == Blend(alpha, last, Dot(w, s))
  {
    DotOfScaled(1.0 - alpha, w, s);
    DotBlends(alpha, scaled, s, last, Dot(w, s));
  }

  lemma FirstDecayed(alpha: real, score: real)
    ensures Dot(Decayed(alpha, 1), [score]) == score
  {
    DotAppend([], [], 1.0, score);
    assert [] + [1.0] == [1.0] && [] + [score] == [score];
  }

  lemma DecayedNext(alpha: real, n: nat)
    requires n >= 1
    ensures Decayed(alpha, n + 1) == Scaled(1.0 - alpha, Decayed(alpha, n)) + [alpha]
  {
  }

  lemma DecayedSumNext(alpha: real, before: seq<real>, last: real)
    requires before != []
    ensures Dot(Decayed(alpha, |before| + 1), before + [last]) == Blend(alpha, last, Dot(Decayed(alpha, |before|), before))
  {
    var w := Decayed(alpha, |before|);
    DecayedNext(alpha, |before|);
    ScaledDotBlends(alpha, w, Scaled(1.0 - alpha, w), before, last);
  }

  lemma {:induction false} EmaIsDecayedSum(alpha: real, scores: seq<real>)
    requires scores != []
    ensures Ema(alpha, scores) == Dot(Decayed(alpha, |scores|), scores)
  {
    if |scores| == 1 {
      FirstDecayed(alpha, scores[0]);
      assert scores == [scores[0]];
    } else {
      var before, last := scores[..|scores| - 1], scores[|scores| - 1];
      assert scores == before + [last];
      EmaIsDecayedSum(alpha, before);
      EmaAppend(alpha, before, last);
      DecayedSumNext(alpha, before, last);
    }
  }

  /** The closed form: the average is the sum of the scores under `Weight`. */
  lemma EmaIsWeightedSum(alpha: real, scores: seq<real>)
    requires scores != []
    ensures Ema(alpha, scores) == Dot(Weights(alpha, |scores|), scores)
  {
    EmaIsDecayedSum(alpha, scores);
    forall i | 0 <= i < |scores| ensures Decayed(alpha, |scores|)[i] == Weights(alpha, |scores|)[i] {
      DecayedAt(alpha, |scores|, i);
    }
    assert Decayed(alpha, |scores|) == Weights(alpha, |scores|);
  }

  lemma {:induction false} PowNonNegative(x: real, n: nat)
    requires x >= 0.0
    ensures Pow(x, n) >= 0.0
  {
    if n > 0 {
      PowNonNegative(x, n - 1);
      Product(x, Pow(x, n - 1));
    }
  }

  /** For alpha in [0, 1] no weight is negative: the closed form is a convex combination. */
  lemma WeightsNonNegative(alpha: real, n: nat, i: nat)
    requires 0.0 <= alpha <= 1.0 && i < n
    ensures Weights(alpha, n)[i] >= 0.0
  {
    PowNonNegative(1.0 - alpha, n - 1 - i);
    Product(if i == 0 then 1.0 else alpha, Pow(1.0 - alpha, n - 1 - i));
  }

  /** The weights of any number of scores add up to one: they average a constant to itself. */
  lemma WeightsSumToOne(alpha: real, n: nat)
    requires n >= 1
    ensures Dot(Weights(alpha, n), seq(n, _ => 1.0)) == 1.0
  {
    var ones, more := seq(n, _ => 1.0), seq(n - 1, _ => 1.0);
    assert ones == [1.0] + more;
    EmaContracts(alpha, [1.0], more, 1.0);
    EmaIsWeightedSum(alpha, ones);
  }

  lemma BlendBetween(alpha: real, a: real, b: real, lo: real, hi: real)
    requires 0.0 <= alpha <= 1.0 && lo <= a <= hi && lo <= b <= hi
    ensures lo <= Blend(alpha, a, b) <= hi
  {
    var beta := 1.0 - alpha;
    Product(alpha, a - lo);
    Product(beta, b - lo);
    Product(alpha, hi - a);
    Product(beta, hi - b);
  }

  /** The average stays between the least and the greatest score. */
  lemma {:induction false} EmaBetween(alpha: real, scores: seq<real>, lo: real, hi: real)
    requires 0.0 <= alpha <= 1.0 && scores != []
    requires forall i | 0 <= i < |scores| :: lo <= scores[i] <= hi
    ensures lo <= Ema(alpha, scores) <= hi
  {
    var n := |scores| - 1;
    if n > 0 {
      EmaBetween(alpha, scores[..n], lo, hi);
      BlendBetween(alpha, scores[n], Ema(alpha, scores[..n]), lo, hi);
    }
  }

  predicate Contracted(e: real, alpha: real, s: real, k: nat, d: real) {
    e - s == Times(Pow(1.0 - alpha, k), d)
  }

  lemma BlendContracts(alpha: real, s: real, e: real, k: nat, d: real)
    requires Contracted(e, alpha, s, k, d)
    ensures Contracted(Blend(alpha, s, e), alpha, s, k + 1, d)
  {
    var p := Pow(1.0 - alpha, k);
    assert Blend(alpha, s, e) - s == (1.0 - alpha) * (e - s);
    assert (1.0 - alpha) * (p * d) == ((1.0 - alpha) * p) * d;
  }

  /** `k` more observations of the same score shrink the distance to it by exactly `(1 - alpha)^k`. */
  lemma {:induction false} EmaContracts(alpha: real, scores: seq<real>, same: seq<real>, s: real)
    requires scores != [] && forall i | 0 <= i < |same| :: same[i] == s
    ensures Contracted(Ema(alpha, scores + same), alpha, s, |same|, Ema(alpha, scores) - s)
  {
    if same == [] {
      assert scores + same == scores;
    } else {
      var rest := same[..|same| - 1];
      EmaContracts(alpha, scores, rest, s);
      BlendContracts(alpha, s, Ema(alpha, scores + rest), |rest|, Ema(alpha, scores) - s);
      EmaAppend(alpha, scores + rest, s);
      assert scores + same == scores + rest + [s];
    }
  }

  predicate Drained(e: real, alpha: real, k: nat) {
    e <= 0.5 + 0.5 * Pow(1.0 - alpha, k)
  }

  lemma BlendDrains(alpha: real, next: real, e: real, k: nat)
    requires 0.0 <= alpha <= 1.0 && next <= 0.5 && Drained(e, alpha, k)
    ensures Drained(Blend(alpha, next, e), alpha, k + 1)
  {
    var rest, p := 1.0 - alpha, Pow(1.0 - alpha, k);
    Product(alpha, 0.5 - next);
    Product(rest, 0.5 + 0.5 * p - e);
    assert rest * (0.5 + 0.5 * p - e) == 0.5 * rest + 0.5 * (rest * p) - rest * e;
    assert alpha * (0.5 - next) == 0.5 * alpha - alpha * next;
  }

  /** After `k` scores of at most a half in a row a score is at most `0.5 + 0.5 (1 - alpha)^k`. */
  lemma {:induction false} FailuresDrainScore(alpha: real, scores: seq<real>, failures: seq<real>)
    requires 0.0 <= alpha <= 1.0 && scores != [] && Ema(alpha, scores) <= 1.0
    requires forall i | 0 <= i < |failures| :: failures[i] <= 0.5
    ensures Drained(Ema(alpha, scores + failures), alpha, |failures|)
  {
    if failures == [] {
      assert scores + failures == scores;
    } else {
      var rest, last := failures[..|failures| - 1], failures[|failures| - 1];
      FailuresDrainScore(alpha, scores, rest);
      BlendDrains(alpha, last, Ema(alpha, scores + rest), |rest|);
      EmaAppend(alpha, scores + rest, last);
      assert scores + failures == scores + rest + [last];
    }
  }

  // ---------- runs of observations ----------

  /** The dictionary after recording a sequence of observations. */
  function Run(alpha: real, timeouts: map<int, real>, obs: seq<Observation>): States {
    if obs == [] then map[]
    else Recorded(Run(alpha, timeouts, obs[..|obs| - 1]), alpha, timeouts, obs[|obs| - 1])
  }

  /** The scores of the observations that concern one miner. */
  function ScoresOf(timeouts: map<int, real>, obs: seq<Observation>, k: Key): seq<real> {
    if obs == [] then []
    else
      var (before, last) := (ScoresOf(timeouts, obs[..|obs| - 1], k), obs[|obs| - 1]);
      if last.Key() == k then before + [ObservationScore(timeouts, last)] else before
  }

  /** However observations of different miners are interleaved, each miner's score is the moving average
      of its own, and so, for non-negative latencies, lies in [0, 1]. */
  lemma {:induction false} QualityIsEma(alpha: real, timeouts: map<int, real>, obs: seq<Observation>, k: Key)
    ensures var scores := ScoresOf(timeouts, obs, k); var states := Run(alpha, timeouts, obs);
      && (k in states <==> scores != [])
      && (k in states ==> states[k].quality == Ema(alpha, scores) && states[k].total == |scores|)
    ensures 0.0 <= alpha <= 1.0 && (forall i | 0 <= i < |obs| :: obs[i].latencyMs >= 0.0) ==>
      forall i | 0 <= i < |ScoresOf(timeouts, obs, k)| :: 0.0 <= ScoresOf(timeouts, obs, k)[i] <= 1.0
  {
    if obs != [] {
      var (rest, last) := (obs[..|obs| - 1], obs[|obs| - 1]);
      QualityIsEma(alpha, timeouts, rest, k);
      var before := ScoresOf(timeouts, rest, k);
      if last.Key() == k {
        assert (before + [ObservationScore(timeouts, last)])[..|before|] == before;
        if last.latencyMs >= 0.0 {
          ObservationScoreRange(timeouts, last);
        }
      }
    }
  }

  /** The observations that concern one miner. */
  function Concerning(obs: seq<Observation>, k: Key): seq<Observation> {
    if obs == [] then []
    else
      var (before, last) := (Concerning(obs[..|obs| - 1], k), obs[|obs| - 1]);
      if last.Key() == k then before + [last] else before
  }

  function LatencyOf(obs: seq<Observation>): real {
    if obs == [] then 0.0 else LatencyOf(obs[..|obs| - 1]) + obs[|obs| - 1].latencyMs
  }

  function SuccessesIn(obs: seq<Observation>): nat {
    if obs == [] then 0 else SuccessesIn(obs[..|obs| - 1]) + if obs[|obs| - 1].success then 1 else 0
  }

  lemma SumsNext(obs: seq<Observation>, o: Observation)
    ensures LatencyOf(obs + [o]) == LatencyOf(obs) + o.latencyMs
    ensures SuccessesIn(obs + [o]) == SuccessesIn(obs) + if o.success then 1 else 0
  {
    assert (obs + [o])[..|obs|] == obs;
  }

  /** Between two flushes a miner's counters are the sums over its own observations; its uid is that of the
      first and its time that of the last of them. */
  lemma {:induction false} CountersAreSums(alpha: real, timeouts: map<int, real>, obs: seq<Observation>, k: Key)
    ensures var own := Concerning(obs, k); var states := Run(alpha, timeouts, obs);
      && (k in states <==> own != [])
      && (k in states ==>
            && states[k].total == |own| && states[k].successful == SuccessesIn(own)
            && states[k].latencySum == LatencyOf(own)
            && states[k].minerUid == own[0].minerUid && states[k].updated == own[|own| - 1].timestamp)
  {
    if obs != [] {
      var rest, last := obs[..|obs| - 1], obs[|obs| - 1];
      CountersAreSums(alpha, timeouts, rest, k);
      if last.Key() == k {
        SumsNext(Concerning(rest, k), last);
      }
    }
  }

  lemma QualityInUnitInterval(alpha: real, timeouts: map<int, real>, obs: seq<Observation>, k: Key)
    requires 0.0 <= alpha <= 1.0 && forall i | 0 <= i < |obs| :: obs[i].latencyMs >= 0.0
    requires k in Run(alpha, timeouts, obs)
    ensures 0.0 <= Run(alpha, timeouts, obs)[k].quality <= 1.0
  {
    QualityIsEma(alpha, timeouts, obs, k);
    EmaBetween(alpha, ScoresOf(timeouts, obs, k), 0.0, 1.0);
  }

  lemma {:induction false} ScoresOfConcat(timeouts: map<int, real>, obs: seq<Observation>, more: seq<Observation>, k: Key)
    ensures ScoresOf(timeouts, obs + more, k) == ScoresOf(timeouts, obs, k) + ScoresOf(timeouts, more, k)
  {
    if more == [] {
      assert obs + more == obs;
    } else {
      var rest := more[..|more| - 1];
      ScoresOfConcat(timeouts, obs, rest, k);
      assert (obs + more)[..|obs + more| - 1] == obs + rest;
    }
  }

  predicate FailsFor(o: Observation, k: Key) {
    o.latencyMs >= 0.0 && (o.Key() == k ==> !o.success)
  }

  lemma {:induction false} FailuresScoreAtMostHalf(timeouts: map<int, real>, more: seq<Observation>, k: Key)
    requires forall i | 0 <= i < |more| :: FailsFor(more[i], k)
    ensures forall i | 0 <= i < |ScoresOf(timeouts, more, k)| :: ScoresOf(timeouts, more, k)[i] <= 0.5
  {
    if more != [] {
      var n := |more| - 1;
      FailuresScoreAtMostHalf(timeouts, more[..n], k);
      assert FailsFor(more[n], k);
      ObservationScoreRange(timeouts, more[n]);
    }
  }

  /** Once a miner only fails, whatever other miners do in between, its stored score drains: after `m`
      failures it is at most `0.5 + 0.5 (1 - alpha)^m`. */
  lemma FailuresDrainQuality(alpha: real, timeouts: map<int, real>, obs: seq<Observation>, more: seq<Observation>, k: Key)
    requires 0.0 <= alpha <= 1.0 && k in Run(alpha, timeouts, obs)
    requires forall i | 0 <= i < |obs| :: obs[i].latencyMs >= 0.0
    requires forall i | 0 <= i < |more| :: FailsFor(more[i], k)
    ensures var states := Run(alpha, timeouts, obs + more); var m := |ScoresOf(timeouts, more, k)|;
      k in states && states[k].quality <= 0.5 + 0.5 * Pow(1.0 - alpha, m)
  {
    var before, failures := ScoresOf(timeouts, obs, k), ScoresOf(timeouts, more, k);
    QualityIsEma(alpha, timeouts, obs, k);
    QualityInUnitInterval(alpha, timeouts, obs, k);
    QualityIsEma(alpha, timeouts, obs + more, k);
    ScoresOfConcat(timeouts, obs, more, k);
    FailuresScoreAtMostHalf(timeouts, more, k);
    FailuresDrainScore(alpha, before, failures);
  }
}
