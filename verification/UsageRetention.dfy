/** Every run in which workers aggregate days, aggregate them again, and delete old records, while requests
    keep being recorded.

    A worker's `run_once` reads yesterday's date, aggregates that day up to `delay` days later, and after
    that commit deletes what is older than `retention` days.  One process runs one such worker at a time
    (`Sequential`); several processes on one database may overlap.  `RecountSafeExactlyWhen` is about one
    process, `OverlapSafeExactlyWhen` about several.
 */
module UsageRetention {
  import opened Options
  import opened UsageAggregation

  datatype Config = Config(retention: nat, delay: real)

  datatype Phase = Aggregating(day: int, begun: real) | Cleaning

  /** `ledger`, `low` and `aggregated` are history: every record ever made, the highest cutoff used so far,
      and the days aggregated at least once. */
  datatype World = World(now: real, records: seq<Record>, summaries: Table, workers: map<nat, Phase>,
                         ledger: seq<Record>, low: real, aggregated: set<int>)

  datatype Event =
    | Tick(elapsed: real)
    | Insert(r: Record)
    | Begin(id: nat)
    | Aggregate(id: nat, lines: seq<Line>)
    | Cleanup(id: nat, cutoff: real)
    | Abort(id: nat)

  ghost predicate Enabled(w: World, e: Event, c: Config) {
    match e
    case Tick(elapsed) => elapsed >= 0.0
    case Insert(r) => r.at == w.now && forall x | x in w.ledger :: SameGroup(x, r)
    case Begin(id) => id !in w.workers
    case Aggregate(id, lines) =>
      && id in w.workers && w.workers[id].Aggregating?
      && w.now <= w.workers[id].begun + c.delay
      && IsGrouping(lines, w.records, w.workers[id].day)
    case Cleanup(id, cutoff) =>
      id in w.workers && w.workers[id].Cleaning? && cutoff <= w.now - c.retention as real
    case Abort(id) => id in w.workers
  }

  ghost function Apply(w: World, e: Event, c: Config): World
    requires Enabled(w, e, c)
  {
    match e
    case Tick(elapsed) => w.(now := w.now + elapsed)
    case Insert(r) => w.(records := w.records + [r], ledger := w.ledger + [r])
    case Begin(id) => w.(workers := w.workers[id := Aggregating(w.now.Floor - 1, w.now)])
    case Aggregate(id, lines) =>
      var day := w.workers[id].day;
      w.(summaries := UpsertAll(w.summaries, lines, day), workers := w.workers[id := Cleaning],
         aggregated := w.aggregated + {day})
    case Cleanup(id, cutoff) =>
      w.(records := Kept(w.records, cutoff), workers := w.workers - {id},
         low := if cutoff > w.low then cutoff else w.low)
    case Abort(id) => w.(workers := w.workers - {id})
  }

  ghost predicate Init(w: World, c: Config) {
    && w.records == w.ledger == [] && w.summaries == map[] && w.workers == map[] && w.aggregated == {}
    && w.low == w.now - c.retention as real
  }

  datatype Run = Run(states: seq<World>, events: seq<Event>)

  ghost predicate StepAt(r: Run, i: nat, c: Config)
    requires i < |r.events| < |r.states|
  {
    Enabled(r.states[i], r.events[i], c) && r.states[i + 1] == Apply(r.states[i], r.events[i], c)
  }

  ghost predicate IsRun(r: Run, c: Config) {
    && |r.states| == |r.events| + 1
    && Init(r.states[0], c)
    && forall i | 0 <= i < |r.events| :: StepAt(r, i, c)
  }

  /** Every summary shows the totals of all records ever made in its slot, deleted or not. */
  ghost predicate Faithful(w: World) {
    forall slot | slot in w.summaries :: Shows(w.summaries, slot, w.ledger)
  }

  /** No worker begins before the previous one has finished or given up. */
  ghost predicate Sequential(r: Run) {
    forall i | 0 <= i < |r.events| < |r.states| && r.events[i].Begin? :: r.states[i].workers == map[]
  }

  /** No summary is ever wrong in any run of one process. */
  ghost predicate RecountSafe(c: Config) {
    forall r: Run, n: nat | IsRun(r, c) && Sequential(r) && n < |r.states| :: Faithful(r.states[n])
  }

  /** No summary is ever wrong in any run of several processes. */
  ghost predicate OverlapSafe(c: Config) {
    forall r: Run, n: nat | IsRun(r, c) && n < |r.states| :: Faithful(r.states[n])
  }

  // ---------- deleting only what is no longer read ----------

  lemma {:induction false} KeptTwice(records: seq<Record>, a: real, b: real)
    ensures Kept(Kept(records, a), b) == Kept(records, if b > a then b else a)
  {
    if records != [] {
      var before, last := records[..|records| - 1], records[|records| - 1];
      KeptTwice(before, a, b);
      if last.at >= a {
        KeptAppend(Kept(before, a), last, b);
      }
    }
  }

  lemma KeptAppend(records: seq<Record>, r: Record, cutoff: real)
    ensures Kept(records + [r], cutoff) == if r.at < cutoff then Kept(records, cutoff) else Kept(records, cutoff) + [r]
  {
    assert (records + [r])[..|records|] == records;
  }

  lemma {:induction false} KeptSubset(records: seq<Record>, cutoff: real)
    ensures forall r :: r in Kept(records, cutoff) <==> r in records && r.at >= cutoff
  {
    KeptRetains(records, cutoff);
    forall r ensures r in Kept(records, cutoff) <==> r in records && r.at >= cutoff {
      assert r in multiset(Kept(records, cutoff)) <==> r in multiset(records) && r.at >= cutoff;
    }
  }

  lemma KeptTotalAppend(before: seq<Record>, last: Record, cutoff: real, q: Query, m: Measure)
    requires Total(Kept(before, cutoff), q, m) == Total(before, q, m) && (Matches(q, last) ==> last.at >= cutoff)
    ensures Total(Kept(before + [last], cutoff), q, m) == Total(before + [last], q, m)
  {
    KeptAppend(before, last, cutoff);
    TotalAppend(before, last, q, m);
    TotalAppend(Kept(before, cutoff), last, q, m);
  }

  /** Totals of a query that only concerns what is kept. */
  lemma {:induction false} KeptTotal(records: seq<Record>, cutoff: real, q: Query, m: Measure)
    requires forall r | r in records && Matches(q, r) :: r.at >= cutoff
    ensures Total(Kept(records, cutoff), q, m) == Total(records, q, m)
  {
    if records != [] {
      var before, last := records[..|records| - 1], records[|records| - 1];
      assert last in records;
      KeptTotal(before, cutoff, q, m);
      KeptTotalAppend(before, last, cutoff, q, m);
      assert records == before + [last];
    }
  }

  lemma KeptTally(records: seq<Record>, cutoff: real, q: Query)
    requires forall r | r in records && Matches(q, r) :: r.at >= cutoff
    ensures Tally(Kept(records, cutoff), q) == Tally(records, q)
  {
    forall m: Measure ensures Total(Kept(records, cutoff), q, m) == Total(records, q, m) {
      KeptTotal(records, cutoff, q, m);
    }
  }

  // ---------- the invariant ----------

  predicate Labelled(w: World, r: Record)
    requires SlotOf(r) in w.summaries
  {
    w.summaries[SlotOf(r)].org == r.org && w.summaries[SlotOf(r)].name == r.name
  }

  predicate PhaseOk(w: World, phase: Phase) {
    phase.Aggregating? ==> phase.day == phase.begun.Floor - 1 && phase.begun <= w.now
  }

  ghost predicate Inv(w: World, c: Config) {
    && w.low <= w.now - c.retention as real
    && w.records == Kept(w.ledger, w.low)
    && (forall r | r in w.ledger :: r.at <= w.now)
    && (forall r, r' | r in w.ledger && r' in w.ledger :: SameGroup(r, r'))
    && (forall id | id in w.workers :: PhaseOk(w, w.workers[id]))
    && (forall day | day in w.aggregated :: day < w.now.Floor)
    && (forall slot | slot in w.summaries :: slot.day in w.aggregated)
  }

  /** Summaries are right, labelled right, and there is one for every record of an aggregated day. */
  ghost predicate Truthful(w: World) {
    && Faithful(w)
    && forall r | r in w.ledger && DayOf(r) in w.aggregated :: SlotOf(r) in w.summaries && Labelled(w, r)
  }

  lemma InvAggregate(w: World, id: nat, lines: seq<Line>, c: Config)
    requires Inv(w, c) && Enabled(w, Aggregate(id, lines), c)
    ensures Inv(Apply(w, Aggregate(id, lines), c), c)
  {
    assert PhaseOk(w, w.workers[id]);
    NewSlotsAreOfTheDay(w.summaries, lines, w.workers[id].day);
  }

  lemma InvInsert(w: World, r: Record, c: Config)
    requires Inv(w, c) && Enabled(w, Insert(r), c)
    ensures Inv(Apply(w, Insert(r), c), c)
  {
    KeptAppend(w.ledger, r, w.low);
    forall x | x in w.ledger ensures SameGroup(r, x) && SameGroup(x, r) {}
  }

  lemma InvStep(w: World, e: Event, c: Config)
    requires Inv(w, c) && Enabled(w, e, c)
    ensures Inv(Apply(w, e, c), c)
  {
    match e {
      case Insert(r) => InvInsert(w, r, c);
      case Cleanup(_, cutoff) => KeptTwice(w.ledger, w.low, cutoff);
      case Aggregate(id, lines) => InvAggregate(w, id, lines, c);
      case _ =>
    }
  }

  lemma {:induction false} NewSlotsAreOfTheDay(rows: Table, lines: seq<Line>, day: int)
    ensures forall slot | slot in UpsertAll(rows, lines, day) :: slot in rows || slot.day == day
  {
    if lines != [] {
      NewSlotsAreOfTheDay(rows, lines[..|lines| - 1], day);
    }
  }

  /** No cutoff has reached the day worker `id` is about to aggregate. */
  predicate Ahead(w: World, id: nat)
    requires id in w.workers && w.workers[id].Aggregating?
  {
    w.low <= w.workers[id].day as real
  }

  /** All records of that day are then still there. */
  lemma TargetIntact(w: World, c: Config, id: nat)
    requires Inv(w, c) && id in w.workers && w.workers[id].Aggregating? && Ahead(w, id)
    ensures forall r | r in w.ledger && DayOf(r) == w.workers[id].day :: r in w.records && r.at >= w.low
  {
    KeptSubset(w.ledger, w.low);
  }

  lemma InsertStaysTruthful(w: World, r: Record, c: Config)
    requires Inv(w, c) && Truthful(w) && Enabled(w, Insert(r), c)
    ensures Truthful(Apply(w, Insert(r), c))
  {
    forall slot | slot in w.summaries ensures Shows(w.summaries, slot, w.ledger + [r]) {
      assert Shows(w.summaries, slot, w.ledger);
      forall m: Measure ensures Total(w.ledger + [r], InSlot(slot), m) == Total(w.ledger, InSlot(slot), m) {
        TotalAppend(w.ledger, r, InSlot(slot), m);
      }
    }
  }

  /** A record of the aggregated day, and the slot it is counted in. */
  lemma AggregateShows(w: World, id: nat, lines: seq<Line>, c: Config, r: Record)
    requires Inv(w, c) && Truthful(w) && Enabled(w, Aggregate(id, lines), c) && Ahead(w, id)
    requires r in w.ledger && DayOf(r) == w.workers[id].day
    ensures var w' := Apply(w, Aggregate(id, lines), c);
      Shows(w'.summaries, SlotOf(r), w.ledger) && Labelled(w', r)
  {
    var day := w.workers[id].day;
    TargetIntact(w, c, id);
    KeptSubset(w.ledger, w.low);
    assert Determined(w.records, day);
    ExactWhenDetermined(w.summaries, lines, w.records, day, r);
    KeptTally(w.ledger, w.low, InSlot(SlotOf(r)));
    assert SlotOf(r) in w.summaries ==> Labelled(w, r);
  }

  lemma AggregateStaysTruthful(w: World, id: nat, lines: seq<Line>, c: Config)
    requires Inv(w, c) && Truthful(w) && Enabled(w, Aggregate(id, lines), c) && Ahead(w, id)
    ensures Truthful(Apply(w, Aggregate(id, lines), c))
  {
    var day := w.workers[id].day;
    var w' := Apply(w, Aggregate(id, lines), c);
    KeptSubset(w.ledger, w.low);
    forall slot | slot in w'.summaries ensures Shows(w'.summaries, slot, w.ledger) {
      if r :| r in w.ledger && DayOf(r) == day && SlotOf(r) == slot {
        AggregateShows(w, id, lines, c, r);
      } else {
        OthersUntouched(w.summaries, lines, w.records, day, slot);
        assert Get(w'.summaries, slot) == Get(w.summaries, slot);
        assert Shows(w.summaries, slot, w.ledger);
      }
    }
    forall r | r in w.ledger && DayOf(r) in w'.aggregated ensures SlotOf(r) in w'.summaries && Labelled(w', r) {
      if DayOf(r) == day {
        AggregateShows(w, id, lines, c, r);
      } else {
        OthersUntouched(w.summaries, lines, w.records, day, SlotOf(r));
        assert Get(w'.summaries, SlotOf(r)) == Get(w.summaries, SlotOf(r));
        assert SlotOf(r) in w.summaries && Labelled(w, r);
      }
    }
  }

  /** Retention long enough for overlapping workers of the given delay. */
  predicate CoversDelay(c: Config) {
    c.delay <= c.retention as real - 2.0
  }

  lemma PromptWorkersAreAhead(w: World, c: Config, id: nat)
    requires CoversDelay(c) && Inv(w, c) && id in w.workers && w.workers[id].Aggregating?
    requires w.now <= w.workers[id].begun + c.delay
    ensures Ahead(w, id)
  {
    assert PhaseOk(w, w.workers[id]);
  }

  /** At most one worker, and no cutoff beyond the retention before it began. */
  ghost predicate Alone(w: World, c: Config) {
    && (forall a, b | a in w.workers && b in w.workers :: a == b)
    && (forall a | a in w.workers && w.workers[a].Aggregating? :: w.low <= w.workers[a].begun - c.retention as real)
  }

  lemma AloneStep(w: World, e: Event, c: Config)
    requires Inv(w, c) && Alone(w, c) && Enabled(w, e, c) && (e.Begin? ==> w.workers == map[])
    ensures Alone(Apply(w, e, c), c)
  {
  }

  lemma {:induction false} AloneThroughout(r: Run, c: Config, n: nat)
    requires IsRun(r, c) && Sequential(r) && n < |r.states|
    ensures Inv(r.states[n], c) && Alone(r.states[n], c)
  {
    if n > 0 {
      AloneThroughout(r, c, n - 1);
      assert StepAt(r, n - 1, c);
      InvStep(r.states[n - 1], r.events[n - 1], c);
      AloneStep(r.states[n - 1], r.events[n - 1], c);
    }
  }

  lemma LoneWorkersAreAhead(w: World, c: Config, id: nat)
    requires c.retention >= 2 && Inv(w, c) && Alone(w, c) && id in w.workers && w.workers[id].Aggregating?
    ensures Ahead(w, id)
  {
    assert PhaseOk(w, w.workers[id]);
  }

  /** Two days for one process however slow, or two more than the delay for several. */
  ghost predicate Retained(r: Run, c: Config) {
    (Sequential(r) && c.retention >= 2) || CoversDelay(c)
  }

  lemma StepStaysTruthful(r: Run, c: Config, n: nat)
    requires IsRun(r, c) && Retained(r, c) && n < |r.events| && Inv(r.states[n], c) && Truthful(r.states[n])
    ensures Truthful(r.states[n + 1])
  {
    assert StepAt(r, n, c);
    var w := r.states[n];
    match r.events[n] {
      case Insert(x) => InsertStaysTruthful(w, x, c);
      case Aggregate(id, lines) =>
        if Sequential(r) && c.retention >= 2 {
          AloneThroughout(r, c, n);
          LoneWorkersAreAhead(w, c, id);
        } else {
          PromptWorkersAreAhead(w, c, id);
        }
        AggregateStaysTruthful(w, id, lines, c);
      case _ =>
    }
  }

  /** With that retention every summary is right at all times, and no record of an aggregated day is missing,
      however often days are aggregated again. */
  lemma {:induction false} SummariesStayTrue(r: Run, c: Config, n: nat)
    requires IsRun(r, c) && Retained(r, c) && n < |r.states|
    ensures Inv(r.states[n], c) && Truthful(r.states[n])
  {
    if n > 0 {
      SummariesStayTrue(r, c, n - 1);
      assert StepAt(r, n - 1, c);
      InvStep(r.states[n - 1], r.events[n - 1], c);
      StepStaysTruthful(r, c, n - 1);
    }
  }

  // ---------- too little retention ----------

  function Visit(at: real): Record {
    Record(0, 0, 0, "", 200, 0, 0, at)
  }

  lemma Extend(r: Run, e: Event, c: Config) returns (r': Run)
    requires IsRun(r, c) && Enabled(r.states[|r.events|], e, c)
    ensures IsRun(r', c) && |r'.events| == |r.events| + 1
    ensures r'.states[|r'.events|] == Apply(r.states[|r.events|], e, c)
    ensures Sequential(r) && (e.Begin? ==> r.states[|r.events|].workers == map[]) ==> Sequential(r')
  {
    r' := Run(r.states + [Apply(r.states[|r.events|], e, c)], r.events + [e]);
    forall i | 0 <= i < |r'.events| ensures StepAt(r', i, c) {
      if i < |r.events| {
        assert StepAt(r, i, c);
      }
    }
  }

  /** Two requests on day 0, and time moves on to `at`. */
  lemma TwoRequests(c: Config, h: real, at: real) returns (r: Run)
    requires 0.0 < h <= at
    ensures IsRun(r, c) && Sequential(r)
    ensures var w := r.states[|r.events|];
      && w.now == at && w.workers == map[] && w.summaries == map[]
      && w.records == w.ledger == [Visit(0.0), Visit(h)]
  {
    r := Run([World(0.0, [], map[], map[], [], 0.0 - c.retention as real, {})], []);
    r := Extend(r, Insert(Visit(0.0)), c);
    r := Extend(r, Tick(h), c);
    r := Extend(r, Insert(Visit(h)), c);
    r := Extend(r, Tick(at - h), c);
  }

  /** The whole of `run_once` by worker `id`, at one instant, deleting up to `cutoff`. */
  lemma WholeRun(r: Run, c: Config, id: nat, cutoff: real) returns (r': Run)
    requires IsRun(r, c) && c.delay >= 0.0
    requires var w := r.states[|r.events|]; id !in w.workers && cutoff <= w.now - c.retention as real
    ensures IsRun(r', c) && (Sequential(r) && r.states[|r.events|].workers == map[] ==> Sequential(r'))
    ensures var (w, w') := (r.states[|r.events|], r'.states[|r'.events|]);
      && w'.now == w.now && w'.workers == w.workers && w'.ledger == w.ledger && w'.records == Kept(w.records, cutoff)
  {
    r' := Extend(r, Begin(id), c);
    var lines := GroupingExists(r'.states[|r'.events|].records, r'.states[|r'.events|].workers[id].day);
    r' := Extend(r', Aggregate(id, lines), c);
    r' := Extend(r', Cleanup(id, cutoff), c);
    assert r'.states[|r'.events|].workers == r.states[|r.events|].workers;
  }

  lemma TwoVisits(h: real)
    requires 0.0 < h <= 0.5
    ensures Kept([Visit(0.0), Visit(h)], h) == [Visit(h)]
    ensures SlotOf(Visit(0.0)) == SlotOf(Visit(h)) == Slot(0, 0, 0)
    ensures Total([Visit(0.0), Visit(h)], InSlot(Slot(0, 0, 0)), Requests) == 2
    ensures Total([Visit(h)], InSlot(Slot(0, 0, 0)), Requests) == 1
  {
    var q := InSlot(Slot(0, 0, 0));
    TotalAppend([], Visit(0.0), q, Requests);
    TotalAppend([Visit(0.0)], Visit(h), q, Requests);
    TotalAppend([], Visit(h), q, Requests);
    assert [Visit(0.0), Visit(h)] == [Visit(0.0)] + [Visit(h)];
    KeptAppend([], Visit(0.0), h);
    KeptAppend([Visit(0.0)], Visit(h), h);
    assert [] + [Visit(0.0)] == [Visit(0.0)] && [] + [Visit(h)] == [Visit(h)];
  }

  /** Aggregating what is left of two requests does not show both. */
  lemma RestIsNotWhole(rows: Table, lines: seq<Line>, h: real)
    requires 0.0 < h <= 0.5 && IsGrouping(lines, [Visit(h)], 0)
    ensures var after := UpsertAll(rows, lines, 0);
      Slot(0, 0, 0) in after && !Shows(after, Slot(0, 0, 0), [Visit(0.0), Visit(h)])
  {
    TwoVisits(h);
    ExactWhenDetermined(rows, lines, [Visit(h)], 0, Visit(h));
  }

  /** A worker whose day has lost the earlier of its two requests overwrites the summary with the rest. */
  lemma SummaryShrinks(r: Run, c: Config, id: nat, h: real) returns (r': Run)
    requires IsRun(r, c) && 0.0 < h <= 0.5
    requires var w := r.states[|r.events|];
      && id in w.workers && w.workers[id].Aggregating? && w.workers[id].day == 0 && w.now <= w.workers[id].begun + c.delay
      && w.ledger == [Visit(0.0), Visit(h)] && w.records == Kept(w.ledger, h)
    ensures IsRun(r', c) && (Sequential(r) ==> Sequential(r')) && !Faithful(r'.states[|r'.events|])
  {
    var w := r.states[|r.events|];
    TwoVisits(h);
    var lines := GroupingExists(w.records, 0);
    RestIsNotWhole(w.summaries, lines, h);
    r' := Extend(r, Aggregate(id, lines), c);
    assert r'.states[|r'.events|].ledger == [Visit(0.0), Visit(h)];
  }

  /** One process with a day's retention: aggregating yesterday a second time, after the first clean-up. */
  lemma SecondRunLoses(c: Config)
    requires c.retention <= 1 && c.delay >= 0.0
    ensures !RecountSafe(c)
  {
    var r := TwoRequests(c, 0.5, 1.5);
    r := WholeRun(r, c, 0, 0.5);
    r := Extend(r, Begin(0), c);
    r := SummaryShrinks(r, c, 0, 0.5);
  }

  /** Aggregating a day again never loses counts, however slow the worker, if and only if records are
      retained for at least two days; the configuration allows one. */
  lemma RecountSafeExactlyWhen(c: Config)
    requires c.delay >= 0.0
    ensures RecountSafe(c) <==> c.retention >= 2
  {
    if c.retention >= 2 {
      forall r: Run, n: nat | IsRun(r, c) && Sequential(r) && n < |r.states| ensures Faithful(r.states[n]) {
        SummariesStayTrue(r, c, n);
      }
    } else {
      SecondRunLoses(c);
    }
  }

  /** Several processes: near the end of day 1 a worker sets out to aggregate day 0, and another one deletes
      the first request meanwhile. */
  lemma OvertakenWorkerLoses(c: Config, h: real, at: real)
    requires 0.0 < h <= 0.5 && at >= 2.0 - h && at - c.retention as real >= h
    requires c.delay >= 0.0 && at <= 2.0 - h + c.delay
    ensures !OverlapSafe(c)
  {
    var r := TwoRequests(c, h, 2.0 - h);
    r := Extend(r, Begin(0), c);
    r := Extend(r, Tick(at - (2.0 - h)), c);
    r := WholeRun(r, c, 1, h);
    r := SummaryShrinks(r, c, 0, h);
  }

  /** With several processes records must be retained two days longer than a worker can take from reading
      the date to aggregating. */
  lemma OverlapSafeExactlyWhen(c: Config)
    requires c.delay >= 0.0
    ensures OverlapSafe(c) <==> c.delay <= c.retention as real - 2.0
  {
    if CoversDelay(c) {
      forall r: Run, n: nat | IsRun(r, c) && n < |r.states| ensures Faithful(r.states[n]) {
        SummariesStayTrue(r, c, n);
      }
    } else {
      var over := c.delay - (c.retention as real - 2.0);
      var h := if over < 1.0 then over / 2.0 else 0.5;
      OvertakenWorkerLoses(c, h, if c.retention as real + h > 2.0 - h then c.retention as real + h else 2.0 - h);
    }
  }
}
