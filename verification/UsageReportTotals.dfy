/** What a report and a quota add up to: the records that were ever made, deleted or not.

    The queries of one report are answered from one state of the database.  `ReportExactExactlyWhen` and
    `QuotaExactExactlyWhen` say when the totals shown are the true ones.
 */
module UsageReportTotals {
  import opened Options
  import opened UsageAggregation
  import opened UsageRetention
  import opened UsageReport

  // ---------- sums over disjoint queries ----------

  function SumOf(qs: seq<Query>, records: seq<Record>, m: Measure): nat {
    if qs == [] then 0 else SumOf(qs[..|qs| - 1], records, m) + Total(records, qs[|qs| - 1], m)
  }

  predicate Hits(qs: seq<Query>, r: Record) {
    exists i :: 0 <= i < |qs| && Matches(qs[i], r)
  }

  ghost predicate Disjoint(qs: seq<Query>) {
    forall i, j, r | 0 <= i < j < |qs| && Matches(qs[i], r) :: !Matches(qs[j], r)
  }

  lemma {:induction false} SumOfNoRecords(qs: seq<Query>, m: Measure)
    ensures SumOf(qs, [], m) == 0
  {
    if qs != [] {
      SumOfNoRecords(qs[..|qs| - 1], m);
    }
  }

  lemma HitsFrontOrLast(qs: seq<Query>, r: Record)
    requires qs != [] && Disjoint(qs)
    ensures var front, last := qs[..|qs| - 1], qs[|qs| - 1];
      && (Hits(qs, r) <==> Hits(front, r) || Matches(last, r))
      && !(Hits(front, r) && Matches(last, r))
  {
    var front := qs[..|qs| - 1];
    if i :| 0 <= i < |qs| && Matches(qs[i], r) {
      assert i < |front| ==> Matches(front[i], r);
    }
    if i :| 0 <= i < |front| && Matches(front[i], r) {
      assert Matches(qs[i], r) && !Matches(qs[|qs| - 1], r);
    }
  }

  lemma {:induction false} SumOfAppend(qs: seq<Query>, records: seq<Record>, r: Record, m: Measure)
    requires Disjoint(qs)
    ensures SumOf(qs, records + [r], m) == SumOf(qs, records, m) + if Hits(qs, r) then Weight(r, m) else 0
  {
    if qs != [] {
      var front, last := qs[..|qs| - 1], qs[|qs| - 1];
      SumOfAppend(front, records, r, m);
      TotalAppend(records, r, last, m);
      HitsFrontOrLast(qs, r);
    }
  }

  ghost predicate Within(qs: seq<Query>, records: seq<Record>, whole: Query) {
    forall r | r in records && Hits(qs, r) :: Matches(whole, r)
  }

  ghost predicate Covers(qs: seq<Query>, records: seq<Record>, whole: Query) {
    forall r | r in records && Matches(whole, r) :: Hits(qs, r)
  }

  /** Disjoint parts of a whole never exceed it, and count all its requests only if they cover it. */
  lemma {:induction false} PartsOfWhole(qs: seq<Query>, records: seq<Record>, whole: Query, m: Measure)
    requires Disjoint(qs) && Within(qs, records, whole)
    ensures SumOf(qs, records, m) <= Total(records, whole, m)
    ensures Covers(qs, records, whole) ==> SumOf(qs, records, m) == Total(records, whole, m)
    ensures m.Requests? && !Covers(qs, records, whole) ==> SumOf(qs, records, m) < Total(records, whole, m)
  {
    if records == [] {
      SumOfNoRecords(qs, m);
    } else {
      var rest, r := records[..|records| - 1], records[|records| - 1];
      assert records == rest + [r];
      PartsOfWhole(qs, rest, whole, m);
      SumOfAppend(qs, rest, r, m);
      TotalAppend(rest, r, whole, m);
      assert Covers(qs, records, whole) <==> Covers(qs, rest, whole) && (Matches(whole, r) ==> Hits(qs, r));
    }
  }

  // ---------- what the queries answer ----------

  /** A summary a query over an organization's subnet reads; `last` is its upper date bound, if it has one. */
  predicate InScope(table: Table, slot: Slot, org: int, netuid: int, name: Option<string>, first: int, last: Option<int>) {
    && slot in table && table[slot].org == org && slot.netuid == netuid && Admits(name, table[slot].name)
    && first <= slot.day && (last.Some? ==> slot.day <= last.value)
  }

  predicate Distinct<T(==)>(s: seq<T>) {
    forall i, j | 0 <= i < j < |s| :: s[i] != s[j]
  }

  ghost predicate Listing(slots: seq<Slot>, table: Table, org: int, netuid: int, name: Option<string>, first: int,
                          last: Option<int>) {
    Distinct(slots) && forall slot :: slot in slots <==> InScope(table, slot, org, netuid, name, first, last)
  }

  function SumSlots(table: Table, slots: seq<Slot>, m: Measure): nat {
    if slots == [] then 0
    else
      var slot := slots[|slots| - 1];
      SumSlots(table, slots[..|slots| - 1], m) + if slot in table then table[slot].counts.Of(m) else 0
  }

  /** `counts` are the column sums SQL computes over the summaries in scope. */
  ghost predicate Sums(counts: Counts, slots: seq<Slot>, table: Table) {
    forall m: Measure :: counts.Of(m) == SumSlots(table, slots, m)
  }

  ghost predicate AnswersSum(counts: Counts, table: Table, org: int, netuid: int, name: Option<string>, first: int,
                             last: Option<int>) {
    exists slots :: Listing(slots, table, org, netuid, name, first, last) && Sums(counts, slots, table)
  }

  predicate RowFor(row: Row, netuid: int, name: string, day: int) {
    row.netuid == netuid && row.name == name && row.day == day
  }

  ghost predicate HasRow(rows: seq<Row>, netuid: int, name: string, day: int) {
    exists i :: 0 <= i < |rows| && RowFor(rows[i], netuid, name, day)
  }

  /** The answer of the summaries query, grouped by subnet, name and date and ordered by date. */
  ghost predicate AnswersPast(rows: seq<Row>, table: Table, org: int, filter: Option<string>, first: int, last: int) {
    && (forall i, j | 0 <= i < j < |rows| :: rows[i].day <= rows[j].day)
    && (forall i, j | 0 <= i < j < |rows| :: !RowFor(rows[j], rows[i].netuid, rows[i].name, rows[i].day))
    && (forall i | 0 <= i < |rows| :: first <= rows[i].day <= last && Admits(filter, rows[i].name))
    && (forall i | 0 <= i < |rows| :: RowSums(rows[i], table, org))
    && (forall slot | slot in table && InScope(table, slot, org, slot.netuid, filter, first, Some(last)) ::
          HasRow(rows, slot.netuid, table[slot].name, slot.day))
  }

  ghost predicate RowSums(row: Row, table: Table, org: int) {
    AnswersSum(row.counts, table, org, row.netuid, Some(row.name), row.day, Some(row.day))
  }

  function LiveQuery(row: Row, org: int): Query {
    OfOrg(org, row.netuid, Some(row.name), row.day, row.day)
  }

  /** The answer of the query over today's records, grouped by subnet and name. */
  ghost predicate AnswersLive(rows: seq<Row>, records: seq<Record>, org: int, filter: Option<string>, today: int) {
    && (forall i, j | 0 <= i < j < |rows| :: !RowFor(rows[j], rows[i].netuid, rows[i].name, today))
    && (forall i | 0 <= i < |rows| :: rows[i].day == today && Admits(filter, rows[i].name))
    && (forall i | 0 <= i < |rows| :: rows[i].counts == Tally(records, LiveQuery(rows[i], org)))
    && (forall r | r in records && r.org == org && Admits(filter, r.name) && DayOf(r) == today ::
          HasRow(rows, r.netuid, r.name, today))
  }

  // ---------- summaries against the ledger ----------

  function SlotQueries(slots: seq<Slot>): (qs: seq<Query>)
    ensures |qs| == |slots| && forall i | 0 <= i < |slots| :: qs[i] == InSlot(slots[i])
  {
    seq(|slots|, i requires 0 <= i < |slots| => InSlot(slots[i]))
  }

  lemma {:induction false} SlotsShowLedger(w: World, slots: seq<Slot>, m: Measure)
    requires Faithful(w) && forall slot | slot in slots :: slot in w.summaries
    ensures SumSlots(w.summaries, slots, m) == SumOf(SlotQueries(slots), w.ledger, m)
  {
    if slots != [] {
      var rest, slot := slots[..|slots| - 1], slots[|slots| - 1];
      SlotsShowLedger(w, rest, m);
      assert SlotQueries(slots)[..|rest|] == SlotQueries(rest);
      assert slot in slots && Shows(w.summaries, slot, w.ledger);
    }
  }

  lemma HitsListed(slots: seq<Slot>, r: Record)
    ensures Hits(SlotQueries(slots), r) <==> SlotOf(r) in slots
  {
    var qs := SlotQueries(slots);
    if SlotOf(r) in slots {
      var i :| 0 <= i < |slots| && slots[i] == SlotOf(r);
      assert Matches(qs[i], r);
    }
  }

  /** Every past record in the scope of a query has a summary. */
  ghost predicate Summarized(w: World, whole: Query) {
    forall r | r in w.ledger && Matches(whole, r) :: SlotOf(r) in w.summaries
  }

  /** The summaries in scope add up to the records ever made in it, if none lacks its summary. */
  lemma SummariesAgainstLedger(w: World, c: Config, slots: seq<Slot>, whole: Query, m: Measure)
    requires Inv(w, c) && Truthful(w) && whole.OfOrg?
    requires Listing(slots, w.summaries, whole.org, whole.netuid, whole.name, whole.first, Some(whole.last))
    ensures Summarized(w, whole) ==> SumSlots(w.summaries, slots, m) == Total(w.ledger, whole, m)
    ensures m.Requests? && !Summarized(w, whole) ==> SumSlots(w.summaries, slots, m) < Total(w.ledger, whole, m)
  {
    var qs := SlotQueries(slots);
    SlotsShowLedger(w, slots, m);
    forall r | r in w.ledger ensures Hits(qs, r) <==> Matches(whole, r) && SlotOf(r) in w.summaries {
      HitsListed(slots, r);
      assert SlotOf(r) in w.summaries ==> Labelled(w, r);
    }
    assert Covers(qs, w.ledger, whole) <==> Summarized(w, whole);
    PartsOfWhole(qs, w.ledger, whole, m);
  }

  // ---------- the rows of one subnet ----------

  predicate InRow(row: Row, slot: Slot, n: int, table: Table, org: int) {
    row.netuid == n && InScope(table, slot, org, n, Some(row.name), row.day, Some(row.day))
  }

  ghost predicate InRows(rows: seq<Row>, slot: Slot, n: int, table: Table, org: int) {
    exists i :: 0 <= i < |rows| && InRow(rows[i], slot, n, table, org)
  }

  lemma InRowsAppend(rows: seq<Row>, row: Row, slot: Slot, n: int, table: Table, org: int)
    ensures InRows(rows + [row], slot, n, table, org) <==> InRows(rows, slot, n, table, org) || InRow(row, slot, n, table, org)
  {
    var all := rows + [row];
    if InRow(row, slot, n, table, org) {
      assert InRow(all[|rows|], slot, n, table, org);
    }
    if InRows(rows, slot, n, table, org) {
      var i :| 0 <= i < |rows| && InRow(rows[i], slot, n, table, org);
      assert InRow(all[i], slot, n, table, org);
    }
  }

  lemma {:induction false} SumSlotsConcat(table: Table, a: seq<Slot>, b: seq<Slot>, m: Measure)
    ensures SumSlots(table, a + b, m) == SumSlots(table, a, m) + SumSlots(table, b, m)
  {
    if b == [] {
      assert a + b == a;
    } else {
      var rest := b[..|b| - 1];
      SumSlotsConcat(table, a, rest, m);
      assert (a + b)[..|a + b| - 1] == a + rest;
    }
  }

  lemma DistinctConcat(a: seq<Slot>, b: seq<Slot>)
    requires Distinct(a) && Distinct(b) && forall x | x in a :: x !in b
    ensures Distinct(a + b)
  {
    forall i, j | 0 <= i < |a| <= j < |a| + |b| ensures (a + b)[i] != (a + b)[j] {
      assert a[i] in a && b[j - |a|] in b;
    }
  }

  lemma SumUsageAppend(usage: seq<Usage>, u: Usage, m: Measure)
    ensures SumUsage(usage + [u]).Of(m) == SumUsage(usage).Of(m) + u.counts.Of(m)
  {
    assert (usage + [u])[..|usage|] == usage;
  }

  ghost predicate SeparateRows(rows: seq<Row>) {
    forall i, j | 0 <= i < j < |rows| :: !RowFor(rows[j], rows[i].netuid, rows[i].name, rows[i].day)
  }

  /** The summaries behind the rows of one subnet, each once. */
  lemma {:induction false} Flatten(rows: seq<Row>, n: int, table: Table, org: int) returns (slots: seq<Slot>)
    requires SeparateRows(rows) && forall i | 0 <= i < |rows| :: RowSums(rows[i], table, org)
    ensures Distinct(slots) && forall slot :: slot in slots <==> InRows(rows, slot, n, table, org)
    ensures forall m: Measure :: SumSlots(table, slots, m) == SumUsage(Entries(rows, n)).Of(m)
  {
    if rows == [] {
      slots := [];
    } else {
      var rest, row := rows[..|rows| - 1], rows[|rows| - 1];
      assert rows == rest + [row];
      var before := Flatten(rest, n, table, org);
      if row.netuid == n {
        slots := FlattenOne(rest, row, n, table, org, before);
      } else {
        slots := before;
        forall slot ensures slot in slots <==> InRows(rows, slot, n, table, org) {
          InRowsAppend(rest, row, slot, n, table, org);
        }
      }
    }
  }

  lemma FlattenOne(rest: seq<Row>, row: Row, n: int, table: Table, org: int, before: seq<Slot>) returns (slots: seq<Slot>)
    requires SeparateRows(rest + [row]) && RowSums(row, table, org) && row.netuid == n
    requires Distinct(before) && forall slot :: slot in before <==> InRows(rest, slot, n, table, org)
    requires forall m: Measure :: SumSlots(table, before, m) == SumUsage(Entries(rest, n)).Of(m)
    ensures Distinct(slots) && forall slot :: slot in slots <==> InRows(rest + [row], slot, n, table, org)
    ensures forall m: Measure :: SumSlots(table, slots, m) == SumUsage(Entries(rest + [row], n)).Of(m)
  {
    var added :| Listing(added, table, org, n, Some(row.name), row.day, Some(row.day)) && Sums(row.counts, added, table);
    slots := before + added;
    forall slot ensures slot in slots <==> InRows(rest + [row], slot, n, table, org) {
      InRowsAppend(rest, row, slot, n, table, org);
    }
    forall slot | slot in before ensures slot !in added {
      var i :| 0 <= i < |rest| && InRow(rest[i], slot, n, table, org);
      var all := rest + [row];
      assert all[i] == rest[i] && all[|rest|] == row;
      assert !RowFor(all[|rest|], all[i].netuid, all[i].name, all[i].day);
    }
    DistinctConcat(before, added);
    forall m: Measure ensures SumSlots(table, slots, m) == SumUsage(Entries(rest + [row], n)).Of(m) {
      SumSlotsConcat(table, before, added, m);
      RowsAppend(rest, row, n);
      SumUsageAppend(Entries(rest, n), Entry(row), m);
    }
  }

  /** What the past rows of one subnet show, against the ledger. */
  lemma PastAgainstLedger(w: World, c: Config, rows: seq<Row>, n: int, org: int, filter: Option<string>, first: int,
                          last: int, m: Measure)
    requires Inv(w, c) && Truthful(w) && AnswersPast(rows, w.summaries, org, filter, first, last)
    ensures var whole := OfOrg(org, n, filter, first, last); var shown := SumUsage(Entries(rows, n)).Of(m);
      && (Summarized(w, whole) ==> shown == Total(w.ledger, whole, m))
      && (m.Requests? && !Summarized(w, whole) ==> shown < Total(w.ledger, whole, m))
  {
    var slots := Flatten(rows, n, w.summaries, org);
    forall slot ensures slot in slots <==> InScope(w.summaries, slot, org, n, filter, first, Some(last)) {
      if slot in slots {
        var i :| 0 <= i < |rows| && InRow(rows[i], slot, n, w.summaries, org);
        assert first <= rows[i].day <= last && Admits(filter, rows[i].name);
      }
      if InScope(w.summaries, slot, org, n, filter, first, Some(last)) {
        assert HasRow(rows, n, w.summaries[slot].name, slot.day);
        var i :| 0 <= i < |rows| && RowFor(rows[i], n, w.summaries[slot].name, slot.day);
        assert InRow(rows[i], slot, n, w.summaries, org);
      }
    }
    SummariesAgainstLedger(w, c, slots, OfOrg(org, n, filter, first, last), m);
  }

  // ---------- today ----------

  function LiveQueries(rows: seq<Row>, n: int, org: int): seq<Query> {
    if rows == [] then []
    else
      var (rest, row) := (LiveQueries(rows[..|rows| - 1], n, org), rows[|rows| - 1]);
      if row.netuid == n then rest + [LiveQuery(row, org)] else rest
  }

  predicate LiveFor(row: Row, n: int, org: int, q: Query) {
    row.netuid == n && q == LiveQuery(row, org)
  }

  /** The queries of one subnet's rows: one each, in order. */
  lemma {:induction false} LiveQueriesFrom(rows: seq<Row>, n: int, org: int) returns (source: seq<nat>)
    ensures var qs := LiveQueries(rows, n, org);
      && |source| == |qs| && (forall k | 0 <= k < |qs| :: source[k] < |rows| && LiveFor(rows[source[k]], n, org, qs[k]))
      && (forall k, l | 0 <= k < l < |qs| :: source[k] < source[l])
    ensures forall i | 0 <= i < |rows| && rows[i].netuid == n :: LiveQuery(rows[i], org) in LiveQueries(rows, n, org)
  {
    source := [];
    if rows != [] {
      var last := |rows| - 1;
      source := LiveQueriesFrom(rows[..last], n, org);
      if rows[last].netuid == n {
        source := source + [last];
      }
      forall i | 0 <= i < last && rows[i].netuid == n
        ensures LiveQuery(rows[i], org) in LiveQueries(rows[..last], n, org)
      {
        assert rows[..last][i] == rows[i];
      }
    }
  }

  lemma {:induction false} LiveSums(rows: seq<Row>, records: seq<Record>, n: int, org: int, m: Measure)
    requires forall i | 0 <= i < |rows| :: rows[i].counts == Tally(records, LiveQuery(rows[i], org))
    ensures SumUsage(Entries(rows, n)).Of(m) == SumOf(LiveQueries(rows, n, org), records, m)
  {
    if rows != [] {
      var rest, row := rows[..|rows| - 1], rows[|rows| - 1];
      LiveSums(rest, records, n, org, m);
      if row.netuid == n {
        var qs := LiveQueries(rest, n, org);
        assert (qs + [LiveQuery(row, org)])[..|qs|] == qs;
        SumUsageAppend(Entries(rest, n), Entry(row), m);
      }
    }
  }

  /** Today's rows of one subnet show exactly today's records. */
  lemma LiveAgainstRecords(rows: seq<Row>, records: seq<Record>, n: int, org: int, filter: Option<string>, today: int,
                           m: Measure)
    requires AnswersLive(rows, records, org, filter, today)
    ensures SumUsage(Entries(rows, n)).Of(m) == Total(records, OfOrg(org, n, filter, today, today), m)
  {
    var qs, whole := LiveQueries(rows, n, org), OfOrg(org, n, filter, today, today);
    var source := LiveQueriesFrom(rows, n, org);
    forall k, l, r | 0 <= k < l < |qs| && Matches(qs[k], r) ensures !Matches(qs[l], r) {
      assert LiveFor(rows[source[k]], n, org, qs[k]) && LiveFor(rows[source[l]], n, org, qs[l]);
      assert !RowFor(rows[source[l]], rows[source[k]].netuid, rows[source[k]].name, today);
    }
    forall r | r in records && Hits(qs, r) ensures Matches(whole, r) {
      var k :| 0 <= k < |qs| && Matches(qs[k], r);
      assert LiveFor(rows[source[k]], n, org, qs[k]);
    }
    forall r | r in records && Matches(whole, r) ensures Hits(qs, r) {
      assert HasRow(rows, n, r.name, today);
      var i :| 0 <= i < |rows| && RowFor(rows[i], n, r.name, today);
      var k :| 0 <= k < |qs| && qs[k] == LiveQuery(rows[i], org);
      assert Matches(qs[k], r);
    }
    LiveSums(rows, records, n, org, m);
    PartsOfWhole(qs, records, whole, m);
  }

  // ---------- the whole report ----------

  /** Splitting a range at today, when nothing is later than today. */
  lemma {:induction false} TotalSplits(records: seq<Record>, org: int, n: int, filter: Option<string>, first: int,
                                       last: int, today: int, m: Measure)
    requires forall r | r in records :: DayOf(r) <= today
    ensures var past := if last < today then last else today - 1;
      Total(records, OfOrg(org, n, filter, first, last), m) ==
        Total(records, OfOrg(org, n, filter, first, past), m)
        + if first <= today <= last then Total(records, OfOrg(org, n, filter, today, today), m) else 0
  {
    if records != [] {
      var rest, r := records[..|records| - 1], records[|records| - 1];
      assert r in records;
      TotalSplits(rest, org, n, filter, first, last, today, m);
    }
  }

  lemma {:induction false} TotalNothing(records: seq<Record>, q: Query, m: Measure)
    requires forall r | r in records :: !Matches(q, r)
    ensures Total(records, q, m) == 0
  {
    if records != [] {
      assert records[|records| - 1] in records;
      TotalNothing(records[..|records| - 1], q, m);
    }
  }

  /** No record of today has been deleted yet. */
  lemma TodayIntact(w: World, c: Config, org: int, n: int, filter: Option<string>, m: Measure)
    requires Inv(w, c) && c.retention >= 1
    ensures var q := OfOrg(org, n, filter, w.now.Floor, w.now.Floor); Total(w.records, q, m) == Total(w.ledger, q, m)
  {
    KeptTotal(w.ledger, w.low, OfOrg(org, n, filter, w.now.Floor, w.now.Floor), m);
  }

  lemma {:induction false} EntriesConcat(a: seq<Row>, b: seq<Row>, n: int, m: Measure)
    ensures SumUsage(Entries(a + b, n)).Of(m) == SumUsage(Entries(a, n)).Of(m) + SumUsage(Entries(b, n)).Of(m)
  {
    if b == [] {
      assert a + b == a;
    } else {
      var rest, row := b[..|b| - 1], b[|b| - 1];
      assert a + b == a + rest + [row] && b == rest + [row];
      EntriesConcat(a, rest, n, m);
      RowsAppend(a + rest, row, n);
      RowsAppend(rest, row, n);
      SumUsageAppend(Entries(a + rest, n), Entry(row), m);
      SumUsageAppend(Entries(rest, n), Entry(row), m);
    }
  }

  /** What a report shows for one subnet, over all its lines. */
  function Shown(subnets: seq<Subnet>, n: int, m: Measure): nat {
    if subnets == [] then 0
    else
      var s := subnets[|subnets| - 1];
      Shown(subnets[..|subnets| - 1], n, m) + if s.netuid == n then SumUsage(s.usage).Of(m) else 0
  }

  lemma {:induction false} ShownNever(subnets: seq<Subnet>, n: int, m: Measure)
    requires forall i | 0 <= i < |subnets| :: subnets[i].netuid != n
    ensures Shown(subnets, n, m) == 0
  {
    if subnets != [] {
      ShownNever(subnets[..|subnets| - 1], n, m);
    }
  }

  lemma {:induction false} ShownOnce(subnets: seq<Subnet>, i: nat, m: Measure)
    requires forall i, j | 0 <= i < j < |subnets| :: subnets[i].netuid < subnets[j].netuid
    requires i < |subnets|
    ensures Shown(subnets, subnets[i].netuid, m) == SumUsage(subnets[i].usage).Of(m)
  {
    var last := |subnets| - 1;
    if i == last {
      ShownNever(subnets[..last], subnets[i].netuid, m);
    } else {
      ShownOnce(subnets[..last], i, m);
    }
  }

  /** By day or by month, a report shows the sum of its rows. */
  lemma ReportShowsRows(subnets: seq<Subnet>, rows: seq<Row>, monthly: bool, calendar: int -> int, n: int, m: Measure)
    requires IsReport(subnets, rows, monthly, calendar)
    ensures Shown(subnets, n, m) == SumUsage(Entries(rows, n)).Of(m)
  {
    if Reported(subnets, n) {
      var i :| 0 <= i < |subnets| && subnets[i].netuid == n;
      assert ReportsOn(subnets[i], rows, monthly, calendar);
      ShownOnce(subnets, i, m);
      if monthly {
        MonthlyConserves(subnets[i].usage, Entries(rows, n), calendar, m);
      }
    } else {
      ShownNever(subnets, n, m);
      NoRowsNoEntries(rows, n, subnets);
    }
  }

  lemma {:induction false} NoRowsNoEntries(rows: seq<Row>, n: int, subnets: seq<Subnet>)
    requires (forall row | row in rows :: Reported(subnets, row.netuid)) && !Reported(subnets, n)
    ensures Entries(rows, n) == []
  {
    if rows != [] {
      assert rows[|rows| - 1] in rows;
      NoRowsNoEntries(rows[..|rows| - 1], n, subnets);
    }
  }

  function PastEnd(today: int, last: int): int {
    if last < today then last else today - 1
  }

  /** What the past rows of a report show of a subnet, against the ledger. */
  lemma PastRowsAgainstLedger(w: World, c: Config, org: int, filter: Option<string>, first: int, last: int,
                              past: seq<Row>, n: int, m: Measure)
    requires Inv(w, c) && Truthful(w)
    requires AnswersPast(past, w.summaries, org, filter, first, PastEnd(w.now.Floor, last))
    ensures var shown := SumUsage(Entries(PastRows(w.now.Floor, first, last, past), n)).Of(m);
      var whole := OfOrg(org, n, filter, first, PastEnd(w.now.Floor, last));
      && (Summarized(w, whole) ==> shown == Total(w.ledger, whole, m))
      && (m.Requests? && !Summarized(w, whole) ==> shown < Total(w.ledger, whole, m))
  {
    if first <= PastEnd(w.now.Floor, last) {
      PastAgainstLedger(w, c, past, n, org, filter, first, PastEnd(w.now.Floor, last), m);
    } else {
      TotalNothing(w.ledger, OfOrg(org, n, filter, first, PastEnd(w.now.Floor, last)), m);
    }
  }

  /** And what its live rows show. */
  lemma LiveRowsAgainstLedger(w: World, c: Config, org: int, filter: Option<string>, first: int, last: int,
                              live: seq<Row>, n: int, m: Measure)
    requires Inv(w, c) && c.retention >= 1 && AnswersLive(live, w.records, org, filter, w.now.Floor)
    ensures SumUsage(Entries(LiveRows(w.now.Floor, first, last, live), n)).Of(m) ==
      if first <= w.now.Floor <= last then Total(w.ledger, OfOrg(org, n, filter, w.now.Floor, w.now.Floor), m) else 0
  {
    LiveAgainstRecords(live, w.records, n, org, filter, w.now.Floor, m);
    TodayIntact(w, c, org, n, filter, m);
  }

  /** One subnet of a report: exact when its past is summarized, and short of requests when it is not. */
  lemma SubnetAgainstLedger(w: World, c: Config, org: int, filter: Option<string>, first: int, last: int,
                            past: seq<Row>, live: seq<Row>, n: int, m: Measure)
    requires Inv(w, c) && Truthful(w) && c.retention >= 1
    requires AnswersPast(past, w.summaries, org, filter, first, PastEnd(w.now.Floor, last))
    requires AnswersLive(live, w.records, org, filter, w.now.Floor)
    ensures var shown := SumUsage(Entries(Consulted(w.now.Floor, first, last, past, live), n)).Of(m);
      var total := Total(w.ledger, OfOrg(org, n, filter, first, last), m);
      var summarized := Summarized(w, OfOrg(org, n, filter, first, PastEnd(w.now.Floor, last)));
      && (summarized ==> shown == total)
      && (m.Requests? && !summarized ==> shown < total)
  {
    var today := w.now.Floor;
    PastRowsAgainstLedger(w, c, org, filter, first, last, past, n, m);
    LiveRowsAgainstLedger(w, c, org, filter, first, last, live, n, m);
    EntriesConcat(PastRows(today, first, last, past), LiveRows(today, first, last, live), n, m);
    TotalSplits(w.ledger, org, n, filter, first, last, today, m);
  }

  predicate Chronological(usage: seq<Usage>) {
    && (forall i | 0 <= i < |usage| :: usage[i].period.Daily?)
    && forall i, j | 0 <= i < j < |usage| :: usage[i].period.day <= usage[j].period.day
  }

  lemma {:induction false} EntriesInOrder(rows: seq<Row>, n: int)
    requires forall i, j | 0 <= i < j < |rows| :: rows[i].day <= rows[j].day
    ensures Chronological(Entries(rows, n))
    ensures rows != [] ==> forall u | u in Entries(rows, n) :: u.period.day <= rows[|rows| - 1].day
  {
    if rows != [] {
      EntriesInOrder(rows[..|rows| - 1], n);
    }
  }

  /** Daily entries run from the first summarized day to today, today's only from live records. */
  lemma DailyReportIsChronological(w: World, org: int, filter: Option<string>, first: int, last: int,
                                   past: seq<Row>, live: seq<Row>, n: int)
    requires AnswersPast(past, w.summaries, org, filter, first, PastEnd(w.now.Floor, last))
    requires AnswersLive(live, w.records, org, filter, w.now.Floor)
    ensures var usage := Entries(Consulted(w.now.Floor, first, last, past, live), n);
      && Chronological(usage)
      && (forall u | u in usage :: first <= u.period.day <= last)
      && (forall row | row in past :: row.day < w.now.Floor)
  {
    var rows := Consulted(w.now.Floor, first, last, past, live);
    EntriesInOrder(rows, n);
    EntriesWithin(rows, n, first, last);
  }

  lemma {:induction false} EntriesWithin(rows: seq<Row>, n: int, first: int, last: int)
    requires forall i | 0 <= i < |rows| :: first <= rows[i].day <= last
    ensures forall u | u in Entries(rows, n) :: u.period.Daily? && first <= u.period.day <= last
  {
    if rows != [] {
      EntriesWithin(rows[..|rows| - 1], n, first, last);
    }
  }

  /** The totals of the report are the true totals. */
  ghost predicate ReportExact(w: World, subnets: seq<Subnet>, org: int, filter: Option<string>, first: int, last: int) {
    forall n, m: Measure :: Shown(subnets, n, m) == Total(w.ledger, OfOrg(org, n, filter, first, last), m)
  }

  ghost predicate AllSummarized(w: World, org: int, filter: Option<string>, first: int, last: int) {
    forall n :: Summarized(w, OfOrg(org, n, filter, first, last))
  }

  /** A report, by day or by month, shows the true totals of every subnet if and only if each past record in
      its range has been aggregated; deleted records count like the others. */
  lemma ReportExactExactlyWhen(w: World, c: Config, org: int, filter: Option<string>, first: int, last: int,
                               past: seq<Row>, live: seq<Row>, subnets: seq<Subnet>, monthly: bool, calendar: int -> int)
    requires Inv(w, c) && Truthful(w) && c.retention >= 1
    requires AnswersPast(past, w.summaries, org, filter, first, PastEnd(w.now.Floor, last))
    requires AnswersLive(live, w.records, org, filter, w.now.Floor)
    requires IsReport(subnets, Consulted(w.now.Floor, first, last, past, live), monthly, calendar)
    ensures ReportExact(w, subnets, org, filter, first, last)
      <==> AllSummarized(w, org, filter, first, PastEnd(w.now.Floor, last))
  {
    var rows := Consulted(w.now.Floor, first, last, past, live);
    forall n, m: Measure
      ensures Shown(subnets, n, m) == SumUsage(Entries(rows, n)).Of(m)
    {
      ReportShowsRows(subnets, rows, monthly, calendar, n, m);
    }
    if AllSummarized(w, org, filter, first, PastEnd(w.now.Floor, last)) {
      forall n, m: Measure ensures Shown(subnets, n, m) == Total(w.ledger, OfOrg(org, n, filter, first, last), m) {
        SubnetAgainstLedger(w, c, org, filter, first, last, past, live, n, m);
      }
    } else {
      var n :| !Summarized(w, OfOrg(org, n, filter, first, PastEnd(w.now.Floor, last)));
      SubnetAgainstLedger(w, c, org, filter, first, last, past, live, n, Requests);
      assert Shown(subnets, n, Requests) != Total(w.ledger, OfOrg(org, n, filter, first, last), Requests);
    }
  }

  lemma AggregatedIsSummarized(w: World, c: Config, org: int, filter: Option<string>, first: int, last: int)
    requires Inv(w, c) && Truthful(w) && forall day | first <= day <= last :: day in w.aggregated
    ensures AllSummarized(w, org, filter, first, last)
  {
  }

  /** Step `i` of the run commits an aggregation of `day`. */
  predicate AggregatesAt(r: Run, i: nat, day: int)
    requires i < |r.events| < |r.states|
  {
    var (w, e) := (r.states[i], r.events[i]);
    e.Aggregate? && e.id in w.workers && w.workers[e.id].Aggregating? && w.workers[e.id].day == day
  }

  ghost predicate AggregatedBefore(r: Run, n: nat, day: int)
    requires n <= |r.events| < |r.states|
  {
    exists i: nat :: i < n && AggregatesAt(r, i, day)
  }

  lemma {:induction false} AggregationIsRemembered(r: Run, c: Config, i: nat, n: nat, day: int)
    requires IsRun(r, c) && i < n <= |r.events| && AggregatesAt(r, i, day)
    ensures day in r.states[n].aggregated
    decreases n
  {
    assert StepAt(r, n - 1, c);
    if i < n - 1 {
      AggregationIsRemembered(r, c, i, n - 1, day);
    }
  }

  /** From the day's aggregation on, whatever is aggregated again or deleted later, reports over aggregated
      days show the true totals. */
  lemma ReportTrueOnceAggregated(r: Run, c: Config, n: nat, org: int, filter: Option<string>, first: int, last: int,
                                 past: seq<Row>, live: seq<Row>, subnets: seq<Subnet>, monthly: bool, calendar: int -> int)
    requires IsRun(r, c) && Retained(r, c) && c.delay >= 0.0 && n <= |r.events|
    requires var w := r.states[n]; var end := PastEnd(w.now.Floor, last);
      && (forall day | first <= day <= end :: AggregatedBefore(r, n, day))
      && AnswersPast(past, w.summaries, org, filter, first, end)
      && AnswersLive(live, w.records, org, filter, w.now.Floor)
      && IsReport(subnets, Consulted(w.now.Floor, first, last, past, live), monthly, calendar)
    ensures ReportExact(r.states[n], subnets, org, filter, first, last)
  {
    var w := r.states[n];
    SummariesStayTrue(r, c, n);
    forall day | first <= day <= PastEnd(w.now.Floor, last) ensures day in w.aggregated {
      assert AggregatedBefore(r, n, day);
      var i: nat :| i < n && AggregatesAt(r, i, day);
      AggregationIsRemembered(r, c, i, n, day);
    }
    AggregatedIsSummarized(w, c, org, filter, first, PastEnd(w.now.Floor, last));
    ReportExactExactlyWhen(w, c, org, filter, first, last, past, live, subnets, monthly, calendar);
  }

  // ---------- quotas ----------

  /** The answer of the month's summaries query, which has no upper date bound. */
  ghost predicate AnswersMonth(summarized: map<int, nat>, table: Table, org: int, monthStart: int) {
    forall n :: AnswersMonthFor(summarized, table, org, monthStart, n)
  }

  ghost predicate AnswersMonthFor(summarized: map<int, nat>, table: Table, org: int, monthStart: int, n: int) {
    exists slots :: Listing(slots, table, org, n, None, monthStart, None) &&
      (if n in summarized then summarized[n] else 0) == SumSlots(table, slots, Requests)
  }

  /** The answer of the query over today's records: one row per subnet that has any, with their number. */
  ghost predicate AnswersToday(live: seq<Count>, records: seq<Record>, org: int, today: int) {
    && OneRowEach(live)
    && (forall row | row in live :: row.total == Total(records, OfOrg(org, row.netuid, None, today, today), Requests))
    && (forall r | r in records && r.org == org && DayOf(r) == today :: Mentions(live, r.netuid))
  }

  lemma TodayIsCharged(summarized: map<int, nat>, live: seq<Count>, records: seq<Record>, org: int, today: int, n: int)
    requires AnswersToday(live, records, org, today)
    ensures Used(summarized, live, n) ==
      (if n in summarized then summarized[n] else 0) + Total(records, OfOrg(org, n, None, today, today), Requests)
  {
    if Mentions(live, n) {
      var i :| 0 <= i < |live| && live[i].netuid == n;
      assert live[i] in live;
      RowCharges(summarized, live, n, live[i].total);
    } else {
      RowCharges(summarized, live, n, 0);
      if Total(records, OfOrg(org, n, None, today, today), Requests) >= 1 {
        var r := Member(records, OfOrg(org, n, None, today, today));
      }
    }
  }

  /** The usage a quota is charged with is the month's true number of requests if and only if every past
      record of the month has been aggregated.  Today is never counted twice. */
  lemma QuotaExactExactlyWhen(w: World, c: Config, org: int, monthStart: int, summarized: map<int, nat>,
                              live: seq<Count>, n: int)
    requires Inv(w, c) && Truthful(w) && c.retention >= 1 && monthStart <= w.now.Floor
    requires AnswersMonth(summarized, w.summaries, org, monthStart)
    requires AnswersToday(live, w.records, org, w.now.Floor)
    ensures Used(summarized, live, n) == Total(w.ledger, OfOrg(org, n, None, monthStart, w.now.Floor), Requests)
      <==> Summarized(w, OfOrg(org, n, None, monthStart, w.now.Floor - 1))
  {
    var today := w.now.Floor;
    assert AnswersMonthFor(summarized, w.summaries, org, monthStart, n);
    var slots :| Listing(slots, w.summaries, org, n, None, monthStart, None) &&
      (if n in summarized then summarized[n] else 0) == SumSlots(w.summaries, slots, Requests);
    forall slot ensures InScope(w.summaries, slot, org, n, None, monthStart, None)
      <==> InScope(w.summaries, slot, org, n, None, monthStart, Some(today - 1)) {}
    SummariesAgainstLedger(w, c, slots, OfOrg(org, n, None, monthStart, today - 1), Requests);
    TodayIsCharged(summarized, live, w.records, org, today, n);
    TodayIntact(w, c, org, n, None, Requests);
    TotalSplits(w.ledger, org, n, None, monthStart, today, today, Requests);
  }
}
