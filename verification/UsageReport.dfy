/** Usage reports: query results gathered per subnet, folded into months, and measured against quotas.

    What the queries answered comes in as parameters; UsageReportTotals says what those answers add up to.
 */
module UsageReport {
  import opened Options
  import opened UsageAggregation

  datatype Period = Daily(day: int) | Monthly(month: int)

  datatype Latency = Latency(p50: int, p95: int, p99: int)

  datatype Usage = Usage(period: Period, counts: Counts, latency: Latency)

  datatype Subnet = Subnet(name: string, netuid: int, usage: seq<Usage>)

  /** One row a report query returns. */
  datatype Row = Row(netuid: int, name: string, day: int, counts: Counts, latency: Latency)

  const NO_COUNTS := Counts(0, 0, 0, 0, 0)

  function Add(a: Counts, b: Counts): (c: Counts)
    ensures forall m :: c.Of(m) == a.Of(m) + b.Of(m)
  {
    Counts(a.requests + b.requests, a.successes + b.successes, a.errors + b.errors,
           a.prompt + b.prompt, a.completion + b.completion)
  }

  function Max(x: int, y: int): int {
    if x >= y then x else y
  }

  function Higher(a: Latency, b: Latency): Latency {
    Latency(Max(a.p50, b.p50), Max(a.p95, b.p95), Max(a.p99, b.p99))
  }

  // ---------- sorted keys ----------

  ghost predicate Increasing(s: seq<int>) {
    forall i, j | 0 <= i < j < |s| :: s[i] < s[j]
  }

  predicate Least(x: int, s: set<int>) {
    x in s && forall y | y in s :: x <= y
  }

  lemma {:induction false} LeastExists(s: set<int>)
    requires s != {}
    ensures exists x :: Least(x, s)
  {
    SomeMember(s);
    var x :| x in s;
    if s == {x} {
      assert Least(x, s);
    } else {
      LeastExists(s - {x});
      var rest :| Least(rest, s - {x});
      var least := if x < rest then x else rest;
      forall y | y in s ensures least <= y {
        assert y == x || y in s - {x};
      }
      assert Least(least, s);
    }
  }

  function LeastOf(s: set<int>): (x: int)
    requires s != {}
    ensures Least(x, s)
  {
    LeastExists(s);
    var x :| Least(x, s);
    x
  }

  function Sorted(s: set<int>): (r: seq<int>)
    ensures Increasing(r) && forall x :: x in r <==> x in s
  {
    if s == {} then [] else [LeastOf(s)] + Sorted(s - {LeastOf(s)})
  }

  // ---------- months ----------

  function SumUsage(usage: seq<Usage>): (c: Counts)
  {
    if usage == [] then NO_COUNTS else Add(SumUsage(usage[..|usage| - 1]), usage[|usage| - 1].counts)
  }

  /** The highest of each percentile, starting from zero. */
  function Peak(usage: seq<Usage>): (p: Latency)
    ensures forall u | u in usage :: u.latency.p50 <= p.p50 && u.latency.p95 <= p.p95 && u.latency.p99 <= p.p99
  {
    if usage == [] then Latency(0, 0, 0)
    else
      var n := |usage| - 1;
      assert usage == usage[..n] + [usage[n]];
      Higher(Peak(usage[..n]), usage[n].latency)
  }

  function MonthOf(u: Usage, calendar: int -> int): int {
    match u.period
    case Daily(day) => calendar(day)
    case Monthly(month) => month
  }

  function InMonth(usage: seq<Usage>, calendar: int -> int, month: int): seq<Usage> {
    if usage == [] then []
    else
      var (rest, u) := (InMonth(usage[..|usage| - 1], calendar, month), usage[|usage| - 1]);
      if MonthOf(u, calendar) == month then rest + [u] else rest
  }

  /** A month takes every entry of its own days and no other, as often as there are. */
  lemma {:induction false} MonthHoldsItsDays(usage: seq<Usage>, calendar: int -> int, month: int, u: Usage)
    requires u.period.Daily?
    ensures multiset(InMonth(usage, calendar, month))[u] == if calendar(u.period.day) == month then multiset(usage)[u] else 0
  {
    if usage != [] {
      var rest, last := usage[..|usage| - 1], usage[|usage| - 1];
      assert usage == rest + [last];
      MonthHoldsItsDays(rest, calendar, month, u);
      InMonthAppend(rest, last, calendar, month);
    }
  }

  /** A month's entry: the sums, and the highest daily percentiles, of its days. */
  function Folded(usage: seq<Usage>, calendar: int -> int, month: int): Usage {
    var days := InMonth(usage, calendar, month);
    Usage(Monthly(month), SumUsage(days), Peak(days))
  }

  /** The buckets hold every month with entries, folded. */
  ghost predicate Buckets(monthly: map<int, Usage>, usage: seq<Usage>, calendar: int -> int) {
    forall k :: BucketOk(monthly, usage, calendar, k)
  }

  predicate BucketOk(monthly: map<int, Usage>, usage: seq<Usage>, calendar: int -> int, k: int) {
    && (k in monthly <==> InMonth(usage, calendar, k) != [])
    && (k in monthly ==> monthly[k] == Folded(usage, calendar, k))
  }

  function Put(monthly: map<int, Usage>, key: int, u: Usage): map<int, Usage> {
    var m := if key in monthly then monthly[key] else Usage(Monthly(key), NO_COUNTS, Latency(0, 0, 0));
    monthly[key := Usage(m.period, Add(m.counts, u.counts), Higher(m.latency, u.latency))]
  }

  lemma InMonthAppend(usage: seq<Usage>, u: Usage, calendar: int -> int, month: int)
    ensures var days := InMonth(usage, calendar, month);
      InMonth(usage + [u], calendar, month) == if MonthOf(u, calendar) == month then days + [u] else days
  {
    assert (usage + [u])[..|usage|] == usage;
  }

  lemma SumPeakAppend(days: seq<Usage>, u: Usage)
    ensures SumUsage(days + [u]) == Add(SumUsage(days), u.counts)
    ensures Peak(days + [u]) == Higher(Peak(days), u.latency)
  {
    assert (days + [u])[..|days|] == days;
  }

  lemma PutKeepsBuckets(monthly: map<int, Usage>, usage: seq<Usage>, u: Usage, calendar: int -> int)
    requires Buckets(monthly, usage, calendar)
    ensures Buckets(Put(monthly, MonthOf(u, calendar), u), usage + [u], calendar)
  {
    var key := MonthOf(u, calendar);
    forall k ensures BucketOk(Put(monthly, key, u), usage + [u], calendar, k) {
      assert BucketOk(monthly, usage, calendar, k);
      InMonthAppend(usage, u, calendar, k);
      SumPeakAppend(InMonth(usage, calendar, k), u);
    }
  }

  /** `months` is the monthly view of `usage`: each month with entries once, in order. */
  ghost predicate IsMonthly(months: seq<Usage>, usage: seq<Usage>, calendar: int -> int) {
    && (forall i | 0 <= i < |months| :: months[i].period.Monthly?)
    && (forall i | 0 <= i < |months| :: months[i] == Folded(usage, calendar, months[i].period.month))
    && (forall i, j | 0 <= i < j < |months| :: months[i].period.month < months[j].period.month)
    && (forall i | 0 <= i < |months| :: InMonth(usage, calendar, months[i].period.month) != [])
    && (forall u | u in usage :: HasMonth(months, MonthOf(u, calendar)))
  }

  ghost predicate HasMonth(months: seq<Usage>, month: int) {
    exists i :: 0 <= i < |months| && months[i].period == Monthly(month)
  }

  lemma {:induction false} InMonthNonEmpty(usage: seq<Usage>, calendar: int -> int, u: Usage)
    requires u in usage
    ensures InMonth(usage, calendar, MonthOf(u, calendar)) != []
  {
    var n := |usage| - 1;
    if usage[n] != u {
      assert usage == usage[..n] + [usage[n]];
      InMonthNonEmpty(usage[..n], calendar, u);
    }
  }

  /** Reading the buckets in the order of their months. */
  lemma InOrder(months: seq<Usage>, keys: seq<int>, monthly: map<int, Usage>, usage: seq<Usage>, calendar: int -> int)
    requires Buckets(monthly, usage, calendar) && Increasing(keys) && (forall k :: k in keys <==> k in monthly)
    requires |months| == |keys| && forall i | 0 <= i < |keys| :: keys[i] in monthly && months[i] == monthly[keys[i]]
    ensures IsMonthly(months, usage, calendar)
  {
    forall i | 0 <= i < |keys| ensures BucketOk(monthly, usage, calendar, keys[i]) {}
    forall u | u in usage ensures HasMonth(months, MonthOf(u, calendar)) {
      var k := MonthOf(u, calendar);
      InMonthNonEmpty(usage, calendar, u);
      assert BucketOk(monthly, usage, calendar, k);
      var i :| 0 <= i < |keys| && keys[i] == k;
      assert months[i].period == Monthly(k);
    }
  }

  /** `calendar` gives the month of a day. */
  method AggregateToMonthly(usage: seq<Usage>, calendar: int -> int) returns (months: seq<Usage>)
    ensures IsMonthly(months, usage, calendar)
  {
    var monthly: map<int, Usage> := map[];
    var i := 0;
    while i < |usage|
      invariant 0 <= i <= |usage| && Buckets(monthly, usage[..i], calendar)
    {
      var s := usage[i];
      PutKeepsBuckets(monthly, usage[..i], s, calendar);
      assert usage[..i] + [s] == usage[..i + 1];
      var monthKey := MonthOf(s, calendar);
      ghost var before := monthly;
      if monthKey !in monthly {
        monthly := monthly[monthKey := Usage(Monthly(monthKey), NO_COUNTS, Latency(0, 0, 0))];
      }
      var m := monthly[monthKey];
      monthly := monthly[monthKey := Usage(m.period, Add(m.counts, s.counts), Higher(m.latency, s.latency))];
      assert monthly == Put(before, monthKey, s);
      i := i + 1;
    }
    assert usage[..|usage|] == usage;
    var keys := Sorted(monthly.Keys);
    assert forall k :: k in keys <==> k in monthly;
    months := seq(|keys|, j requires 0 <= j < |keys| && keys[j] in monthly => monthly[keys[j]]);
    InOrder(months, keys, monthly, usage, calendar);
  }

  /** The sum over `keys` of what falls into each month. */
  function SumOfMonths(keys: seq<int>, usage: seq<Usage>, calendar: int -> int, m: Measure): nat {
    if keys == [] then 0
    else
      SumOfMonths(keys[..|keys| - 1], usage, calendar, m) + SumUsage(InMonth(usage, calendar, keys[|keys| - 1])).Of(m)
  }

  lemma MonthSumAppend(usage: seq<Usage>, u: Usage, calendar: int -> int, k: int, m: Measure)
    ensures SumUsage(InMonth(usage + [u], calendar, k)).Of(m) ==
      SumUsage(InMonth(usage, calendar, k)).Of(m) + if MonthOf(u, calendar) == k then u.counts.Of(m) else 0
  {
    InMonthAppend(usage, u, calendar, k);
    SumPeakAppend(InMonth(usage, calendar, k), u);
  }

  lemma {:induction false} SumOfMonthsAppend(keys: seq<int>, usage: seq<Usage>, u: Usage, calendar: int -> int, m: Measure)
    requires Increasing(keys)
    ensures SumOfMonths(keys, usage + [u], calendar, m) ==
      SumOfMonths(keys, usage, calendar, m) + if MonthOf(u, calendar) in keys then u.counts.Of(m) else 0
  {
    if keys != [] {
      var rest, k := keys[..|keys| - 1], keys[|keys| - 1];
      SumOfMonthsAppend(rest, usage, u, calendar, m);
      MonthSumAppend(usage, u, calendar, k, m);
      assert keys == rest + [k] && k !in rest;
    }
  }

  lemma {:induction false} SumOfNothing(keys: seq<int>, calendar: int -> int, m: Measure)
    ensures SumOfMonths(keys, [], calendar, m) == 0
  {
    if keys != [] {
      SumOfNothing(keys[..|keys| - 1], calendar, m);
    }
  }

  lemma {:induction false} MonthsPartition(keys: seq<int>, usage: seq<Usage>, calendar: int -> int, m: Measure)
    requires Increasing(keys) && forall u | u in usage :: MonthOf(u, calendar) in keys
    ensures SumOfMonths(keys, usage, calendar, m) == SumUsage(usage).Of(m)
  {
    if usage == [] {
      SumOfNothing(keys, calendar, m);
    } else {
      var rest, u := usage[..|usage| - 1], usage[|usage| - 1];
      assert usage == rest + [u];
      MonthsPartition(keys, rest, calendar, m);
      SumOfMonthsAppend(keys, rest, u, calendar, m);
    }
  }

  function KeysOf(months: seq<Usage>): (keys: seq<int>)
    requires forall i | 0 <= i < |months| :: months[i].period.Monthly?
    ensures |keys| == |months| && forall i | 0 <= i < |months| :: keys[i] == months[i].period.month
  {
    seq(|months|, i requires 0 <= i < |months| => months[i].period.month)
  }

  lemma {:induction false} MonthsSum(months: seq<Usage>, usage: seq<Usage>, calendar: int -> int, m: Measure)
    requires forall i | 0 <= i < |months| ::
      months[i].period.Monthly? && months[i] == Folded(usage, calendar, months[i].period.month)
    ensures SumUsage(months).Of(m) == SumOfMonths(KeysOf(months), usage, calendar, m)
  {
    if months != [] {
      var n := |months| - 1;
      MonthsSum(months[..n], usage, calendar, m);
      assert KeysOf(months)[..n] == KeysOf(months[..n]);
    }
  }

  /** Folding into months keeps every total. */
  lemma MonthlyConserves(months: seq<Usage>, usage: seq<Usage>, calendar: int -> int, m: Measure)
    requires IsMonthly(months, usage, calendar)
    ensures SumUsage(months).Of(m) == SumUsage(usage).Of(m)
  {
    var keys := KeysOf(months);
    forall u | u in usage ensures MonthOf(u, calendar) in keys {
      assert HasMonth(months, MonthOf(u, calendar));
      var i :| 0 <= i < |months| && months[i].period == Monthly(MonthOf(u, calendar));
      assert keys[i] == MonthOf(u, calendar);
    }
    MonthsSum(months, usage, calendar, m);
    MonthsPartition(keys, usage, calendar, m);
  }

  /** A peak is one of the values it bounds, or the zero it started from. */
  lemma {:induction false} PeakReached(usage: seq<Usage>)
    ensures Peak(usage).p50 == 0 || exists u :: u in usage && u.latency.p50 == Peak(usage).p50
    ensures Peak(usage).p95 == 0 || exists u :: u in usage && u.latency.p95 == Peak(usage).p95
    ensures Peak(usage).p99 == 0 || exists u :: u in usage && u.latency.p99 == Peak(usage).p99
  {
    if usage != [] {
      var rest, u := usage[..|usage| - 1], usage[|usage| - 1];
      PeakReached(rest);
      assert usage == rest + [u];
    }
  }

  // ---------- gathering rows per subnet ----------

  function Entry(row: Row): Usage {
    Usage(Daily(row.day), row.counts, row.latency)
  }

  /** The entries of one subnet, in the order of the rows. */
  function Entries(rows: seq<Row>, netuid: int): seq<Usage> {
    if rows == [] then []
    else
      var (rest, row) := (Entries(rows[..|rows| - 1], netuid), rows[|rows| - 1]);
      if row.netuid == netuid then rest + [Entry(row)] else rest
  }

  /** The name the subnet's first row bears. */
  function FirstName(rows: seq<Row>, netuid: int): Option<string> {
    if rows == [] then None
    else
      var (rest, row) := (FirstName(rows[..|rows| - 1], netuid), rows[|rows| - 1]);
      if rest.None? && row.netuid == netuid then Some(row.name) else rest
  }

  function RowsOf(rows: seq<Row>, netuid: int): seq<Row> {
    if rows == [] then []
    else
      var (rest, row) := (RowsOf(rows[..|rows| - 1], netuid), rows[|rows| - 1]);
      if row.netuid == netuid then rest + [row] else rest
  }

  predicate ShowsRow(u: Usage, row: Row) {
    && u.period == Daily(row.day) && u.counts == row.counts
    && u.latency.p50 == row.latency.p50 && u.latency.p95 == row.latency.p95 && u.latency.p99 == row.latency.p99
  }

  /** Each row of a subnet is shown by one entry, in order, and the subnet bears the name of the first. */
  lemma {:induction false} EntriesShowRows(rows: seq<Row>, n: int)
    ensures var (usage, own) := (Entries(rows, n), RowsOf(rows, n));
      && |usage| == |own| && (forall i | 0 <= i < |own| :: ShowsRow(usage[i], own[i]))
      && FirstName(rows, n) == if own == [] then None else Some(own[0].name)
  {
    if rows != [] {
      EntriesShowRows(rows[..|rows| - 1], n);
    }
  }

  ghost predicate Gathered(results: map<int, Subnet>, rows: seq<Row>) {
    forall n :: GatheredAt(results, rows, n)
  }

  predicate GatheredAt(results: map<int, Subnet>, rows: seq<Row>, n: int) {
    && (n in results <==> FirstName(rows, n).Some?)
    && (n in results ==> results[n] == Subnet(FirstName(rows, n).value, n, Entries(rows, n)))
  }

  lemma RowsAppend(rows: seq<Row>, row: Row, n: int)
    ensures Entries(rows + [row], n) == if row.netuid == n then Entries(rows, n) + [Entry(row)] else Entries(rows, n)
    ensures FirstName(rows + [row], n) ==
      if FirstName(rows, n).None? && row.netuid == n then Some(row.name) else FirstName(rows, n)
  {
    assert (rows + [row])[..|rows|] == rows;
  }

  lemma {:induction false} NoEntriesUnnamed(rows: seq<Row>, n: int)
    ensures FirstName(rows, n).None? <==> Entries(rows, n) == []
  {
    if rows != [] {
      NoEntriesUnnamed(rows[..|rows| - 1], n);
    }
  }

  method Gather(results: map<int, Subnet>, ghost seen: seq<Row>, rows: seq<Row>) returns (more: map<int, Subnet>)
    requires Gathered(results, seen)
    ensures Gathered(more, seen + rows)
  {
    more := results;
    var i := 0;
    assert seen + rows[..0] == seen;
    while i < |rows|
      invariant 0 <= i <= |rows| && Gathered(more, seen + rows[..i])
    {
      var row := rows[i];
      ghost var before, sofar := more, seen + rows[..i];
      if row.netuid !in more {
        more := more[row.netuid := Subnet(row.name, row.netuid, [])];
      }
      var subnet := more[row.netuid];
      more := more[row.netuid := subnet.(usage := subnet.usage + [Entry(row)])];
      forall n ensures GatheredAt(more, sofar + [row], n) {
        assert GatheredAt(before, sofar, n);
        NoEntriesUnnamed(sofar, n);
        RowsAppend(sofar, row, n);
      }
      assert seen + rows[..i + 1] == sofar + [row];
      i := i + 1;
    }
    assert rows[..|rows|] == rows;
  }

  /** The rows the report is made of: summaries up to yesterday, live records for today. */
  function Consulted(today: int, first: int, last: int, past: seq<Row>, live: seq<Row>): seq<Row> {
    PastRows(today, first, last, past) + LiveRows(today, first, last, live)
  }

  function PastRows(today: int, first: int, last: int, past: seq<Row>): seq<Row> {
    if first <= last && first <= today - 1 then past else []
  }

  function LiveRows(today: int, first: int, last: int, live: seq<Row>): seq<Row> {
    if first <= today <= last then live else []
  }

  /** The report: a line per subnet with rows, in order of netuid, each with its days or its months. */
  ghost predicate IsReport(subnets: seq<Subnet>, rows: seq<Row>, monthly: bool, calendar: int -> int) {
    && (forall i, j | 0 <= i < j < |subnets| :: subnets[i].netuid < subnets[j].netuid)
    && (forall i | 0 <= i < |subnets| :: ReportsOn(subnets[i], rows, monthly, calendar))
    && (forall row | row in rows :: Reported(subnets, row.netuid))
  }

  ghost predicate ReportsOn(s: Subnet, rows: seq<Row>, monthly: bool, calendar: int -> int) {
    && Some(s.name) == FirstName(rows, s.netuid)
    && if monthly then IsMonthly(s.usage, Entries(rows, s.netuid), calendar) else s.usage == Entries(rows, s.netuid)
  }

  ghost predicate Reported(subnets: seq<Subnet>, netuid: int) {
    exists i :: 0 <= i < |subnets| && subnets[i].netuid == netuid
  }

  lemma {:induction false} RowIsNamed(rows: seq<Row>, row: Row)
    requires row in rows
    ensures FirstName(rows, row.netuid).Some?
  {
    var n := |rows| - 1;
    if rows[n] != row {
      assert rows == rows[..n] + [rows[n]];
      RowIsNamed(rows[..n], row);
    }
  }

  lemma EveryRowReported(results: map<int, Subnet>, rows: seq<Row>, keys: seq<int>, subnets: seq<Subnet>)
    requires Gathered(results, rows) && (forall k :: k in keys <==> k in results)
    requires |subnets| == |keys| && forall j | 0 <= j < |keys| :: subnets[j].netuid == keys[j]
    ensures forall row | row in rows :: Reported(subnets, row.netuid)
  {
    forall row | row in rows ensures Reported(subnets, row.netuid) {
      RowIsNamed(rows, row);
      assert GatheredAt(results, rows, row.netuid);
      assert row.netuid in keys;
      var j :| 0 <= j < |keys| && keys[j] == row.netuid;
      assert subnets[j].netuid == row.netuid;
    }
  }

  /** The gathered subnets by ascending netuid, folded into months when asked for. */
  method InOrderOfNetuid(results: map<int, Subnet>, ghost rows: seq<Row>, monthly: bool, calendar: int -> int)
    returns (subnets: seq<Subnet>)
    requires Gathered(results, rows)
    ensures IsReport(subnets, rows, monthly, calendar)
  {
    var keys := Sorted(results.Keys);
    subnets := [];
    for i := 0 to |keys|
      invariant |subnets| == i
      invariant forall j | 0 <= j < i :: subnets[j].netuid == keys[j] && ReportsOn(subnets[j], rows, monthly, calendar)
    {
      assert keys[i] in keys && GatheredAt(results, rows, keys[i]);
      var subnet := results[keys[i]];
      if monthly {
        var months := AggregateToMonthly(subnet.usage, calendar);
        subnet := subnet.(usage := months);
      }
      subnets := subnets + [subnet];
    }
    EveryRowReported(results, rows, keys, subnets);
  }

  /** `past` and `live` are what the two queries answer when they are made. */
  method GetUsageSummaries(today: int, first: int, last: int, past: seq<Row>, live: seq<Row>, monthly: bool,
                           calendar: int -> int) returns (subnets: seq<Subnet>)
    ensures IsReport(subnets, Consulted(today, first, last, past, live), monthly, calendar)
  {
    var results: map<int, Subnet> := map[];
    ghost var rows: seq<Row> := [];
    var summaryEnd := if last < today - 1 then last else today - 1;
    if first <= summaryEnd {
      results := Gather(results, rows, past);
      rows := rows + past;
    }
    if first <= today <= last {
      results := Gather(results, rows, live);
      rows := rows + live;
    }
    assert rows == Consulted(today, first, last, past, live);
    subnets := InOrderOfNetuid(results, rows, monthly, calendar);
  }

  // ---------- quotas ----------

  datatype Quota = Quota(name: string, netuid: int, limit: nat, used: nat, remaining: nat)

  datatype Count = Count(netuid: int, total: nat)

  function Used(summarized: map<int, nat>, live: seq<Count>, netuid: int): nat {
    (if netuid in summarized then summarized[netuid] else 0) + LiveCount(live, netuid)
  }

  function LiveCount(live: seq<Count>, netuid: int): nat {
    if live == [] then 0
    else
      var row := live[|live| - 1];
      LiveCount(live[..|live| - 1], netuid) + if row.netuid == netuid then row.total else 0
  }

  predicate OneRowEach(live: seq<Count>) {
    forall i, j | 0 <= i < j < |live| :: live[i].netuid != live[j].netuid
  }

  ghost predicate Mentions(live: seq<Count>, netuid: int) {
    exists i :: 0 <= i < |live| && live[i].netuid == netuid
  }

  /** A row charges its subnet exactly its total, on top of the summaries; without a row they stand alone. */
  lemma {:induction false} RowCharges(summarized: map<int, nat>, live: seq<Count>, netuid: int, total: nat)
    requires OneRowEach(live)
    ensures var past := if netuid in summarized then summarized[netuid] else 0;
      && (Count(netuid, total) in live ==> Used(summarized, live, netuid) == past + total)
      && (!Mentions(live, netuid) ==> Used(summarized, live, netuid) == past)
  {
    if live != [] {
      var rest, last := live[..|live| - 1], live[|live| - 1];
      assert live == rest + [last];
      RowCharges(summarized, rest, netuid, total);
      if Mentions(rest, netuid) {
        var i :| 0 <= i < |rest| && rest[i].netuid == netuid;
        assert live[i].netuid == netuid && live[|rest|] == last;
      }
    }
  }

  /** The quota is charged with the month's summaries and with today's requests, if there are any. */
  predicate Charges(q: Quota, summarized: map<int, nat>, live: seq<Count>) {
    var past := if q.netuid in summarized then summarized[q.netuid] else 0;
    && (forall row | row in live && row.netuid == q.netuid :: q.used == past + row.total)
    && ((forall row | row in live :: row.netuid != q.netuid) ==> q.used == past)
  }

  lemma UsedIsCharged(q: Quota, summarized: map<int, nat>, live: seq<Count>)
    requires OneRowEach(live) && q.used == Used(summarized, live, q.netuid)
    ensures Charges(q, summarized, live)
  {
    forall row | row in live && row.netuid == q.netuid
      ensures q.used == (if q.netuid in summarized then summarized[q.netuid] else 0) + row.total
    {
      RowCharges(summarized, live, q.netuid, row.total);
    }
    if forall row | row in live :: row.netuid != q.netuid {
      RowCharges(summarized, live, q.netuid, 0);
    }
  }

  /** `tracked` lists the subnets with a quota and `limit` their monthly limits. */
  method GetQuotaStatus(summarized: map<int, nat>, live: seq<Count>, tracked: seq<(int, string)>, limit: int -> nat)
    returns (quotas: seq<Quota>)
    ensures |quotas| == |tracked|
    ensures forall i | 0 <= i < |tracked| :: (var n := tracked[i].0; var used := Used(summarized, live, n);
      quotas[i] == Quota(tracked[i].1, n, limit(n), used, if used >= limit(n) then 0 else limit(n) - used))
    ensures OneRowEach(live) ==> forall i | 0 <= i < |tracked| :: Charges(quotas[i], summarized, live)
  {
    var counts := summarized;
    var i := 0;
    while i < |live|
      invariant 0 <= i <= |live|
      invariant forall n :: (if n in counts then counts[n] else 0) == Used(summarized, live[..i], n)
    {
      assert live[..i + 1][..i] == live[..i];
      var n := live[i].netuid;
      counts := counts[n := (if n in counts then counts[n] else 0) + live[i].total];
      i := i + 1;
    }
    assert live[..|live|] == live;
    quotas := [];
    i := 0;
    while i < |tracked|
      invariant 0 <= i == |quotas| <= |tracked|
      invariant forall j | 0 <= j < i :: (var n := tracked[j].0; var used := Used(summarized, live, n);
        quotas[j] == Quota(tracked[j].1, n, limit(n), used, if used >= limit(n) then 0 else limit(n) - used))
    {
      var n := tracked[i].0;
      var used := if n in counts then counts[n] else 0;
      quotas := quotas + [Quota(tracked[i].1, n, limit(n), used, Max(0, limit(n) - used))];
      i := i + 1;
    }
    if OneRowEach(live) {
      forall j | 0 <= j < |tracked| ensures Charges(quotas[j], summarized, live) {
        UsedIsCharged(quotas[j], summarized, live);
      }
    }
  }
}
