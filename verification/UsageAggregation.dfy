/** Usage records, their daily summaries, and the retention that deletes records.

    Time is counted in days from some midnight UTC, so the date of an instant is its floor.  Every
    transaction is atomic.  `AggregationExactExactlyWhen` is about one aggregation; `RecountSafeExactlyWhen`
    is about every run in which workers aggregate, re-aggregate and delete while requests keep arriving.
 */
module UsageAggregation {
  import opened Options

  datatype Record = Record(org: int, key: int, netuid: int, name: string, status: int, prompt: nat, completion: nat,
                           at: real)

  /** What the query groups by, besides the date. */
  datatype Group = Group(org: int, key: int, netuid: int, name: string)

  /** The unique constraint a summary is upserted under. */
  datatype Slot = Slot(key: int, netuid: int, day: int)

  datatype Measure = Requests | Successes | Errors | PromptTokens | CompletionTokens

  datatype Counts = Counts(requests: nat, successes: nat, errors: nat, prompt: nat, completion: nat) {
    function Of(m: Measure): nat {
      match m
      case Requests => requests
      case Successes => successes
      case Errors => errors
      case PromptTokens => prompt
      case CompletionTokens => completion
    }
  }

  datatype Summary = Summary(org: int, name: string, counts: Counts)

  type Table = map<Slot, Summary>

  /** One row of the aggregation query's result. */
  datatype Line = Line(group: Group, counts: Counts)

  function DayOf(r: Record): int {
    r.at.Floor
  }

  function GroupOf(r: Record): Group {
    Group(r.org, r.key, r.netuid, r.name)
  }

  function SlotOf(r: Record): Slot {
    Slot(r.key, r.netuid, DayOf(r))
  }

  function SlotFor(g: Group, day: int): Slot {
    Slot(g.key, g.netuid, day)
  }

  function Weight(r: Record, m: Measure): nat {
    match m
    case Requests => 1
    case Successes => if 200 <= r.status < 400 then 1 else 0
    case Errors => if r.status >= 400 then 1 else 0
    case PromptTokens => r.prompt
    case CompletionTokens => r.completion
  }

  // ---------- totals over records ----------

  datatype Query =
    | InGroup(group: Group, day: int)
    | InSlot(slot: Slot)
    | OfOrg(org: int, netuid: int, name: Option<string>, first: int, last: int)

  /** An optional filter on the name. */
  predicate Admits(filter: Option<string>, name: string) {
    filter.Some? ==> filter.value == name
  }

  predicate Matches(q: Query, r: Record) {
    match q
    case InGroup(g, day) => GroupOf(r) == g && DayOf(r) == day
    case InSlot(slot) => SlotOf(r) == slot
    case OfOrg(org, netuid, name, first, last) =>
      r.org == org && r.netuid == netuid && Admits(name, r.name) && first <= DayOf(r) <= last
  }

  function Total(records: seq<Record>, q: Query, m: Measure): nat {
    if records == [] then 0
    else
      var r := records[|records| - 1];
      Total(records[..|records| - 1], q, m) + if Matches(q, r) then Weight(r, m) else 0
  }

  function Tally(records: seq<Record>, q: Query): (c: Counts)
    ensures forall m :: c.Of(m) == Total(records, q, m)
  {
    Counts(Total(records, q, Requests), Total(records, q, Successes), Total(records, q, Errors),
           Total(records, q, PromptTokens), Total(records, q, CompletionTokens))
  }

  lemma TotalAppend(records: seq<Record>, r: Record, q: Query, m: Measure)
    ensures Total(records + [r], q, m) == Total(records, q, m) + if Matches(q, r) then Weight(r, m) else 0
  {
    assert (records + [r])[..|records|] == records;
  }

  /** The records that match and whose status lies in the range, by position. */
  function Positions(records: seq<Record>, q: Query, from: int, to: int): set<nat> {
    set i: nat | i < |records| && Matches(q, records[i]) && from <= records[i].status < to
  }

  lemma PositionsAppend(records: seq<Record>, r: Record, q: Query, from: int, to: int)
    ensures |Positions(records + [r], q, from, to)| ==
      |Positions(records, q, from, to)| + if Matches(q, r) && from <= r.status < to then 1 else 0
  {
    var (n, before, after) := (|records|, Positions(records, q, from, to), Positions(records + [r], q, from, to));
    forall i: nat ensures i in after <==> i in before || (i == n && Matches(q, r) && from <= r.status < to) {
      if i < n {
        assert (records + [r])[i] == records[i];
      }
    }
    assert after == if Matches(q, r) && from <= r.status < to then before + {n} else before;
  }

  /** Successes are the requests answered with a status from 200 to 399, and errors those from 400 on. */
  lemma {:induction false} OutcomesByStatus(records: seq<Record>, q: Query, top: int)
    requires forall r | r in records :: r.status < top
    ensures Total(records, q, Successes) == |Positions(records, q, 200, 400)|
    ensures Total(records, q, Errors) == |Positions(records, q, 400, top)|
  {
    if records == [] {
      assert Positions(records, q, 200, 400) == {} == Positions(records, q, 400, top);
    } else {
      var rest, last := records[..|records| - 1], records[|records| - 1];
      assert records == rest + [last];
      OutcomesByStatus(rest, q, top);
      PositionsAppend(rest, last, q, 200, 400);
      PositionsAppend(rest, last, q, 400, top);
    }
  }

  /** Days run from midnight to midnight; a group, a slot and an organization's report each take the records
      that agree with them in every column they name. */
  lemma QueriesSelect(r: Record, org: int, key: int, netuid: int, name: string, first: int, last: int)
    ensures var since, until := first as real, (last + 1) as real;
      && (Matches(OfOrg(org, netuid, None, first, last), r) <==>
            r.org == org && r.netuid == netuid && since <= r.at < until)
      && (Matches(OfOrg(org, netuid, Some(name), first, last), r) <==>
            r.org == org && r.netuid == netuid && r.name == name && since <= r.at < until)
    ensures var since, until := first as real, (first + 1) as real;
      && (Matches(InGroup(Group(org, key, netuid, name), first), r) <==>
            r.org == org && r.key == key && r.netuid == netuid && r.name == name && since <= r.at < until)
      && (Matches(InSlot(Slot(key, netuid, first)), r) <==> r.key == key && r.netuid == netuid && since <= r.at < until)
  {
  }

  /** One more record adds one request and its own tokens to the totals it belongs to, and nothing to others. */
  lemma RecordAdds(records: seq<Record>, r: Record, q: Query)
    ensures var (before, after) := (Tally(records, q), Tally(records + [r], q));
      if Matches(q, r)
      then after.requests == before.requests + 1 && after.prompt == before.prompt + r.prompt
           && after.completion == before.completion + r.completion
      else after == before
  {
    TotalAppend(records, r, q, Requests);
    TotalAppend(records, r, q, Successes);
    TotalAppend(records, r, q, Errors);
    TotalAppend(records, r, q, PromptTokens);
    TotalAppend(records, r, q, CompletionTokens);
  }

  predicate SameAnswer(q: Query, q': Query, r: Record) {
    Matches(q, r) == Matches(q', r)
  }

  lemma {:induction false} TotalSame(records: seq<Record>, q: Query, q': Query, m: Measure)
    requires forall r | r in records :: SameAnswer(q, q', r)
    ensures Total(records, q, m) == Total(records, q', m)
  {
    if records != [] {
      assert SameAnswer(q, q', records[|records| - 1]);
      TotalSame(records[..|records| - 1], q, q', m);
    }
  }

  lemma TallySame(records: seq<Record>, q: Query, q': Query)
    requires forall r | r in records :: SameAnswer(q, q', r)
    ensures Tally(records, q) == Tally(records, q')
  {
    forall m: Measure ensures Total(records, q, m) == Total(records, q', m) {
      TotalSame(records, q, q', m);
    }
  }

  lemma {:induction false} TotalPositive(records: seq<Record>, q: Query, r: Record)
    requires r in records && Matches(q, r)
    ensures Total(records, q, Requests) >= 1
  {
    var n := |records| - 1;
    if r != records[n] {
      assert records == records[..n] + [records[n]];
      TotalPositive(records[..n], q, r);
    }
  }

  /** Requests counted by two exclusive queries are counted twice over by one that covers both. */
  lemma {:induction false} TotalDisjoint(records: seq<Record>, q: Query, q': Query, whole: Query)
    requires forall r | r in records && Matches(q, r) :: Matches(whole, r) && !Matches(q', r)
    requires forall r | r in records && Matches(q', r) :: Matches(whole, r)
    ensures Total(records, q, Requests) + Total(records, q', Requests) <= Total(records, whole, Requests)
  {
    if records != [] {
      var n := |records| - 1;
      assert records[n] in records;
      TotalDisjoint(records[..n], q, q', whole);
    }
  }

  predicate Conclusive(q: Query, r: Record) {
    Matches(q, r) ==> r.status >= 200
  }

  /** No request is both a success and an error, and each is one of them unless its status is below 200. */
  lemma {:induction false} OutcomesPartition(records: seq<Record>, q: Query)
    ensures var c := Tally(records, q);
      && c.successes + c.errors <= c.requests
      && (c.successes + c.errors == c.requests <==> forall r | r in records :: Conclusive(q, r))
  {
    if records != [] {
      var rest, last := records[..|records| - 1], records[|records| - 1];
      assert records == rest + [last];
      OutcomesPartition(rest, q);
      assert (forall r | r in records :: Conclusive(q, r)) <==>
        (forall r | r in rest :: Conclusive(q, r)) && Conclusive(q, last);
    }
  }

  // ---------- one aggregation ----------

  /** `lines` answers the query for one day: a line per group that has records, in any order. */
  ghost predicate IsGrouping(lines: seq<Line>, records: seq<Record>, day: int) {
    && (forall i, j | 0 <= i < j < |lines| :: lines[i].group != lines[j].group)
    && (forall i | 0 <= i < |lines| :: lines[i].counts == Tally(records, InGroup(lines[i].group, day)))
    && (forall i | 0 <= i < |lines| :: lines[i].counts.requests >= 1)
    && (forall r | r in records && DayOf(r) == day :: HasLine(lines, GroupOf(r)))
  }

  ghost predicate HasLine(lines: seq<Line>, g: Group) {
    exists i :: 0 <= i < |lines| && lines[i].group == g
  }

  /** INSERT ... ON CONFLICT: the counts are overwritten, organization and name of an existing row stay. */
  function Upserted(rows: Table, slot: Slot, line: Line): Table {
    rows[slot := if slot in rows then rows[slot].(counts := line.counts)
                 else Summary(line.group.org, line.group.name, line.counts)]
  }

  function UpsertAll(rows: Table, lines: seq<Line>, day: int): Table {
    if lines == [] then rows
    else
      var line := lines[|lines| - 1];
      Upserted(UpsertAll(rows, lines[..|lines| - 1], day), SlotFor(line.group, day), line)
  }

  function Kept(records: seq<Record>, cutoff: real): seq<Record> {
    if records == [] then []
    else
      var (rest, r) := (Kept(records[..|records| - 1], cutoff), records[|records| - 1]);
      if r.at < cutoff then rest else rest + [r]
  }

  /** Deletion takes all copies of the old records and none of the others. */
  ghost predicate Retains(before: seq<Record>, after: seq<Record>, cutoff: real) {
    forall r :: multiset(after)[r] == if r.at < cutoff then 0 else multiset(before)[r]
  }

  lemma {:induction false} KeptRetains(records: seq<Record>, cutoff: real)
    ensures Retains(records, Kept(records, cutoff), cutoff)
  {
    if records != [] {
      var n := |records| - 1;
      KeptRetains(records[..n], cutoff);
      assert records == records[..n] + [records[n]];
    }
  }

  class UsageAggregationTask {
    const retention: nat
    var records: seq<Record>
    var summaries: Table

    constructor (retention: nat)
      ensures this.retention == retention && records == [] && summaries == map[]
    {
      this.retention := retention;
      records, summaries := [], map[];
    }

    /** `lines` is what the query answered; with `fault` the session raises at that statement. */
    method AggregateDay(target: real, lines: seq<Line>, fault: Option<nat>) returns (upserted: Option<nat>)
      requires IsGrouping(lines, records, target.Floor)
      modifies this`summaries
      ensures summaries == if upserted.Some? then UpsertAll(old(summaries), lines, target.Floor) else old(summaries)
      ensures upserted.Some? ==> upserted.value == |lines|
      ensures fault.None? ==> upserted.Some?
    {
      var session, count, i := summaries, 0, 0;
      while i < |lines|
        invariant 0 <= i == count <= |lines| && summaries == old(summaries)
        invariant session == UpsertAll(summaries, lines[..i], target.Floor)
      {
        assert lines[..i + 1][..i] == lines[..i];
        if fault == Some(i) {
          return None;
        }
        session := Upserted(session, SlotFor(lines[i].group, target.Floor), lines[i]);
        count := count + 1;
        i := i + 1;
      }
      assert lines[..|lines|] == lines;
      if fault.Some? {
        return None;
      }
      summaries := session;
      return Some(count);
    }

    method CleanupOldRecords(now: real) returns (deleted: int)
      modifies this`records
      ensures records == Kept(old(records), now - retention as real)
      ensures deleted == |old(records)| - |records|
      ensures Retains(old(records), records, now - retention as real)
    {
      var before := records;
      KeptRetains(before, now - retention as real);
      records := Kept(records, now - retention as real);
      deleted := |before| - |records|;
    }

    /** Yesterday's date is read first, the cutoff only after the aggregation has committed. */
    method RunOnce(now: real, lines: seq<Line>, later: real, fault: Option<nat>, cleanupFails: bool)
      returns (aggregated: bool, cleaned: bool)
      requires IsGrouping(lines, records, now.Floor - 1)
      modifies this
      ensures summaries == if aggregated then UpsertAll(old(summaries), lines, now.Floor - 1) else old(summaries)
      ensures records == if cleaned then Kept(old(records), later - retention as real) else old(records)
      ensures cleaned ==> aggregated
      ensures fault.None? ==> aggregated && cleaned == !cleanupFails
    {
      var yesterday := now - 1.0;
      assert yesterday.Floor == now.Floor - 1;
      var upserted := AggregateDay(yesterday, lines, fault);
      if upserted.None? {
        return false, false;
      }
      if cleanupFails {
        return true, false;
      }
      var _ := CleanupOldRecords(later);
      return true, true;
    }
  }

  /** Organization follows from the key, and name from the netuid. */
  predicate SameGroup(r: Record, r': Record) {
    SlotOf(r) == SlotOf(r') ==> GroupOf(r) == GroupOf(r')
  }

  ghost predicate Determined(records: seq<Record>, day: int) {
    forall r, r' | r in records && r' in records && DayOf(r) == day && DayOf(r') == day :: SameGroup(r, r')
  }

  /** Every slot with records that day shows their totals. */
  ghost predicate Exact(rows: Table, records: seq<Record>, day: int) {
    forall r | r in records && DayOf(r) == day :: Shows(rows, SlotOf(r), records)
  }

  ghost predicate Shows(rows: Table, slot: Slot, records: seq<Record>) {
    slot in rows && rows[slot].counts == Tally(records, InSlot(slot))
  }

  predicate Fills(line: Line, day: int, slot: Slot) {
    SlotFor(line.group, day) == slot
  }

  /** What ends up in one slot: counts of the last line that fills it, organization and name of the first. */
  lemma {:induction false} UpsertAllAt(rows: Table, lines: seq<Line>, day: int, slot: Slot) returns (i: nat, j: nat)
    ensures (forall k | 0 <= k < |lines| :: !Fills(lines[k], day, slot)) ==>
      Get(UpsertAll(rows, lines, day), slot) == Get(rows, slot)
    ensures forall k | 0 <= k < |lines| && Fills(lines[k], day, slot) ::
      j < |lines| && i < |lines| && Fills(lines[i], day, slot) && Fills(lines[j], day, slot) &&
      Get(UpsertAll(rows, lines, day), slot) ==
        Some(if slot in rows then rows[slot].(counts := lines[i].counts)
             else Summary(lines[j].group.org, lines[j].group.name, lines[i].counts))
  {
    i, j := 0, 0;
    if lines != [] {
      var n := |lines| - 1;
      i, j := UpsertAllAt(rows, lines[..n], day, slot);
      if Fills(lines[n], day, slot) {
        i := n;
        if forall k | 0 <= k < n :: !Fills(lines[k], day, slot) {
          assert forall k | 0 <= k < n :: !Fills(lines[..n][k], day, slot);
          j := n;
        } else {
          var k :| 0 <= k < n && Fills(lines[k], day, slot);
          assert Fills(lines[..n][k], day, slot);
        }
      } else {
        forall k | 0 <= k < n ensures Fills(lines[k], day, slot) == Fills(lines[..n][k], day, slot) {}
      }
    }
  }

  lemma ExactWhenDetermined(rows: Table, lines: seq<Line>, records: seq<Record>, day: int, r: Record)
    requires IsGrouping(lines, records, day) && Determined(records, day) && r in records && DayOf(r) == day
    ensures var after := UpsertAll(rows, lines, day); var slot := SlotOf(r);
      && Shows(after, slot, records)
      && after[slot].org == (if slot in rows then rows[slot].org else r.org)
      && after[slot].name == (if slot in rows then rows[slot].name else r.name)
  {
    var slot := SlotOf(r);
    var i, j := UpsertAllAt(rows, lines, day, slot);
    assert HasLine(lines, GroupOf(r));
    var k :| 0 <= k < |lines| && lines[k].group == GroupOf(r);
    assert Fills(lines[k], day, slot);
    FillerIsItsGroup(lines, records, day, r, i);
    FillerIsItsGroup(lines, records, day, r, j);
    forall x | x in records ensures SameAnswer(InGroup(GroupOf(r), day), InSlot(slot), x) {
      assert SlotOf(x) == slot ==> SameGroup(x, r);
    }
    TallySame(records, InGroup(GroupOf(r), day), InSlot(slot));
  }

  /** Under determination a line that fills `r`'s slot is the line of `r`'s group. */
  lemma FillerIsItsGroup(lines: seq<Line>, records: seq<Record>, day: int, r: Record, i: nat)
    requires IsGrouping(lines, records, day) && Determined(records, day) && r in records && DayOf(r) == day
    requires i < |lines| && Fills(lines[i], day, SlotOf(r))
    ensures lines[i].group == GroupOf(r)
  {
    var x := Member(records, InGroup(lines[i].group, day));
    assert SameGroup(x, r);
  }

  lemma {:induction false} Member(records: seq<Record>, q: Query) returns (r: Record)
    requires Total(records, q, Requests) >= 1
    ensures r in records && Matches(q, r)
  {
    var n := |records| - 1;
    if Matches(q, records[n]) {
      r := records[n];
    } else {
      r := Member(records[..n], q);
    }
  }

  /** Two groups that share a slot: whichever is written last, the other's requests are missing. */
  lemma CollisionLoses(rows: Table, lines: seq<Line>, records: seq<Record>, day: int, r: Record, r': Record)
    requires IsGrouping(lines, records, day) && r in records && r' in records
    requires DayOf(r) == DayOf(r') == day && SlotOf(r) == SlotOf(r') && GroupOf(r) != GroupOf(r')
    ensures !Shows(UpsertAll(rows, lines, day), SlotOf(r), records)
  {
    var slot := SlotOf(r);
    var i, j := UpsertAllAt(rows, lines, day, slot);
    assert HasLine(lines, GroupOf(r));
    var k :| 0 <= k < |lines| && lines[k].group == GroupOf(r);
    assert Fills(lines[k], day, slot);
    var written := lines[i].group;
    var missing := if GroupOf(r) == written then r' else r;
    TotalDisjoint(records, InGroup(written, day), InGroup(GroupOf(missing), day), InSlot(slot));
    TotalPositive(records, InGroup(GroupOf(missing), day), missing);
  }

  /** An aggregation leaves the true totals of its day in every slot, in whatever order its lines come and
      whatever the table held before, if and only if no two groups share a slot. */
  lemma AggregationExactExactlyWhen(rows: Table, lines: seq<Line>, records: seq<Record>, day: int)
    requires IsGrouping(lines, records, day)
    ensures Exact(UpsertAll(rows, lines, day), records, day) <==> Determined(records, day)
  {
    if Determined(records, day) {
      forall r | r in records && DayOf(r) == day ensures Shows(UpsertAll(rows, lines, day), SlotOf(r), records) {
        ExactWhenDetermined(rows, lines, records, day, r);
      }
    } else {
      var r, r' :| r in records && r' in records && DayOf(r) == day && DayOf(r') == day && !SameGroup(r, r');
      CollisionLoses(rows, lines, records, day, r, r');
    }
  }

  /** Slots without records that day are not touched. */
  lemma OthersUntouched(rows: Table, lines: seq<Line>, records: seq<Record>, day: int, slot: Slot)
    requires IsGrouping(lines, records, day) && forall r | r in records && DayOf(r) == day :: SlotOf(r) != slot
    ensures Get(UpsertAll(rows, lines, day), slot) == Get(rows, slot)
  {
    var _, _ := UpsertAllAt(rows, lines, day, slot);
    forall k | 0 <= k < |lines| ensures !Fills(lines[k], day, slot) {
      var x := Member(records, InGroup(lines[k].group, day));
    }
  }

  /** The query always has an answer. */
  lemma {:induction false} GroupingExists(records: seq<Record>, day: int) returns (lines: seq<Line>)
    ensures IsGrouping(lines, records, day)
  {
    if records == [] {
      lines := [];
    } else {
      var n := |records| - 1;
      var before := GroupingExists(records[..n], day);
      lines := Regrouped(before, records[..n], records[n], day);
      assert records == records[..n] + [records[n]];
    }
  }

  lemma LineCounts(records: seq<Record>, r: Record, g: Group, day: int)
    ensures Tally(records + [r], InGroup(g, day)).requests >= Tally(records, InGroup(g, day)).requests
  {
    TotalAppend(records, r, InGroup(g, day), Requests);
  }

  /** The same groups counted over one more record. */
  lemma {:induction false} Recounted(before: seq<Line>, records: seq<Record>, r: Record, day: int) returns (lines: seq<Line>)
    requires forall i | 0 <= i < |before| :: before[i].counts == Tally(records, InGroup(before[i].group, day))
    requires forall i | 0 <= i < |before| :: before[i].counts.requests >= 1
    ensures |lines| == |before| && forall i | 0 <= i < |lines| :: lines[i].group == before[i].group
    ensures forall i | 0 <= i < |lines| :: lines[i].counts == Tally(records + [r], InGroup(lines[i].group, day))
    ensures forall i | 0 <= i < |lines| :: lines[i].counts.requests >= 1
  {
    if before == [] {
      lines := [];
    } else {
      var rest, g := before[..|before| - 1], before[|before| - 1].group;
      var some := Recounted(rest, records, r, day);
      LineCounts(records, r, g, day);
      lines := some + [Line(g, Tally(records + [r], InGroup(g, day)))];
    }
  }

  lemma SameLines(before: seq<Line>, lines: seq<Line>, g: Group)
    requires |lines| >= |before| && forall i | 0 <= i < |before| :: lines[i].group == before[i].group
    ensures HasLine(before, g) ==> HasLine(lines, g)
  {
    if HasLine(before, g) {
      var i :| 0 <= i < |before| && before[i].group == g;
      assert lines[i].group == g;
    }
  }

  lemma Regrouped(before: seq<Line>, records: seq<Record>, r: Record, day: int) returns (lines: seq<Line>)
    requires IsGrouping(before, records, day)
    ensures IsGrouping(lines, records + [r], day)
  {
    var all := records + [r];
    lines := Recounted(before, records, r, day);
    if DayOf(r) == day && !HasLine(before, GroupOf(r)) {
      TotalPositive(all, InGroup(GroupOf(r), day), r);
      lines := lines + [Line(GroupOf(r), Tally(all, InGroup(GroupOf(r), day)))];
      assert lines[|before|].group == GroupOf(r);
    }
    forall x | x in all && DayOf(x) == day ensures HasLine(lines, GroupOf(x)) {
      SameLines(before, lines, GroupOf(x));
    }
  }
}
