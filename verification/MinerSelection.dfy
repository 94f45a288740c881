/** Choosing a miner: the metagraph filtered and ranked by incentive, cached per sync generation, and
    weighted by quality scores. */
module MinerSelection {
  import opened Options
  import opened MetagraphSync
  import opened MinerScoring

  const MIN_WEIGHT := 0.000000001

  datatype Candidate = Candidate(uid: nat, incentive: real, axon: Axon)

  /** Whether an IP address is globally routable is left to the parameter `safe`. */
  predicate Passes(n: Neuron, safe: string -> bool) {
    n.incentive > 0.0 && n.stake > 0.0 && n.axon.ip != "" && n.axon.port != 0 && safe(n.axon.ip)
  }

  function CandidateOf(m: seq<Neuron>, uid: nat): Candidate
    requires uid < |m|
  {
    Candidate(uid, m[uid].incentive, m[uid].axon)
  }

  /** The passing neurons in uid order. */
  function Candidates(m: seq<Neuron>, safe: string -> bool): seq<Candidate> {
    if m == [] then []
    else
      var uid := |m| - 1;
      Candidates(m[..uid], safe) + if Passes(m[uid], safe) then [CandidateOf(m, uid)] else []
  }

  /** Python's stable sort, highest incentive first. */
  function StableSort(xs: seq<Candidate>): seq<Candidate> {
    if xs == [] then [] else Insert(xs[|xs| - 1], StableSort(xs[..|xs| - 1]))
  }

  function Insert(c: Candidate, ys: seq<Candidate>): seq<Candidate> {
    if ys == [] || ys[0].incentive < c.incentive then [c] + ys else [ys[0]] + Insert(c, ys[1..])
  }

  function Ranked(m: seq<Neuron>, safe: string -> bool): seq<Candidate> {
    StableSort(Candidates(m, safe))
  }

  /** The size is an integer, and as many neurons can be read. */
  predicate Readable(m: Metagraph) {
    m.size.Number? && m.size.n <= |m.neurons|
  }

  function Listed(m: Metagraph): seq<Neuron>
    requires Readable(m)
  {
    if m.size.n <= 0 then [] else m.neurons[..m.size.n]
  }

  /** What `_build_eligible` returns, unless it raises. */
  function Eligible(m: Metagraph, safe: string -> bool): Option<seq<Candidate>> {
    if Readable(m) then Some(Ranked(Listed(m), safe)) else None
  }

  // ---------- what the ranking is ----------

  predicate Before(a: Candidate, b: Candidate) {
    a.incentive > b.incentive || (a.incentive == b.incentive && a.uid < b.uid)
  }

  predicate InOrder(s: seq<Candidate>) {
    forall i, j | 0 <= i < j < |s| :: Before(s[i], s[j])
  }

  /** The neuron has incentive and stake and an address with a port that is safe, and the candidate is its. */
  predicate Qualifies(c: Candidate, m: seq<Neuron>, safe: string -> bool) {
    && c.uid < |m| && c.incentive == m[c.uid].incentive && c.axon == m[c.uid].axon
    && m[c.uid].incentive > 0.0 && m[c.uid].stake > 0.0
    && c.axon.ip != "" && c.axon.port != 0 && safe(c.axon.ip)
  }

  /** Exactly the passing uids, each once, by descending incentive, ties by ascending uid. */
  ghost predicate IsRanking(s: seq<Candidate>, m: seq<Neuron>, safe: string -> bool) {
    InOrder(s) && forall c :: c in s <==> Qualifies(c, m, safe)
  }

  lemma {:induction false} InsertKeepsOrder(c: Candidate, ys: seq<Candidate>)
    requires InOrder(ys) && forall y | y in ys :: y.uid < c.uid
    ensures InOrder(Insert(c, ys)) && forall x :: x in Insert(c, ys) <==> x == c || x in ys
  {
    if ys != [] && ys[0].incentive >= c.incentive {
      assert ys == [ys[0]] + ys[1..];
      InsertKeepsOrder(c, ys[1..]);
      var rest := Insert(c, ys[1..]);
      forall j | 0 <= j < |rest| ensures Before(ys[0], rest[j]) {
        assert rest[j] in rest;
        if rest[j] != c {
          assert rest[j] in ys[1..];
        }
      }
    }
  }

  lemma {:induction false} CandidatesQualify(m: seq<Neuron>, safe: string -> bool)
    ensures forall c :: c in Candidates(m, safe) <==> Qualifies(c, m, safe)
    ensures forall i, j | 0 <= i < j < |Candidates(m, safe)| :: Candidates(m, safe)[i].uid < Candidates(m, safe)[j].uid
  {
    if m != [] {
      var uid := |m| - 1;
      var before := m[..uid];
      CandidatesQualify(before, safe);
      forall c ensures c in Candidates(m, safe) <==> Qualifies(c, m, safe) {
        assert c.uid < uid ==> (Qualifies(c, before, safe) <==> Qualifies(c, m, safe));
      }
      forall c | c in Candidates(before, safe) ensures c.uid < uid {
        assert Qualifies(c, before, safe);
      }
    }
  }

  lemma {:induction false} SortRanks(xs: seq<Candidate>)
    requires forall i, j | 0 <= i < j < |xs| :: xs[i].uid < xs[j].uid
    ensures InOrder(StableSort(xs)) && forall c :: c in StableSort(xs) <==> c in xs
  {
    if xs != [] {
      var n := |xs| - 1;
      assert xs == xs[..n] + [xs[n]];
      SortRanks(xs[..n]);
      InsertKeepsOrder(xs[n], StableSort(xs[..n]));
    }
  }

  lemma RankedIsRanking(m: seq<Neuron>, safe: string -> bool)
    ensures IsRanking(Ranked(m, safe), m, safe)
  {
    CandidatesQualify(m, safe);
    SortRanks(Candidates(m, safe));
  }

  lemma {:induction false} OrderedIsUnique(s: seq<Candidate>, t: seq<Candidate>)
    requires InOrder(s) && InOrder(t) && forall c :: c in s <==> c in t
    ensures s == t
  {
    if t != [] {
      assert t[0] in s;
    }
    if s != [] {
      assert s[0] in t;
      var i :| 0 <= i < |t| && t[i] == s[0];
      assert t[0] in s;
      var j :| 0 <= j < |s| && s[j] == t[0];
      assert s[0] == t[0];
      forall c ensures c in s[1..] <==> c in t[1..] {
        SameTail(s, t, c);
      }
      OrderedIsUnique(s[1..], t[1..]);
    }
  }

  lemma SameTail(s: seq<Candidate>, t: seq<Candidate>, c: Candidate)
    requires s != [] && t != [] && s[0] == t[0] && InOrder(s) && InOrder(t) && (c in s <==> c in t)
    ensures c in s[1..] <==> c in t[1..]
  {
    assert s == [s[0]] + s[1..] && t == [t[0]] + t[1..];
    assert c == s[0] ==> c !in s[1..] && c !in t[1..];
  }

  /** The ranking is determined by its description alone. */
  lemma RankingIsUnique(s: seq<Candidate>, m: seq<Neuron>, safe: string -> bool)
    requires IsRanking(s, m, safe)
    ensures s == Ranked(m, safe)
  {
    RankedIsRanking(m, safe);
    OrderedIsUnique(s, Ranked(m, safe));
  }

  // ---------- weights ----------

  function WeightOf(incentive: real, quality: Option<real>, qualityWeight: real): real {
    var blended := if quality.Some? && qualityWeight > 0.0
                   then incentive * (1.0 - qualityWeight) + quality.value * qualityWeight else incentive;
    if blended > MIN_WEIGHT then blended else MIN_WEIGHT
  }

  predicate Between(x: real, a: real, b: real) {
    a <= x <= b || b <= x <= a
  }

  /** A blend is the incentive moved towards the quality score. */
  lemma BlendLiesBetween(incentive: real, quality: real, qualityWeight: real)
    requires 0.0 <= qualityWeight <= 1.0
    ensures Between(incentive * (1.0 - qualityWeight) + quality * qualityWeight, incentive, quality)
  {
    var gap := quality - incentive;
    var rest := 1.0 - qualityWeight;
    var blended := incentive * rest + quality * qualityWeight;
    assert blended == incentive + qualityWeight * gap;
    assert blended == quality - rest * gap;
    if gap >= 0.0 {
      Product(qualityWeight, gap);
      Product(rest, gap);
    } else {
      Product(qualityWeight, -gap);
      Product(rest, -gap);
      assert qualityWeight * (-gap) == -(qualityWeight * gap) && rest * (-gap) == -(rest * gap);
    }
  }

  /** The quality weight is the share of the way from the incentive to the quality score that a weight has
      moved, so at 0 it is the incentive and at 1 the quality score; 1e-9 is the least weight. */
  lemma WeightMoves(incentive: real, quality: Option<real>, qualityWeight: real) returns (blended: real)
    ensures WeightOf(incentive, quality, qualityWeight) == if blended > 0.000000001 then blended else 0.000000001
    ensures quality.None? || qualityWeight <= 0.0 ==> blended == incentive
    ensures quality.Some? && qualityWeight > 0.0 ==> blended - incentive == qualityWeight * (quality.value - incentive)
    ensures quality.Some? && qualityWeight == 1.0 ==> blended == quality.value
  {
    blended := incentive;
    if quality.Some? && qualityWeight > 0.0 {
      blended := incentive * (1.0 - qualityWeight) + quality.value * qualityWeight;
    }
  }

  /** Every weight is the larger of 1e-9 and a value between the incentive and the quality score, which is
      the incentive itself when there is no score. */
  lemma WeightRange(incentive: real, quality: Option<real>, qualityWeight: real) returns (blended: real)
    requires 0.0 <= qualityWeight <= 1.0
    ensures Between(blended, incentive, if quality.Some? then quality.value else incentive)
    ensures WeightOf(incentive, quality, qualityWeight) == if blended > MIN_WEIGHT then blended else MIN_WEIGHT
  {
    blended := incentive;
    if quality.Some? && qualityWeight > 0.0 {
      BlendLiesBetween(incentive, quality.value, qualityWeight);
      blended := incentive * (1.0 - qualityWeight) + quality.value * qualityWeight;
    }
  }

  // ---------- the selector ----------

  datatype Cached = Cached(generation: nat, eligible: seq<Candidate>)

  /** `Raised` is an exception of `_build_eligible` passing through. */
  datatype Choice = Chosen(axon: Axon) | NoMetagraph | Raised | NoEligibleMiners

  /** The list `select_miner` works from, unless building it raises. */
  function Used(s: Sync, cached: Option<Cached>, safe: string -> bool): Option<seq<Candidate>>
    requires s.metagraph.Some?
  {
    if cached.Some? && cached.value.generation == s.generation then Some(cached.value.eligible)
    else Eligible(s.metagraph.value, safe)
  }

  predicate IsDraw(choice: Choice, from: seq<Candidate>) {
    if from == [] then choice == NoEligibleMiners else exists i :: 0 <= i < |from| && choice == Chosen(from[i].axon)
  }

  class MinerSelector {
    const manager: MetagraphManager
    const scorer: Option<MinerScorer>
    const qualityWeight: real
    const safe: string -> bool
    var cache: map<int, Cached>

    constructor (manager: MetagraphManager, scorer: Option<MinerScorer>, qualityWeight: real, safe: string -> bool)
      ensures this.manager == manager && this.scorer == scorer && this.qualityWeight == qualityWeight
      ensures this.safe == safe && cache == map[]
    {
      this.manager, this.scorer, this.qualityWeight, this.safe := manager, scorer, qualityWeight, safe;
      cache := map[];
    }

    /** None when reading the size or a neuron raises. */
    method BuildEligible(m: Metagraph) returns (eligible: Option<seq<Candidate>>)
      ensures eligible == Eligible(m, safe)
    {
      if m.size.NotANumber? {
        return None;
      }
      var found := [];
      var end := if m.size.n < 0 then 0 else m.size.n;
      for uid := 0 to end
        invariant uid <= |m.neurons| && found == Candidates(m.neurons[..uid], safe)
      {
        if uid >= |m.neurons| {
          return None;
        }
        assert m.neurons[..uid + 1][..uid] == m.neurons[..uid];
        var incentive, stake, axon := m.neurons[uid].incentive, m.neurons[uid].stake, m.neurons[uid].axon;
        if incentive <= 0.0 {
          continue;
        }
        if stake <= 0.0 {
          continue;
        }
        if axon.ip == "" || axon.port == 0 {
          continue;
        }
        if !safe(axon.ip) {
          continue;
        }
        found := found + [Candidate(uid, incentive, axon)];
      }
      assert m.neurons[..end] == Listed(m);
      return Some(StableSort(found));
    }

    /** The drawn index is any one: every weight is positive. */
    method SelectMiner(netuid: int) returns (choice: Choice, ghost weights: seq<real>)
      modifies this
      ensures var views := manager.Views();
        if netuid !in views || views[netuid].metagraph.None? then choice == NoMetagraph && cache == old(cache)
        else match Used(views[netuid], Get(old(cache), netuid), safe)
             case None => choice == Raised && cache == old(cache)
             case Some(used) =>
               && cache == old(cache)[netuid := Cached(views[netuid].generation, used)]
               && IsDraw(choice, used)
               && (used != [] ==> |weights| == |used| && forall i | 0 <= i < |used| ::
                     Weighs(weights[i], netuid, used[i].axon.hotkey, used[i].incentive))
    {
      weights := [];
      if netuid !in manager.subnets || manager.subnets[netuid].metagraph.None? {
        return NoMetagraph, weights;
      }
      var state := manager.subnets[netuid];
      var eligible;
      if netuid in cache && cache[netuid].generation == state.syncGeneration {
        eligible := cache[netuid].eligible;
        assert cache == cache[netuid := cache[netuid]];
      } else {
        var built := BuildEligible(state.metagraph.value);
        if built.None? {
          return Raised, weights;
        }
        eligible := built.value;
        cache := cache[netuid := Cached(state.syncGeneration, eligible)];
      }
      if eligible == [] {
        return NoEligibleMiners, weights;
      }
      var ws := WeightsOf(netuid, eligible);
      weights := ws;
      var i :| 0 <= i < |eligible|;
      return Chosen(eligible[i].axon), weights;
    }

    /** The weight is the incentive moved towards the miner's quality score, if it has one, by the quality
        weight's share of the difference, and at least 1e-9. */
    predicate Weighs(weight: real, netuid: int, hotkey: string, incentive: real)
      reads if scorer.Some? then {scorer.value} else {}
    {
      var scored := qualityWeight > 0.0 && scorer.Some? && (netuid, hotkey) in scorer.value.states;
      var gap := if scored then scorer.value.states[(netuid, hotkey)].quality - incentive else 0.0;
      var blended := incentive + qualityWeight * gap;
      weight == if blended > 0.000000001 then blended else 0.000000001
    }

    /** Incentives blended with the quality scores, if there are any to blend with. */
    method WeightsOf(netuid: int, eligible: seq<Candidate>) returns (weights: seq<real>)
      ensures |weights| == |eligible|
      ensures forall i | 0 <= i < |eligible| ::
        Weighs(weights[i], netuid, eligible[i].axon.hotkey, eligible[i].incentive)
    {
      var qualityScores: map<string, real> := map[];
      if scorer.Some? && qualityWeight > 0.0 {
        qualityScores := scorer.value.GetScores(netuid);
      }
      weights := [];
      for i := 0 to |eligible|
        invariant |weights| == i
        invariant forall j | 0 <= j < i :: Weighs(weights[j], netuid, eligible[j].axon.hotkey, eligible[j].incentive)
      {
        var q := Get(qualityScores, eligible[i].axon.hotkey);
        ghost var blended := WeightMoves(eligible[i].incentive, q, qualityWeight);
        weights := weights + [WeightOf(eligible[i].incentive, q, qualityWeight)];
      }
    }
  }

  // ---------- runs of registrations, syncs and selections ----------

  datatype Router = Router(subnets: map<int, Sync>, cache: map<int, Cached>)

  datatype Event = Register(netuid: int) | SyncOne(netuid: int, fetch: Fetch) | Select(netuid: int)

  function Apply(r: Router, e: Event, safe: string -> bool): Router {
    match e
    case Register(n) => r.(subnets := r.subnets[n := UNSYNCED])
    case SyncOne(n, f) => if n in r.subnets then r.(subnets := r.subnets[n := Synced(r.subnets[n], f)]) else r
    case Select(n) =>
      if n in r.subnets && r.subnets[n].metagraph.Some? && Serves(r, n, safe).Some?
      then r.(cache := r.cache[n := Cached(r.subnets[n].generation, Serves(r, n, safe).value)])
      else r
  }

  /** What a selection from subnet `n` would now draw from; None when it raises. */
  function Serves(r: Router, n: int, safe: string -> bool): Option<seq<Candidate>>
    requires n in r.subnets && r.subnets[n].metagraph.Some?
  {
    Used(r.subnets[n], Get(r.cache, n), safe)
  }

  function Exec(r: Router, events: seq<Event>, safe: string -> bool): Router {
    if events == [] then r else Apply(Exec(r, events[..|events| - 1], safe), events[|events| - 1], safe)
  }

  /** The cache never runs ahead of the sync state, and an entry of the present generation is current. */
  predicate CacheOk(r: Router, n: int, safe: string -> bool) {
    && (n in r.subnets ==> (r.subnets[n].metagraph.Some? <==> r.subnets[n].generation > 0))
    && (n in r.cache ==>
          && n in r.subnets && 1 <= r.cache[n].generation <= r.subnets[n].generation
          && (r.cache[n].generation == r.subnets[n].generation ==>
                Eligible(r.subnets[n].metagraph.value, safe) == Some(r.cache[n].eligible)))
  }

  predicate Registers(e: Event, n: int) {
    e == Register(n)
  }

  lemma CacheOkStep(r: Router, e: Event, n: int, safe: string -> bool)
    requires CacheOk(r, n, safe) && !Registers(e, n)
    ensures CacheOk(Apply(r, e, safe), n, safe) && (n in r.subnets ==> n in Apply(r, e, safe).subnets)
  {
  }

  /** Whatever happens short of registering the subnet anew, the cache stays sound. */
  lemma {:induction false} CacheStaysOk(r: Router, events: seq<Event>, n: int, safe: string -> bool)
    requires CacheOk(r, n, safe) && forall e | e in events :: !Registers(e, n)
    ensures CacheOk(Exec(r, events, safe), n, safe)
    ensures n in r.subnets ==> n in Exec(r, events, safe).subnets
  {
    if events != [] {
      var k := |events| - 1;
      assert events[k] in events && forall e | e in events[..k] :: e in events;
      CacheStaysOk(r, events[..k], n, safe);
      CacheOkStep(Exec(r, events[..k], safe), events[k], n, safe);
    }
  }

  /** Selecting from `r` gives what building the list anew from the metagraph served would give. */
  predicate UsesCurrent(r: Router, n: int, safe: string -> bool) {
    n in r.subnets && r.subnets[n].metagraph.Some? ==>
      Serves(r, n, safe) == Eligible(r.subnets[n].metagraph.value, safe)
  }

  function FetchesOf(events: seq<Event>, n: int): seq<Fetch> {
    if events == [] then []
    else
      var (before, e) := (FetchesOf(events[..|events| - 1], n), events[|events| - 1]);
      if e.SyncOne? && e.netuid == n then before + [e.fetch] else before
  }

  lemma ExecNext(r: Router, events: seq<Event>, e: Event, safe: string -> bool)
    ensures Exec(r, events + [e], safe) == Apply(Exec(r, events, safe), e, safe)
  {
    assert (events + [e])[..|events|] == events;
  }

  /** One step moves a registered subnet's sync state as its own fetch says, or not at all. */
  lemma SyncStateStep(r: Router, e: Event, n: int, safe: string -> bool)
    requires n in r.subnets && !Registers(e, n)
    ensures var r' := Apply(r, e, safe);
      n in r'.subnets && r'.subnets[n] == if e.SyncOne? && e.netuid == n then Synced(r.subnets[n], e.fetch) else r.subnets[n]
  {
  }

  lemma {:induction false} SyncStateFollows(r: Router, events: seq<Event>, n: int, safe: string -> bool)
    requires n in r.subnets && r.subnets[n] == UNSYNCED && forall e | e in events :: !Registers(e, n)
    ensures n in Exec(r, events, safe).subnets && Exec(r, events, safe).subnets[n] == After(FetchesOf(events, n))
  {
    if events != [] {
      var rest, e := events[..|events| - 1], events[|events| - 1];
      assert e in events && forall x | x in rest :: x in events;
      SyncStateFollows(r, rest, n, safe);
      SyncStateStep(Exec(r, rest, safe), e, n, safe);
      if e.SyncOne? && e.netuid == n {
        AfterNext(FetchesOf(rest, n), e.fetch);
      }
    }
  }

  /** Nothing when the size is not a number or exceeds what can be read, and else the ranking. */
  ghost predicate ServesRanking(served: Option<seq<Candidate>>, size: Size, neurons: seq<Neuron>, safe: string -> bool) {
    if size.NotANumber? || size.n > |neurons| then served.None?
    else served.Some? && IsRanking(served.value, if size.n <= 0 then [] else neurons[..size.n], safe)
  }

  /** The cache refines recomputation: from its one registration on, through any syncs and selections of any
      subnets, a subnet is served from the ranking of the metagraph published last, and selecting from it
      raises exactly when that metagraph cannot be read, whatever older list the cache still holds. */
  lemma CacheRefinesRecomputation(r: Router, events: seq<Event>, n: int, safe: string -> bool)
    requires n !in r.subnets && n !in r.cache && forall e | e in events :: !Registers(e, n)
    requires forall f | f in FetchesOf(events, n) && f.Returns? :: f.mono >= 0.0
    ensures var r' := Exec(Apply(r, Register(n), safe), events, safe);
      var published := Publications(FetchesOf(events, n));
      && n in r'.subnets
      && (published == [] ==> r'.subnets[n].metagraph.None?)
      && (published != [] ==>
            var latest := published[|published| - 1];
            && r'.subnets[n].metagraph.Some? && latest.Returns?
            && ServesRanking(Serves(r', n, safe), latest.metagraph.size, latest.metagraph.neurons, safe))
  {
    var r0 := Apply(r, Register(n), safe);
    CacheStaysOk(r0, events, n, safe);
    SyncStateFollows(r0, events, n, safe);
    SyncStateIsHistory(FetchesOf(events, n));
    var s := Exec(r0, events, safe).subnets[n];
    if s.metagraph.Some? && Readable(s.metagraph.value) {
      RankedIsRanking(Listed(s.metagraph.value), safe);
    }
  }

  function Neurons(ns: seq<Neuron>): Fetch {
    Returns(Metagraph(Number(|ns|), ns), 0.0, 0.0)
  }

  function OneMiner(ip: string): seq<Neuron> {
    [Neuron(1.0, 1.0, Axon(ip, 1, ""))]
  }

  lemma OneMinerRanks(ip: string, safe: string -> bool)
    requires ip != "" && safe(ip)
    ensures Ranked(OneMiner(ip), safe) != []
  {
    var m := OneMiner(ip);
    RankedIsRanking(m, safe);
    assert Qualifies(CandidateOf(m, 0), m, safe);
  }

  const NOTHING := Router(map[], map[])

  /** Register, sync well, select. */
  lemma FirstSelection(n: int, ip: string, safe: string -> bool) returns (events: seq<Event>, r: Router)
    requires ip != "" && safe(ip)
    ensures |events| == 3 && Exec(NOTHING, events, safe) == r && CacheOk(r, n, safe)
    ensures r == Router(map[n := Synced(UNSYNCED, Neurons(OneMiner(ip)))], map[n := Cached(1, Ranked(OneMiner(ip), safe))])
  {
    var sync := SyncOne(n, Neurons(OneMiner(ip)));
    ExecNext(NOTHING, [], Register(n), safe);
    ExecNext(NOTHING, [] + [Register(n)], sync, safe);
    ExecNext(NOTHING, [] + [Register(n)] + [sync], Select(n), safe);
    events := [] + [Register(n)] + [sync] + [Select(n)];
    var r1 := Router(map[n := UNSYNCED], map[]);
    var r2 := Router(map[n := Synced(UNSYNCED, sync.fetch)], map[]);
    assert Listed(sync.fetch.metagraph) == OneMiner(ip);
    assert Exec(NOTHING, [] + [Register(n)], safe) == r1;
    assert Exec(NOTHING, [] + [Register(n)] + [sync], safe) == r2;
    r := Apply(r2, Select(n), safe);
  }

  /** After a good sync and a selection, a metagraph that cannot be read makes selections raise although the
      cache still holds the good list. */
  lemma GoodListDoesNotHelp(n: int, ip: string, error: string, safe: string -> bool) returns (events: seq<Event>)
    requires ip != "" && safe(ip)
    ensures var r := Exec(NOTHING, events, safe);
      && n in r.subnets && r.subnets[n].metagraph.Some? && n in r.cache
      && r.cache[n].eligible != [] && Serves(r, n, safe).None?
  {
    var bad := SyncOne(n, Returns(Metagraph(NotANumber(error), []), 1.0, 1.0));
    var before, r := FirstSelection(n, ip, safe);
    OneMinerRanks(ip, safe);
    ExecNext(NOTHING, before, bad, safe);
    events := before + [bad];
  }

  // ---------- registering a subnet again ----------

  ghost predicate AlwaysCurrent(r: Router, n: int, safe: string -> bool) {
    forall events: seq<Event> | (forall e | e in events :: !Registers(e, n)) :: UsesCurrent(Exec(r, events, safe), n, safe)
  }

  function Syncs(n: int, f: Fetch, k: nat): (events: seq<Event>)
    ensures |events| == k && forall e | e in events :: !Registers(e, n)
  {
    if k == 0 then [] else Syncs(n, f, k - 1) + [SyncOne(n, f)]
  }

  lemma {:induction false} AfterSyncs(r: Router, n: int, ns: seq<Neuron>, k: nat, safe: string -> bool)
    requires n in r.subnets && r.subnets[n] == UNSYNCED
    ensures var r' := Exec(r, Syncs(n, Neurons(ns), k), safe);
      r'.cache == r.cache && n in r'.subnets && r'.subnets[n].generation == k
      && (k > 0 ==> r'.subnets[n].metagraph == Some(Neurons(ns).metagraph))
  {
    if k > 0 {
      AfterSyncs(r, n, ns, k - 1, safe);
      ExecNext(r, Syncs(n, Neurons(ns), k - 1), SyncOne(n, Neurons(ns)), safe);
    }
  }

  /** Syncing up to the generation of the old cache entry makes selections use its list. */
  lemma OldEntryResurfaces(r0: Router, n: int, safe: string -> bool, ip: string)
    requires n in r0.subnets && r0.subnets[n] == UNSYNCED && n in r0.cache && r0.cache[n].generation >= 1
    requires ip != "" && safe(ip)
    ensures !AlwaysCurrent(r0, n, safe)
  {
    var stale := r0.cache[n];
    var ns := if stale.eligible == [] then OneMiner(ip) else [];
    OneMinerRanks(ip, safe);
    assert Listed(Neurons(ns).metagraph) == ns && Ranked([], safe) == [];
    AfterSyncs(r0, n, ns, stale.generation, safe);
    assert !UsesCurrent(Exec(r0, Syncs(n, Neurons(ns), stale.generation), safe), n, safe);
  }

  /** Registering a subnet again restarts its generations, so an old cache entry can be mistaken for a
      current one.  The cache survives a second registration exactly when it holds nothing for the subnet. */
  lemma ReRegistrationSafeExactlyWhen(r: Router, n: int, safe: string -> bool, ip: string)
    requires CacheOk(r, n, safe) && n in r.subnets && ip != "" && safe(ip)
    ensures AlwaysCurrent(Apply(r, Register(n), safe), n, safe) <==> n !in r.cache
  {
    var r0 := Apply(r, Register(n), safe);
    if n in r.cache {
      OldEntryResurfaces(r0, n, safe, ip);
    } else {
      forall events: seq<Event> | forall e | e in events :: !Registers(e, n)
        ensures UsesCurrent(Exec(r0, events, safe), n, safe)
      {
        CacheStaysOk(r0, events, n, safe);
      }
    }
  }

  /** The failing case arises in four calls: register, sync, select, register again. */
  lemma SecondRegistrationMisleads(n: int, ip: string, safe: string -> bool) returns (events: seq<Event>)
    requires ip != "" && safe(ip)
    ensures |events| == 4 && !AlwaysCurrent(Exec(NOTHING, events, safe), n, safe)
  {
    var before, r := FirstSelection(n, ip, safe);
    ReRegistrationSafeExactlyWhen(r, n, safe, ip);
    ExecNext(NOTHING, before, Register(n), safe);
    events := before + [Register(n)];
  }
}
