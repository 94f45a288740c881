/** Per-subnet metagraph state and its synchronization. */
module MetagraphSync {
  import opened Options

  const DEFAULT_STALENESS_SECONDS := 300.0

  datatype Axon = Axon(ip: string, port: int, hotkey: string)

  datatype Neuron = Neuron(incentive: real, stake: real, axon: Axon)

  /** What converting a metagraph's size to an integer gives. */
  datatype Size = Number(n: int) | NotANumber(error: string)

  /** Neurons by uid, next to a size that is a field of its own. */
  datatype Metagraph = Metagraph(size: Size, neurons: seq<Neuron>)

  /** How the subtensor call of one sync ends; `Cancelled` is a CancelledError, which nothing catches. */
  datatype Fetch =
    | Returns(metagraph: Metagraph, wall: real, mono: real)
    | Raises(error: string)
    | Cancelled

  /** What a sync logs. */
  datatype Report = Success(neurons: int) | Failure(error: string) | Nothing

  function ReportOf(f: Fetch): Report {
    match f
    case Returns(m, _, _) => (match m.size case Number(n) => Success(n) case NotANumber(error) => Failure(error))
    case Raises(error) => Failure(error)
    case Cancelled => Nothing
  }

  datatype Sync = Sync(metagraph: Option<Metagraph>, lastSyncTime: real, lastSyncMono: real, lastSyncError: Option<string>,
                       consecutiveFailures: nat, generation: nat)

  const UNSYNCED := Sync(None, 0.0, -1.0, None, 0, 0)

  function Published(s: Sync, metagraph: Metagraph, wall: real, mono: real): Sync {
    Sync(Some(metagraph), wall, mono, None, 0, s.generation + 1)
  }

  function Refused(s: Sync, error: string): Sync {
    s.(consecutiveFailures := s.consecutiveFailures + 1, lastSyncError := Some(error))
  }

  /** A returned metagraph is published before its size is converted for the log line. */
  function Synced(s: Sync, f: Fetch): Sync {
    match f
    case Returns(m, wall, mono) =>
      var published := Published(s, m, wall, mono);
      if m.size.Number? then published else Refused(published, m.size.error)
    case Raises(error) => Refused(s, error)
    case Cancelled => s
  }

  predicate IsStale(s: Sync, threshold: real, now: real) {
    s.metagraph.None? || s.lastSyncMono < 0.0 || now - s.lastSyncMono > threshold
  }

  class SubnetMetagraphState {
    const netuid: int
    var metagraph: Option<Metagraph>
    var lastSyncTime: real
    var lastSyncMono: real
    var lastSyncError: Option<string>
    var consecutiveFailures: nat
    const stalenessThreshold: real
    var syncGeneration: nat

    constructor (netuid: int)
      ensures View() == UNSYNCED == Sync(None, 0.0, -1.0, None, 0, 0) && this.netuid == netuid && stalenessThreshold == 300.0
    {
      this.netuid := netuid;
      metagraph, lastSyncTime, lastSyncMono, lastSyncError := None, 0.0, -1.0, None;
      consecutiveFailures, syncGeneration := 0, 0;
      stalenessThreshold := DEFAULT_STALENESS_SECONDS;
    }

    function View(): Sync
      reads this
    {
      Sync(metagraph, lastSyncTime, lastSyncMono, lastSyncError, consecutiveFailures, syncGeneration)
    }
  }

  class MetagraphManager {
    var subnets: map<int, SubnetMetagraphState>

    constructor ()
      ensures subnets == map[]
    {
      subnets := map[];
    }

    /** Every registered subnet has a state object of its own. */
    ghost predicate Valid()
      reads this
    {
      forall a, b | a in subnets && b in subnets && a != b :: subnets[a] != subnets[b]
    }

    function Views(): map<int, Sync>
      reads this, subnets.Values
    {
      map n | n in subnets :: subnets[n].View()
    }

    method RegisterSubnet(netuid: int)
      requires Valid()
      modifies this
      ensures Valid() && Views() == old(Views())[netuid := UNSYNCED]
    {
      var state := new SubnetMetagraphState(netuid);
      subnets := subnets[netuid := state];
    }

    /** `Synced` one field at a time, and what is logged.  A returned metagraph is published even when its
        size cannot be logged, which then counts as the first failure since. */
    method SyncSubnet(netuid: int, f: Fetch) returns (report: Report)
      requires Valid() && netuid in subnets
      modifies subnets[netuid]
      ensures Valid() && Views() == old(Views())[netuid := Synced(old(Views())[netuid], f)]
      ensures report == ReportOf(f)
      ensures var (s, s') := (old(Views())[netuid], Views()[netuid]);
        match f
        case Returns(m, wall, mono) =>
          && s'.metagraph == Some(m) && s'.lastSyncTime == wall && s'.lastSyncMono == mono
          && s'.generation == s.generation + 1
          && (match m.size
              case Number(n) => report == Success(n) && s'.consecutiveFailures == 0 && s'.lastSyncError == None
              case NotANumber(error) =>
                report == Failure(error) && s'.consecutiveFailures == 1 && s'.lastSyncError == Some(error))
        case Raises(error) =>
          && report == Failure(error) && s'.consecutiveFailures == s.consecutiveFailures + 1
          && s'.lastSyncError == Some(error) && s'.metagraph == s.metagraph && s'.generation == s.generation
          && s'.lastSyncTime == s.lastSyncTime && s'.lastSyncMono == s.lastSyncMono
        case Cancelled => report == Nothing && s' == s
    {
      var state := subnets[netuid];
      report := Nothing;
      match f {
        case Returns(metagraph, wall, mono) =>
          state.metagraph := Some(metagraph);
          state.lastSyncTime := wall;
          state.lastSyncMono := mono;
          state.lastSyncError := None;
          state.consecutiveFailures := 0;
          state.syncGeneration := state.syncGeneration + 1;
          report := match metagraph.size case Number(n) => Success(n) case NotANumber(error) => Failure(error);
        case Raises(error) =>
          report := Failure(error);
        case Cancelled =>
      }
      if report.Failure? {
        state.consecutiveFailures := state.consecutiveFailures + 1;
        state.lastSyncError := Some(report.error);
      }
      assert state.View() == Synced(old(state.View()), f);
      assert forall n | n in subnets && n != netuid :: subnets[n].View() == old(subnets[n].View());
    }

    /** Every subnet syncs once, in any order, none disturbing another. */
    method SyncAll(fetches: map<int, Fetch>)
      requires Valid() && fetches.Keys == subnets.Keys
      modifies subnets.Values
      ensures Valid() && subnets == old(subnets)
      ensures forall n | n in subnets :: Views()[n] == Synced(old(Views())[n], fetches[n])
    {
      var todo := subnets.Keys;
      while todo != {}
        invariant todo <= subnets.Keys && subnets == old(subnets)
        invariant forall n | n in subnets ::
          Views()[n] == if n in todo then old(Views())[n] else Synced(old(Views())[n], fetches[n])
        decreases todo
      {
        SomeMember(todo);
        var n :| n in todo;
        todo := todo - {n};
        var _ := SyncSubnet(n, fetches[n]);
      }
    }
  }

  // ---------- runs of one subnet ----------

  function After(fetches: seq<Fetch>): Sync {
    if fetches == [] then UNSYNCED else Synced(After(fetches[..|fetches| - 1]), fetches[|fetches| - 1])
  }

  lemma AfterNext(fetches: seq<Fetch>, f: Fetch)
    ensures After(fetches + [f]) == Synced(After(fetches), f)
  {
    assert (fetches + [f])[..|fetches|] == fetches;
  }

  function Publications(fetches: seq<Fetch>): seq<Fetch> {
    if fetches == [] then []
    else
      var (before, f) := (Publications(fetches[..|fetches| - 1]), fetches[|fetches| - 1]);
      if f.Returns? then before + [f] else before
  }

  /** Failures since the last publication, whose own failure counts. */
  function FailuresSince(fetches: seq<Fetch>): nat {
    if fetches == [] then 0
    else
      var (before, f) := (fetches[..|fetches| - 1], fetches[|fetches| - 1]);
      match f
      case Returns(m, _, _) => if m.size.Number? then 0 else 1
      case Raises(_) => FailuresSince(before) + 1
      case Cancelled => FailuresSince(before)
  }

  /** The error of the last sync that was not cancelled, if it failed. */
  function LastError(fetches: seq<Fetch>): Option<string> {
    if fetches == [] then None
    else
      var (before, f) := (fetches[..|fetches| - 1], fetches[|fetches| - 1]);
      match f
      case Returns(m, _, _) => if m.size.Number? then None else Some(m.size.error)
      case Raises(error) => Some(error)
      case Cancelled => LastError(before)
  }

  /** The counters mean what they say, and the metagraph served is always the latest published one. */
  lemma {:induction false} SyncStateIsHistory(fetches: seq<Fetch>)
    requires forall f | f in fetches && f.Returns? :: f.mono >= 0.0
    ensures var s := After(fetches); var published := Publications(fetches);
      && s.generation == |published| && s.consecutiveFailures == FailuresSince(fetches)
      && s.lastSyncError == LastError(fetches)
      && (s.metagraph.Some? <==> s.generation > 0) && (s.lastSyncMono >= 0.0 <==> s.generation > 0)
      && (published != [] ==>
            var last := published[|published| - 1];
            last.Returns? && s.metagraph == Some(last.metagraph) && s.lastSyncMono == last.mono && last.mono >= 0.0
            && s.lastSyncTime == last.wall)
  {
    if fetches != [] {
      var before, f := fetches[..|fetches| - 1], fetches[|fetches| - 1];
      assert forall g | g in before :: g in fetches;
      SyncStateIsHistory(before);
      assert f in fetches;
    }
  }

  /** Stale means: nothing published yet, or the latest publication is older than the threshold. */
  lemma StaleExactlyWhen(fetches: seq<Fetch>, threshold: real, now: real)
    requires forall f | f in fetches && f.Returns? :: f.mono >= 0.0
    ensures IsStale(After(fetches), threshold, now) <==>
      var published := Publications(fetches);
      published == [] || !(published[|published| - 1].Returns? && now - published[|published| - 1].mono <= threshold)
  {
    SyncStateIsHistory(fetches);
  }

  /** Sync `i` either was not reported failed or left metagraph, generation and staleness clock alone. */
  predicate HarmlessAt(fetches: seq<Fetch>, i: nat)
    requires i < |fetches|
  {
    var s, s' := After(fetches[..i]), After(fetches[..i + 1]);
    ReportOf(fetches[i]).Failure? ==>
      (s'.metagraph, s'.generation, s'.lastSyncMono) == (s.metagraph, s.generation, s.lastSyncMono)
  }

  predicate Countable(f: Fetch) {
    f.Returns? ==> f.metagraph.size.Number?
  }

  /** In a run no sync reported as failed has disturbed what is served if and only if every metagraph that
      was returned had a size that converts to an integer. */
  lemma FailuresHarmlessExactlyWhen(fetches: seq<Fetch>)
    ensures (forall i | 0 <= i < |fetches| :: HarmlessAt(fetches, i)) <==> forall f | f in fetches :: Countable(f)
  {
    forall i | 0 <= i < |fetches| ensures HarmlessAt(fetches, i) <==> Countable(fetches[i]) {
      assert fetches[..i + 1][..i] == fetches[..i];
      assert After(fetches[..i + 1]) == Synced(After(fetches[..i]), fetches[i]);
    }
    if f :| f in fetches && !Countable(f) {
      var i :| 0 <= i < |fetches| && fetches[i] == f;
      assert !HarmlessAt(fetches, i);
    }
  }
}
