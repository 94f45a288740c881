/** The limiter over three windows at once: a request passes only if the minute, the day and the month
    all have room, and one that is refused is charged to none of them.

    The script runs atomically.  Redis rounds the time left to the nearest second, and the caller reads
    its clock in whole seconds once before and once after the script, so what a refused client is told
    to wait can be too short: `RetrySufficesExactlyWhen` says when it is not.
 */
module RateWindows {
  import opened Options
  import opened RateLimit
  import opened RateLimitRuns

  datatype Tier = Minute | Day | Month

  function WindowOf(t: Tier): real {
    match t
    case Minute => 60.0
    case Day => 86400.0
    case Month => 2592000.0
  }

  datatype Limits = Limits(minute: int, day: int, month: int) {
    function Of(t: Tier): int {
      match t
      case Minute => minute
      case Day => day
      case Month => month
    }
  }

  /** The counters of one key on one subnet. */
  type Counters = map<Tier, Counter>

  function Count(counters: Counters, t: Tier, now: real): nat {
    if t in counters && now < counters[t].expires then counters[t].count else 0
  }

  /** What Redis answers for the time left: whole seconds, rounded; none if there is no counter. */
  function Ttl(counters: Counters, t: Tier, now: real): int {
    if t in counters && now < counters[t].expires then (counters[t].expires - now + 0.5).Floor else 0
  }

  predicate Exhausted(counters: Counters, limits: Limits, t: Tier, now: real) {
    Count(counters, t, now) >= limits.Of(t)
  }

  predicate Passes(counters: Counters, limits: Limits, now: real) {
    forall t: Tier :: !Exhausted(counters, limits, t, now)
  }

  /** Every tier counts an admitted request as a single-window limiter would. */
  function Charged(counters: Counters, now: real): Counters {
    map t: Tier :: Increment(Get(counters, t), now, WindowOf(t))
  }

  /** One window as the reply reports it, with its reset in whole seconds. */
  datatype Window = Window(limit: int, remaining: int, reset: int)

  datatype Reply = Reply(allowed: bool, windows: seq<Window>, tightest: Window, retryAfter: int)

  predicate LatestReset(w: Window, windows: seq<Window>) {
    w in windows && w.remaining <= 0 && forall v | v in windows && v.remaining <= 0 :: v.reset <= w.reset
  }

  predicate LeastRemaining(w: Window, windows: seq<Window>) {
    w in windows && forall v | v in windows :: w.remaining <= v.remaining
  }

  /** Refused: the exhausted window that resets last, with nothing remaining.  Otherwise: the fullest window. */
  ghost predicate MostRestrictive(windows: seq<Window>, allowed: bool, now: int, tightest: Window, retryAfter: int) {
    if !allowed && exists v :: v in windows && v.remaining <= 0
    then exists w :: LatestReset(w, windows) && tightest == w.(remaining := 0) &&
           retryAfter == if w.reset > now then w.reset - now else 0
    else LeastRemaining(tightest, windows) && retryAfter == 0
  }

  /** `now` is the clock's whole second, read anew. */
  method ComputeMostRestrictive(windows: seq<Window>, allowed: bool, now: int) returns (tightest: Window, retryAfter: int)
    requires windows != []
    ensures MostRestrictive(windows, allowed, now, tightest, retryAfter)
  {
    var latest: Option<Window> := None;
    var least := windows[0];
    for i := 0 to |windows|
      invariant latest.None? <==> forall v | v in windows[..i] :: v.remaining > 0
      invariant latest.Some? ==> LatestReset(latest.value, windows[..i])
      invariant if i == 0 then least == windows[0] else LeastRemaining(least, windows[..i])
    {
      var w := windows[i];
      assert windows[..i + 1] == windows[..i] + [w];
      if w.remaining <= 0 && (latest.None? || w.reset > latest.value.reset) {
        latest := Some(w);
      }
      if w.remaining < least.remaining {
        least := w;
      }
    }
    assert windows[..|windows|] == windows;
    if latest.Some? && !allowed {
      tightest := latest.value.(remaining := 0);
      retryAfter := if tightest.reset > now then tightest.reset - now else 0;
    } else {
      tightest, retryAfter := least, 0;
    }
  }

  class TieredLimiter {
    var store: map<string, Counters>

    constructor ()
      ensures store == map[]
    {
      store := map[];
    }

    function CountersOf(id: string): Counters
      reads this
    {
      if id in store then store[id] else map[]
    }

    /** The script: read all three, then either charge all three or none. */
    method RunScript(id: string, limits: Limits, now: real) returns (allowed: bool)
      modifies this
      ensures allowed == Passes(old(CountersOf(id)), limits, now)
      ensures store == if allowed then old(store)[id := Charged(old(CountersOf(id)), now)] else old(store)
    {
      var counters := CountersOf(id);
      var minute, day, month := Count(counters, Minute, now), Count(counters, Day, now), Count(counters, Month, now);
      assert minute >= limits.minute <==> Exhausted(counters, limits, Minute, now);
      assert day >= limits.day <==> Exhausted(counters, limits, Day, now);
      assert month >= limits.month <==> Exhausted(counters, limits, Month, now);
      if minute >= limits.minute || day >= limits.day || month >= limits.month {
        return false;
      }
      var forMinute := Bump(counters, Minute, now);
      var forDay := Bump(counters, Day, now);
      var forMonth := Bump(counters, Month, now);
      store := store[id := map[Minute := forMinute, Day := forDay, Month := forMonth]];
      assert store[id] == Charged(counters, now);
      return true;
    }

    /** INCR, and EXPIRE when that created the counter. */
    static method Bump(counters: Counters, t: Tier, now: real) returns (c: Counter)
      ensures c == Increment(Get(counters, t), now, WindowOf(t))
    {
      var count := Count(counters, t, now) + 1;
      if count == 1 {
        c := Counter(1, now + WindowOf(t));
      } else {
        c := Counter(count, counters[t].expires);
      }
    }

    /** The clock says `asked` before the script, which runs at `now`, and `replied` afterwards. */
    method CheckRateLimit(id: string, limits: Limits, asked: real, now: real, replied: real) returns (reply: Reply)
      requires asked <= now <= replied
      modifies this
      ensures reply.allowed == Passes(old(CountersOf(id)), limits, now)
      ensures store == if reply.allowed then old(store)[id := Charged(old(CountersOf(id)), now)] else old(store)
      ensures reply.windows == WindowsOf(CountersOf(id), limits, asked, now)
      ensures MostRestrictive(reply.windows, reply.allowed, replied.Floor, reply.tightest, reply.retryAfter)
    {
      var allowed := RunScript(id, limits, now);
      var windows := WindowsOf(CountersOf(id), limits, asked, now);
      var tightest, retryAfter := ComputeMostRestrictive(windows, allowed, replied.Floor);
      reply := Reply(allowed, windows, tightest, retryAfter);
    }
  }

  function WindowsOf(counters: Counters, limits: Limits, asked: real, now: real): seq<Window> {
    [ReportOf(counters, limits, Minute, asked, now), ReportOf(counters, limits, Day, asked, now),
     ReportOf(counters, limits, Month, asked, now)]
  }

  function ReportOf(counters: Counters, limits: Limits, t: Tier, asked: real, now: real): Window {
    Window(limits.Of(t), limits.Of(t) - Count(counters, t, now), asked.Floor + Ttl(counters, t, now))
  }

  // ---------- what the three windows do ----------

  /** Fewer than `limit` requests are counted in a window still open. */
  predicate Room(c: Option<Counter>, limit: int, now: real) {
    if c.None? || now >= c.value.expires then 0 < limit else c.value.count < limit
  }

  /** The first request opens a window of the given length; later ones are counted in it. */
  predicate Counts(before: Option<Counter>, after: Option<Counter>, now: real, length: real) {
    after == Some(if before.None? || now >= before.value.expires then Counter(1, now + length)
                  else Counter(before.value.count + 1, before.value.expires))
  }

  /** A window not open shows the full limit; an open one what is left of it, and when it closes, to half a second. */
  predicate Shows(w: Window, c: Option<Counter>, limit: int, asked: real, now: real) {
    if c.None? || now >= c.value.expires then w == Window(limit, limit, asked.Floor)
    else
      && w.limit == limit && w.remaining == limit - c.value.count
      && var closes := asked.Floor as real + (c.value.expires - now);
        closes - 0.5 < w.reset as real <= closes + 0.5
  }

  /** A minute, a day and thirty days: who is let in, what is charged, and what is shown. */
  lemma ThreeWindows(counters: Counters, limits: Limits, asked: real, now: real)
    ensures Passes(counters, limits, now) <==>
      && Room(Get(counters, Minute), limits.minute, now)
      && Room(Get(counters, Day), limits.day, now)
      && Room(Get(counters, Month), limits.month, now)
    ensures var charged := Charged(counters, now);
      && Counts(Get(counters, Minute), Get(charged, Minute), now, 60.0)
      && Counts(Get(counters, Day), Get(charged, Day), now, 86400.0)
      && Counts(Get(counters, Month), Get(charged, Month), now, 2592000.0)
    ensures var windows := WindowsOf(counters, limits, asked, now);
      && |windows| == 3
      && Shows(windows[0], Get(counters, Minute), limits.minute, asked, now)
      && Shows(windows[1], Get(counters, Day), limits.day, asked, now)
      && Shows(windows[2], Get(counters, Month), limits.month, asked, now)
  {
    assert Passes(counters, limits, now) <==>
      !Exhausted(counters, limits, Minute, now) && !Exhausted(counters, limits, Day, now) && !Exhausted(counters, limits, Month, now);
  }

  /** An admitted request leaves one less in every window, never less than nothing, and a refused one finds a
      window with nothing left. */
  lemma AdmissionCostsOne(counters: Counters, limits: Limits, asked: real, now: real)
    ensures var (before, after) := (WindowsOf(counters, limits, asked, now), WindowsOf(Charged(counters, now), limits, asked, now));
      if Passes(counters, limits, now)
      then forall i | 0 <= i < 3 :: 0 <= after[i].remaining == before[i].remaining - 1
      else exists w :: w in before && w.remaining <= 0
  {
    ThreeWindows(counters, limits, asked, now);
    ThreeWindows(Charged(counters, now), limits, asked, now);
    var before := WindowsOf(counters, limits, asked, now);
    assert before[0] in before && before[1] in before && before[2] in before;
  }

  // ---------- when to come back ----------

  predicate AllAtLeastOne(limits: Limits) {
    limits.minute >= 1 && limits.day >= 1 && limits.month >= 1
  }

  /** How long an exhausted tier stays so. */
  function Left(counters: Counters, limits: Limits, t: Tier, now: real): real {
    if Exhausted(counters, limits, t, now) && t in counters && now < counters[t].expires
    then counters[t].expires - now else 0.0
  }

  function Later(x: real, y: real): real {
    if x >= y then x else y
  }

  /** The time until every tier has room again. */
  function Wait(counters: Counters, limits: Limits, now: real): real {
    Later(Left(counters, limits, Minute, now), Later(Left(counters, limits, Day, now), Left(counters, limits, Month, now)))
  }

  /** A tier stays exhausted until its counter expires, and no longer, unless it never lets anyone in. */
  lemma ExhaustedUntil(counters: Counters, limits: Limits, t: Tier, now: real, later: real)
    requires now <= later && limits.Of(t) >= 1
    ensures Exhausted(counters, limits, t, later) <==> Exhausted(counters, limits, t, now) && later < now + Left(counters, limits, t, now)
  {
  }

  /** Left alone, the limiter opens after exactly that time. */
  lemma OpensAfterWait(counters: Counters, limits: Limits, now: real, later: real)
    requires now <= later && AllAtLeastOne(limits)
    ensures Passes(counters, limits, later) <==> Passes(counters, limits, now) || later >= now + Wait(counters, limits, now)
  {
    forall t: Tier ensures Exhausted(counters, limits, t, later) <==>
      Exhausted(counters, limits, t, now) && later < now + Left(counters, limits, t, now)
    {
      assert limits.Of(t) >= 1;
      ExhaustedUntil(counters, limits, t, now, later);
    }
    if !Passes(counters, limits, now) && later < now + Wait(counters, limits, now) {
      var t := if Wait(counters, limits, now) == Left(counters, limits, Minute, now) then Minute
               else if Wait(counters, limits, now) == Left(counters, limits, Day, now) then Day else Month;
      assert Exhausted(counters, limits, t, later);
    }
  }

  lemma ShutForGood(counters: Counters, limits: Limits, later: real)
    requires !AllAtLeastOne(limits)
    ensures !Passes(counters, limits, later)
  {
    var shut := if limits.minute < 1 then Minute else if limits.day < 1 then Day else Month;
    assert Exhausted(counters, limits, shut, later);
  }

  /** Redis's rounding of a duration. */
  function Rounded(x: real): (n: int)
    ensures x - 0.5 < n as real <= x + 0.5
  {
    (x + 0.5).Floor
  }

  lemma RoundedMonotone(x: real, y: real)
    requires x <= y
    ensures Rounded(x) <= Rounded(y)
  {
  }

  lemma TtlIsRounded(counters: Counters, limits: Limits, t: Tier, now: real)
    requires Exhausted(counters, limits, t, now)
    ensures Ttl(counters, t, now) == Rounded(Left(counters, limits, t, now)) <= Rounded(Wait(counters, limits, now))
  {
    RoundedMonotone(Left(counters, limits, t, now), Wait(counters, limits, now));
  }

  /** The exhausted window that resets last is reported to do so after the rounded wait. */
  lemma LatestResetIsRoundedWait(counters: Counters, limits: Limits, asked: real, now: real, w: Window)
    requires !Passes(counters, limits, now) && LatestReset(w, WindowsOf(counters, limits, asked, now))
    ensures w.reset == asked.Floor + Rounded(Wait(counters, limits, now))
  {
    var windows := WindowsOf(counters, limits, asked, now);
    var last := LastTier(counters, limits, now);
    TtlIsRounded(counters, limits, last, now);
    assert ReportOf(counters, limits, last, asked, now) in windows;
    var t := if w == windows[0] then Minute else if w == windows[1] then Day else Month;
    TtlIsRounded(counters, limits, t, now);
  }

  /** A refused client is told the rounded wait, less the seconds that ticked by between the clock reads. */
  lemma RetryIsRoundedWait(counters: Counters, limits: Limits, asked: real, now: real, replied: int, tightest: Window,
                           retryAfter: int)
    requires !Passes(counters, limits, now)
    requires MostRestrictive(WindowsOf(counters, limits, asked, now), false, replied, tightest, retryAfter)
    ensures var due := asked.Floor + Rounded(Wait(counters, limits, now)) - replied;
      retryAfter == if due > 0 then due else 0
  {
    var windows := WindowsOf(counters, limits, asked, now);
    var full: Tier :| Exhausted(counters, limits, full, now);
    assert ReportOf(counters, limits, full, asked, now) in windows;
    var w :| LatestReset(w, windows) && tightest == w.(remaining := 0) &&
      retryAfter == if w.reset > replied then w.reset - replied else 0;
    LatestResetIsRoundedWait(counters, limits, asked, now, w);
  }

  lemma LastTier(counters: Counters, limits: Limits, now: real) returns (t: Tier)
    requires !Passes(counters, limits, now)
    ensures Exhausted(counters, limits, t, now) && Left(counters, limits, t, now) == Wait(counters, limits, now)
  {
    var full: Tier :| Exhausted(counters, limits, full, now);
    t := if Wait(counters, limits, now) == 0.0 then full
         else if Wait(counters, limits, now) == Left(counters, limits, Minute, now) then Minute
         else if Wait(counters, limits, now) == Left(counters, limits, Day, now) then Day else Month;
  }

  /** A client that has the reply at `replied` or later and then waits as told is let in. */
  ghost predicate RetrySuffices(counters: Counters, limits: Limits, replied: real, retryAfter: int) {
    forall back | back >= replied + retryAfter as real :: Passes(counters, limits, back)
  }

  /** What rounding down and the ticks between the clock reads take off is made up by the way to the client. */
  predicate DelayMakesUp(wait: real, ticks: int, delay: real) {
    if ticks <= Rounded(wait) then wait - Rounded(wait) as real + ticks as real <= delay else wait <= delay
  }

  /** Waiting as told suffices if and only if every limit is at least one and the delay from script to reply
      makes up for the rounding and for the seconds that ticked by between the two clock reads. */
  lemma RetrySufficesExactlyWhen(counters: Counters, limits: Limits, asked: real, now: real, replied: real,
                                 tightest: Window, retryAfter: int)
    requires asked <= now <= replied && !Passes(counters, limits, now)
    requires MostRestrictive(WindowsOf(counters, limits, asked, now), false, replied.Floor, tightest, retryAfter)
    ensures RetrySuffices(counters, limits, replied, retryAfter) <==>
      AllAtLeastOne(limits) && DelayMakesUp(Wait(counters, limits, now), replied.Floor - asked.Floor, replied - now)
  {
    var soonest := replied + retryAfter as real;
    RetryIsRoundedWait(counters, limits, asked, now, replied.Floor, tightest, retryAfter);
    if AllAtLeastOne(limits) {
      forall back | back >= soonest
        ensures Passes(counters, limits, back) <==> back >= now + Wait(counters, limits, now)
      {
        OpensAfterWait(counters, limits, now, back);
      }
      assert Passes(counters, limits, soonest) <==> soonest >= now + Wait(counters, limits, now);
    } else {
      ShutForGood(counters, limits, soonest);
    }
  }

  /** The retry time differs from the wait by rounding and ticks only. */
  lemma RetryBounds(counters: Counters, limits: Limits, asked: real, now: real, replied: real, tightest: Window,
                    retryAfter: int)
    requires asked <= replied && !Passes(counters, limits, now)
    requires MostRestrictive(WindowsOf(counters, limits, asked, now), false, replied.Floor, tightest, retryAfter)
    ensures var wait := Wait(counters, limits, now);
      && (retryAfter >= 1 ==> retryAfter as real <= wait + 0.5)
      && wait <= (retryAfter + 1 + (replied.Floor - asked.Floor)) as real
  {
    RetryIsRoundedWait(counters, limits, asked, now, replied.Floor, tightest, retryAfter);
  }

  /** Waiting one second more, and one for each tick between the clock reads, always suffices. */
  lemma GraceSuffices(counters: Counters, limits: Limits, asked: real, now: real, replied: real, tightest: Window,
                      retryAfter: int, back: real)
    requires asked <= now <= replied <= back && !Passes(counters, limits, now) && AllAtLeastOne(limits)
    requires MostRestrictive(WindowsOf(counters, limits, asked, now), false, replied.Floor, tightest, retryAfter)
    ensures Passes(counters, limits, back + (retryAfter + 1 + (replied.Floor - asked.Floor)) as real)
  {
    var extra := (retryAfter + 1 + (replied.Floor - asked.Floor)) as real;
    RetryBounds(counters, limits, asked, now, replied, tightest, retryAfter);
    WaitedLongEnough(counters, limits, now, back, extra);
  }

  lemma WaitedLongEnough(counters: Counters, limits: Limits, now: real, back: real, extra: real)
    requires now <= back && AllAtLeastOne(limits) && 0.0 <= Wait(counters, limits, now) <= extra
    ensures Passes(counters, limits, back + extra)
  {
    OpensAfterWait(counters, limits, now, back + extra);
  }

  lemma CameTooEarly(counters: Counters, limits: Limits, now: real, back: real)
    requires now <= back < now + Wait(counters, limits, now) && !Passes(counters, limits, now)
    ensures !Passes(counters, limits, back)
  {
    if AllAtLeastOne(limits) {
      OpensAfterWait(counters, limits, now, back);
    } else {
      ShutForGood(counters, limits, back);
    }
  }

  /** And when the reply takes less than half a second, one second less is too early. */
  lemma OneSecondLessIsTooEarly(counters: Counters, limits: Limits, asked: real, now: real, replied: real,
                                tightest: Window, retryAfter: int)
    requires asked <= now <= replied < now + 0.5 && !Passes(counters, limits, now) && retryAfter >= 1
    requires MostRestrictive(WindowsOf(counters, limits, asked, now), false, replied.Floor, tightest, retryAfter)
    ensures !Passes(counters, limits, replied + (retryAfter - 1) as real)
  {
    RetryBounds(counters, limits, asked, now, replied, tightest, retryAfter);
    CameTooEarly(counters, limits, now, replied + (retryAfter - 1) as real);
  }

  // ---------- clients that come back too early ----------

  const FREE_TIER := Limits(10, 100, 1000)

  /** The minute is full, with 59.4 seconds to go. */
  function FullMinute(now: real): Counters {
    map[Minute := Counter(10, now + 59.4)]
  }

  lemma FullMinuteWaits(now: real)
    ensures !Passes(FullMinute(now), FREE_TIER, now) && Wait(FullMinute(now), FREE_TIER, now) == 59.4
  {
    assert Exhausted(FullMinute(now), FREE_TIER, Minute, now);
  }

  /** Even an instant reply of 59 seconds sends the client back while it is still refused. */
  lemma RoundedDownIsTooEarly(tightest: Window, retryAfter: int)
    requires MostRestrictive(WindowsOf(FullMinute(0.0), FREE_TIER, 0.0, 0.0), false, 0, tightest, retryAfter)
    ensures retryAfter == 59 && !Passes(FullMinute(0.0), FREE_TIER, 59.0)
  {
    FullMinuteWaits(0.0);
    RetryIsRoundedWait(FullMinute(0.0), FREE_TIER, 0.0, 0.0, 0, tightest, retryAfter);
    OpensAfterWait(FullMinute(0.0), FREE_TIER, 0.0, 59.0);
  }

  /** With a tick between the clock reads, one second more is not enough either. */
  lemma OneSecondMoreMayNotSuffice(tightest: Window, retryAfter: int)
    requires MostRestrictive(WindowsOf(FullMinute(0.95), FREE_TIER, 0.9, 0.95), false, (1.0).Floor, tightest, retryAfter)
    ensures retryAfter == 58 && !Passes(FullMinute(0.95), FREE_TIER, 1.0 + 58.0 + 1.0)
  {
    FullMinuteWaits(0.95);
    RetryIsRoundedWait(FullMinute(0.95), FREE_TIER, 0.9, 0.95, (1.0).Floor, tightest, retryAfter);
    OpensAfterWait(FullMinute(0.95), FREE_TIER, 0.95, 60.0);
  }

  // ---------- how much gets through ----------

  /** The counters after the given requests for one key. */
  function After(times: seq<real>, limits: Limits): Counters {
    if times == [] then map[]
    else
      var (before, now) := (After(times[..|times| - 1], limits), times[|times| - 1]);
      if Passes(before, limits, now) then Charged(before, now) else before
  }

  /** The admitted ones among them. */
  function Admissions(times: seq<real>, limits: Limits): seq<real> {
    if times == [] then []
    else
      var (rest, now) := (times[..|times| - 1], times[|times| - 1]);
      if Passes(After(rest, limits), limits, now) then Admissions(rest, limits) + [now] else Admissions(rest, limits)
  }

  lemma {:induction false} AdmissionsOrdered(times: seq<real>, limits: Limits)
    requires Ordered(times)
    ensures Ordered(Admissions(times, limits))
    ensures times != [] ==> UpTo(Admissions(times, limits), times[|times| - 1])
  {
    if times != [] {
      OrderedPrefix(times);
      AdmissionsOrdered(times[..|times| - 1], limits);
      OrderedAppend(Admissions(times[..|times| - 1], limits), times[|times| - 1]);
    }
  }

  /** Refusals leave no trace: each tier stands where a single-window limiter would after the admitted
      requests alone. */
  lemma {:induction false} TierSeesAdmissions(times: seq<real>, limits: Limits, t: Tier)
    ensures Get(After(times, limits), t) == CounterState(Admissions(times, limits), WindowOf(t))
  {
    if times != [] {
      var rest, now := times[..|times| - 1], times[|times| - 1];
      TierSeesAdmissions(rest, limits, t);
      var admitted := Admissions(rest, limits);
      assert (admitted + [now])[..|admitted|] == admitted;
    }
  }

  /** What all tiers let through, each would have let through by itself. */
  lemma TierAdmits(times: seq<real>, now: real, limits: Limits, t: Tier)
    requires limits.Of(t) >= 1 && Passes(After(times, limits), limits, now)
    ensures SoloAllows(Admissions(times, limits), now, limits.Of(t), WindowOf(t))
  {
    TierSeesAdmissions(times, limits, t);
    assert !Exhausted(After(times, limits), limits, t, now);
    CountersSimulate(Admissions(times, limits), limits.Of(t), WindowOf(t));
  }

  function InRange(times: seq<real>, from: real, to: real): nat {
    if times == [] then 0
    else InRange(times[..|times| - 1], from, to) + One(from <= times[|times| - 1] < to)
  }

  lemma InRangeAppend(times: seq<real>, now: real, from: real, to: real)
    ensures InRange(times + [now], from, to) == InRange(times, from, to) + One(from <= now < to)
  {
    assert (times + [now])[..|times|] == times;
  }

  lemma {:induction false} TierAdmitsAll(times: seq<real>, limits: Limits, t: Tier, from: real, to: real)
    requires limits.Of(t) >= 1
    ensures SoloAdmitted(Admissions(times, limits), limits.Of(t), WindowOf(t), from, to)
         == InRange(Admissions(times, limits), from, to)
  {
    if times != [] {
      var rest, now := times[..|times| - 1], times[|times| - 1];
      TierAdmitsAll(rest, limits, t, from, to);
      if Passes(After(rest, limits), limits, now) {
        TierAdmits(rest, now, limits, t);
        SoloAppend(Admissions(rest, limits), now, limits.Of(t), WindowOf(t), from, to);
        InRangeAppend(Admissions(rest, limits), now, from, to);
      }
    }
  }

  /** Each of the three windows bounds what passes in any interval of its length. */
  lemma TierSlidingBound(times: seq<real>, limits: Limits, t: Tier, from: real)
    requires Ordered(times) && limits.Of(t) >= 1
    ensures InRange(Admissions(times, limits), from, from + WindowOf(t)) <= 2 * limits.Of(t) - 1
  {
    AdmissionsOrdered(times, limits);
    TierAdmitsAll(times, limits, t, from, from + WindowOf(t));
    SlidingBound(Admissions(times, limits), limits.Of(t), WindowOf(t), from);
  }
}
