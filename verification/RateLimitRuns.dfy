/** What the limiter guarantees over whole runs.

    A request sequence for one key alone is analysed first (`Solo...`); `DecisionsMatchSolo` then shows
    that the shared, evicting store decides each key exactly as if it were alone, as long as the size cap
    never drops that key, so that the bounds carry over.
 */
module RateLimitRuns {
  import opened Options
  import opened RateLimit

  predicate Ordered(times: seq<real>) {
    forall i, j | 0 <= i < j < |times| :: times[i] <= times[j]
  }

  predicate UpTo(times: seq<real>, t: real) {
    forall i | 0 <= i < |times| :: times[i] <= t
  }

  lemma OrderedAppend(times: seq<real>, t: real)
    requires Ordered(times) && UpTo(times, t)
    ensures Ordered(times + [t]) && UpTo(times + [t], t)
  {
  }

  /** The requests of one key, at the given times, against the fallback rule. */
  function SoloState(times: seq<real>, limit: int, window: real): Option<Entry> {
    if times == [] then None
    else Some(Touch(SoloState(times[..|times| - 1], limit, window), times[|times| - 1], limit, window).1)
  }

  /** The decision on a request at `now` after those at `times`. */
  predicate SoloAllows(times: seq<real>, now: real, limit: int, window: real) {
    Touch(SoloState(times, limit, window), now, limit, window).0
  }

  function One(b: bool): nat {
    if b then 1 else 0
  }

  /** How many of the requests with time in `[from, to)` are admitted. */
  function SoloAdmitted(times: seq<real>, limit: int, window: real, from: real, to: real): nat {
    if times == [] then 0
    else
      var (before, now) := (times[..|times| - 1], times[|times| - 1]);
      SoloAdmitted(before, limit, window, from, to) + One(from <= now < to && SoloAllows(before, now, limit, window))
  }

  /** The same requests against the Redis rule, which counts refused requests too. */
  function CounterState(times: seq<real>, window: real): Option<Counter> {
    if times == [] then None
    else Some(Increment(CounterState(times[..|times| - 1], window), times[|times| - 1], window))
  }

  predicate RedisAllows(times: seq<real>, now: real, limit: int, window: real) {
    Increment(CounterState(times, window), now, window).count <= limit
  }

  // ---------- the two implementations agree ----------

  function CappedAt(count: int, limit: int): int {
    if count <= limit then count else limit
  }

  /** The simulation: same window, and the fallback's count is Redis's count cut off at the limit. */
  lemma {:induction false} CountersSimulate(times: seq<real>, limit: int, window: real)
    requires limit >= 1 && window > 0.0
    ensures match (SoloState(times, limit, window), CounterState(times, window))
      case (None, None) => true
      case (Some(e), Some(c)) => c.expires == e.start + window && e.count == CappedAt(c.count, limit)
      case _ => false
  {
    if times != [] {
      CountersSimulate(times[..|times| - 1], limit, window);
    }
  }

  ghost predicate SameDecisions(limit: int, window: real) {
    forall times, now | Ordered(times + [now]) :: SoloAllows(times, now, limit, window) == RedisAllows(times, now, limit, window)
  }

  /** Redis and the fallback decide every schedule alike exactly when the limit is at least one: below
      that Redis refuses everything while the fallback still lets the first request of a window through. */
  lemma SoloLimitersAgreeExactlyWhen(limit: int, window: real)
    requires window > 0.0
    ensures SameDecisions(limit, window) <==> limit >= 1
  {
    if limit >= 1 {
      forall times, now | Ordered(times + [now])
        ensures SoloAllows(times, now, limit, window) == RedisAllows(times, now, limit, window)
      {
        CountersSimulate(times, limit, window);
      }
    } else {
      assert Ordered([] + [0.0]);
      assert SoloAllows([], 0.0, limit, window) && !RedisAllows([], 0.0, limit, window);
    }
  }

  // ---------- how much a limit lets through ----------

  lemma OrderedPrefix(times: seq<real>)
    requires Ordered(times) && times != []
    ensures Ordered(times[..|times| - 1])
    ensures |times| > 1 ==> times[..|times| - 1][|times| - 2] <= times[|times| - 1]
  {
  }

  /** The induction behind the bounds: what the open window's entry says about an interval `[from, from + window)`. */
  lemma {:induction false} SoloInvariant(times: seq<real>, limit: int, window: real, from: real)
    requires limit >= 1 && window > 0.0 && Ordered(times)
    ensures var n := SoloAdmitted(times, limit, window, from, from + window);
      match SoloState(times, limit, window)
      case None => times == [] && n == 0
      case Some(e) =>
        && times != [] && 1 <= e.count <= limit
        && (var last := times[|times| - 1];
            && e.start <= last < e.start + window
            && (last < from ==> n == 0))
        && (e.start == from ==> n == e.count)
        && (if e.start < from then n <= e.count - 1
            else if e.start < from + window then n <= limit - 1 + e.count
            else n <= 2 * limit - 1)
  {
    if times != [] {
      OrderedPrefix(times);
      SoloInvariant(times[..|times| - 1], limit, window, from);
    }
  }

  /** Any interval one window long admits at most twice the limit less one. */
  lemma SlidingBound(times: seq<real>, limit: int, window: real, from: real)
    requires limit >= 1 && window > 0.0 && Ordered(times)
    ensures SoloAdmitted(times, limit, window, from, from + window) <= 2 * limit - 1
  {
    SoloInvariant(times, limit, window, from);
  }

  /** A fixed window admits exactly what its entry counts, never more than the limit. */
  lemma FixedWindowBound(times: seq<real>, limit: int, window: real)
    requires limit >= 1 && window > 0.0 && Ordered(times) && times != []
    ensures SoloState(times, limit, window).Some?
    ensures var e := SoloState(times, limit, window).value;
      SoloAdmitted(times, limit, window, e.start, e.start + window) == e.count <= limit
  {
    SoloInvariant(times, limit, window, 0.0);
    SoloInvariant(times, limit, window, SoloState(times, limit, window).value.start);
  }

  lemma SoloAppend(times: seq<real>, now: real, limit: int, window: real, from: real, to: real)
    ensures SoloState(times + [now], limit, window) == Some(Touch(SoloState(times, limit, window), now, limit, window).1)
    ensures SoloAdmitted(times + [now], limit, window, from, to)
         == SoloAdmitted(times, limit, window, from, to) + One(from <= now < to && SoloAllows(times, now, limit, window))
  {
    assert (times + [now])[..|times|] == times;
  }

  /** Once a window has begun at `start`, it stays the window counted or has closed for good. */
  predicate WindowHolds(times: seq<real>, limit: int, window: real, start: real) {
    var n := SoloAdmitted(times, limit, window, start, start + window);
    && n <= limit
    && match SoloState(times, limit, window)
       case None => false
       case Some(e) => (e.start == start && n == e.count) || (e.start >= start + window)
  }

  lemma WindowHoldsNext(times: seq<real>, now: real, limit: int, window: real, start: real)
    requires limit >= 1 && window > 0.0 && WindowHolds(times, limit, window, start) && UpTo(times, now)
    requires times != [] && SoloState(times, limit, window).value.start <= now
    ensures WindowHolds(times + [now], limit, window, start)
  {
    SoloAppend(times, now, limit, window, start, start + window);
  }

  lemma {:induction false} WindowHoldsOn(times: seq<real>, more: seq<real>, limit: int, window: real, start: real)
    requires limit >= 1 && window > 0.0 && Ordered(times + more) && times != []
    requires SoloState(times, limit, window).Some? && SoloState(times, limit, window).value.start == start
    ensures WindowHolds(times + more, limit, window, start)
  {
    var all := times + more;
    if more == [] {
      assert all == times;
      FixedWindowBound(times, limit, window);
    } else {
      var rest, last := more[..|more| - 1], more[|more| - 1];
      assert all == times + rest + [last] && times + rest == all[..|all| - 1];
      WindowHoldsOn(times, rest, limit, window, start);
      SoloInvariant(times + rest, limit, window, 0.0);
      forall i | 0 <= i < |times + rest| ensures (times + rest)[i] <= last {
        assert all[i] == (times + rest)[i] && all[|all| - 1] == last;
      }
      WindowHoldsNext(times + rest, last, limit, window, start);
    }
  }

  predicate HasRun(times: seq<real>, limit: int, window: real, mid: real, e: Entry, n: int) {
    SoloState(times, limit, window) == Some(e) && SoloAdmitted(times, limit, window, mid, mid + window) == n
  }

  lemma AdmitNext(times: seq<real>, now: real, limit: int, window: real, mid: real, e: Entry, n: int)
    requires HasRun(times, limit, window, mid, e, n) && mid <= now < mid + window
    requires now - e.start >= window || e.count < limit
    ensures HasRun(times + [now], limit, window, mid, Touch(Some(e), now, limit, window).1, n + 1)
  {
    SoloAppend(times, now, limit, window, mid, mid + window);
  }

  /** One request at 0, then `m` at `mid`. */
  lemma {:induction false} EarlyRun(limit: int, window: real, mid: real, m: nat) returns (times: seq<real>)
    requires 0.0 < mid < window && m < limit
    ensures Ordered(times) && UpTo(times, mid) && HasRun(times, limit, window, mid, Entry(0.0, 1 + m), m)
  {
    if m > 0 {
      var before := EarlyRun(limit, window, mid, m - 1);
      OrderedAppend(before, mid);
      AdmitNext(before, mid, limit, window, mid, Entry(0.0, m), m - 1);
      times := before + [mid];
    } else {
      times := [] + [0.0];
      SoloAppend([], 0.0, limit, window, mid, mid + window);
    }
  }

  /** The early requests, then `k` at the end of the first window. */
  lemma {:induction false} BurstRun(limit: int, window: real, mid: real, m: nat, k: nat) returns (times: seq<real>)
    requires 0.0 < mid < window && m < limit && k <= limit
    ensures Ordered(times) && UpTo(times, window)
    ensures HasRun(times, limit, window, mid, if k == 0 then Entry(0.0, 1 + m) else Entry(window, k), m + k)
  {
    if k > 0 {
      var before := BurstRun(limit, window, mid, m, k - 1);
      OrderedAppend(before, window);
      AdmitNext(before, window, limit, window, mid, if k == 1 then Entry(0.0, 1 + m) else Entry(window, k - 1), m + k - 1);
      times := before + [window];
    } else {
      times := EarlyRun(limit, window, mid, m);
    }
  }

  /** The bound is attained: a last-moment burst followed by a fresh window. */
  lemma SlidingBoundIsTight(limit: int, window: real) returns (times: seq<real>, from: real)
    requires limit >= 1 && window > 0.0
    ensures Ordered(times) && SoloAdmitted(times, limit, window, from, from + window) == 2 * limit - 1
  {
    from := window / 2.0;
    times := BurstRun(limit, window, from, limit - 1, limit);
  }

  // ---------- the shared store ----------

  datatype Call = Call(key: string, now: real)

  /** A run of `check` calls: the stores before, after, and between eviction and decision. */
  datatype Trace = Trace(calls: seq<Call>, stores: seq<Store>, mids: seq<Store>, allowed: seq<bool>)

  ghost predicate IsTrace(t: Trace, limit: int, window: real) {
    && |t.stores| == |t.calls| + 1 && |t.mids| == |t.allowed| == |t.calls|
    && t.stores[0] == map[]
    && (forall i, j | 0 <= i < j < |t.calls| :: t.calls[i].now <= t.calls[j].now)
    && forall i | 0 <= i < |t.calls| :: CheckedAt(t, i, limit, window)
  }

  ghost predicate CheckedAt(t: Trace, i: nat, limit: int, window: real)
    requires i < |t.calls| < |t.stores| && |t.mids| == |t.allowed| == |t.calls|
  {
    Checked(t.stores[i], t.mids[i], t.calls[i].key, limit, t.calls[i].now, window, t.allowed[i], t.stores[i + 1])
  }

  /** The size cap never drops the key while its window is open. */
  predicate NeverCapped(t: Trace, key: string, window: real)
    requires |t.calls| < |t.stores| && |t.mids| == |t.calls|
  {
    forall i | 0 <= i < |t.calls| && key in t.stores[i] && Live(t.stores[i][key], t.calls[i].now, window) ::
      key in t.mids[i]
  }

  function TimesOf(calls: seq<Call>, key: string): seq<real> {
    if calls == [] then []
    else
      var (before, last) := (calls[..|calls| - 1], calls[|calls| - 1]);
      if last.key == key then TimesOf(before, key) + [last.now] else TimesOf(before, key)
  }

  lemma {:induction false} TimesOfOrdered(calls: seq<Call>, key: string)
    requires forall i, j | 0 <= i < j < |calls| :: calls[i].now <= calls[j].now
    ensures Ordered(TimesOf(calls, key))
    ensures calls != [] ==> UpTo(TimesOf(calls, key), calls[|calls| - 1].now)
  {
    if calls != [] {
      var (before, last) := (calls[..|calls| - 1], calls[|calls| - 1]);
      TimesOfOrdered(before, key);
      OrderedAppend(TimesOf(before, key), last.now);
    }
  }

  /** The stored entry is the solo entry, or was purged after the solo entry's window had passed. */
  predicate Represents(solo: Option<Entry>, stored: Option<Entry>, now: real, window: real) {
    solo == stored || (stored.None? && solo.Some? && !Live(solo.value, now, window))
  }

  /** Evicting, for a call at `now`, keeps the representation of a key the cap does not drop. */
  lemma EvictionRepresents(solo: Option<Entry>, before: Store, mid: Store, key: string, last: real, now: real, window: real)
    requires Represents(solo, Get(before, key), last, window) && last <= now && Evicted(before, now, window, mid)
    requires key in before && Live(before[key], now, window) ==> key in mid
    ensures Represents(solo, Get(mid, key), now, window)
  {
  }

  lemma TimesOfNext(calls: seq<Call>, key: string, n: nat)
    requires n < |calls|
    ensures TimesOf(calls[..n + 1], key) ==
      if calls[n].key == key then TimesOf(calls[..n], key) + [calls[n].now] else TimesOf(calls[..n], key)
  {
    assert calls[..n + 1][..n] == calls[..n];
  }

  /** Deciding a call keeps the representation, and decides the key itself as its solo entry would. */
  lemma DecisionRepresents(solo: Option<Entry>, mid: Store, c: Call, limit: int, window: real, allowed: bool, after: Store,
                           key: string)
    requires Represents(solo, Get(mid, key), c.now, window) && Decided(mid, c.key, limit, c.now, window, allowed, after)
    ensures c.key != key ==> Represents(solo, Get(after, key), c.now, window)
    ensures c.key == key ==> allowed == Touch(solo, c.now, limit, window).0
    ensures c.key == key ==> Get(after, key) == Some(Touch(solo, c.now, limit, window).1)
  {
  }

  /** The clock of the latest call; before the first call any clock will do. */
  function Clock(t: Trace, n: nat): real
    requires n <= |t.calls|
  {
    if n == 0 then 0.0 else t.calls[n - 1].now
  }

  lemma CallRepresents(t: Trace, key: string, limit: int, window: real, n: nat)
    requires n < |t.calls| < |t.stores| && |t.mids| == |t.allowed| == |t.calls| && CheckedAt(t, n, limit, window)
    requires Represents(SoloState(TimesOf(t.calls[..n], key), limit, window), Get(t.mids[n], key), t.calls[n].now, window)
    ensures Represents(SoloState(TimesOf(t.calls[..n + 1], key), limit, window), Get(t.stores[n + 1], key), t.calls[n].now, window)
  {
    var c, before := t.calls[n], TimesOf(t.calls[..n], key);
    TimesOfNext(t.calls, key, n);
    DecisionRepresents(SoloState(before, limit, window), t.mids[n], c, limit, window, t.allowed[n], t.stores[n + 1], key);
    SoloAppend(before, c.now, limit, window, 0.0, 0.0);
  }

  /** Before call `n` the store represents the solo state. */
  lemma {:induction false} StoreRepresentsSolo(t: Trace, key: string, limit: int, window: real, n: nat)
    requires window > 0.0 && IsTrace(t, limit, window) && NeverCapped(t, key, window) && n <= |t.calls|
    ensures var solo := SoloState(TimesOf(t.calls[..n], key), limit, window);
      Represents(solo, Get(t.stores[n], key), Clock(t, n), window) && (n == 0 ==> solo == Get(t.stores[n], key))
    decreases n, 0
  {
    if n > 0 {
      MidRepresentsSolo(t, key, limit, window, n - 1);
      assert CheckedAt(t, n - 1, limit, window);
      CallRepresents(t, key, limit, window, n - 1);
    }
  }

  lemma {:induction false} MidRepresentsSolo(t: Trace, key: string, limit: int, window: real, n: nat)
    requires window > 0.0 && IsTrace(t, limit, window) && NeverCapped(t, key, window) && n < |t.calls|
    ensures Represents(SoloState(TimesOf(t.calls[..n], key), limit, window), Get(t.mids[n], key), t.calls[n].now, window)
    decreases n, 1
  {
    StoreRepresentsSolo(t, key, limit, window, n);
    assert CheckedAt(t, n, limit, window);
    var solo := SoloState(TimesOf(t.calls[..n], key), limit, window);
    EvictionRepresents(solo, t.stores[n], t.mids[n], key, if n == 0 then t.calls[n].now else Clock(t, n),
                       t.calls[n].now, window);
  }

  /** Eviction is invisible: a key the cap never drops is decided as if it had a store to itself. */
  lemma DecisionsMatchSolo(t: Trace, key: string, limit: int, window: real, i: nat)
    requires window > 0.0 && IsTrace(t, limit, window) && NeverCapped(t, key, window)
    requires i < |t.calls| && t.calls[i].key == key
    ensures t.allowed[i] == SoloAllows(TimesOf(t.calls[..i], key), t.calls[i].now, limit, window)
  {
    MidRepresentsSolo(t, key, limit, window, i);
    assert CheckedAt(t, i, limit, window);
    DecisionRepresents(SoloState(TimesOf(t.calls[..i], key), limit, window), t.mids[i], t.calls[i], limit, window,
                       t.allowed[i], t.stores[i + 1], key);
  }

  /** Among the first `n` calls, those for `key` in `[from, to)` that were allowed. */
  function Admitted(t: Trace, key: string, from: real, to: real, n: nat): nat
    requires n <= |t.calls| == |t.allowed|
  {
    if n == 0 then 0
    else
      var c := t.calls[n - 1];
      Admitted(t, key, from, to, n - 1) + One(c.key == key && from <= c.now < to && t.allowed[n - 1])
  }

  lemma AdmittedNext(t: Trace, key: string, limit: int, window: real, from: real, to: real, n: nat)
    requires n < |t.calls| == |t.allowed|
    requires Admitted(t, key, from, to, n) == SoloAdmitted(TimesOf(t.calls[..n], key), limit, window, from, to)
    requires t.calls[n].key == key ==>
      t.allowed[n] == SoloAllows(TimesOf(t.calls[..n], key), t.calls[n].now, limit, window)
    ensures Admitted(t, key, from, to, n + 1) == SoloAdmitted(TimesOf(t.calls[..n + 1], key), limit, window, from, to)
  {
    TimesOfNext(t.calls, key, n);
    if t.calls[n].key == key {
      SoloAppend(TimesOf(t.calls[..n], key), t.calls[n].now, limit, window, from, to);
    }
  }

  lemma {:induction false} AdmittedMatchesSolo(t: Trace, key: string, limit: int, window: real, from: real, to: real, n: nat)
    requires window > 0.0 && IsTrace(t, limit, window) && NeverCapped(t, key, window) && n <= |t.calls|
    ensures Admitted(t, key, from, to, n) == SoloAdmitted(TimesOf(t.calls[..n], key), limit, window, from, to)
  {
    if n > 0 {
      AdmittedMatchesSolo(t, key, limit, window, from, to, n - 1);
      if t.calls[n - 1].key == key {
        DecisionsMatchSolo(t, key, limit, window, n - 1);
      }
      AdmittedNext(t, key, limit, window, from, to, n - 1);
    }
  }

  /** The bound for the store as it is used: many keys, purging, and a cap. */
  lemma StoreSlidingBound(t: Trace, key: string, limit: int, window: real, from: real)
    requires limit >= 1 && window > 0.0 && IsTrace(t, limit, window) && NeverCapped(t, key, window)
    ensures Admitted(t, key, from, from + window, |t.calls|) <= 2 * limit - 1
  {
    AdmittedMatchesSolo(t, key, limit, window, from, from + window, |t.calls|);
    TimesOfOrdered(t.calls[..|t.calls|], key);
    SlidingBound(TimesOf(t.calls[..|t.calls|], key), limit, window, from);
  }

  /** Redis's side: the counters left by a run of the script over all keys. */
  function CountersAfter(calls: seq<Call>, window: real): map<string, Counter> {
    if calls == [] then map[]
    else
      var (before, last) := (CountersAfter(calls[..|calls| - 1], window), calls[|calls| - 1]);
      before[last.key := Increment(Get(before, last.key), last.now, window)]
  }

  lemma {:induction false} CountersMatchSolo(calls: seq<Call>, key: string, window: real)
    ensures Get(CountersAfter(calls, window), key) == CounterState(TimesOf(calls, key), window)
  {
    if calls != [] {
      var (before, last) := (calls[..|calls| - 1], calls[|calls| - 1]);
      CountersMatchSolo(before, key, window);
      assert (TimesOf(before, key) + [last.now])[..|TimesOf(before, key)|] == TimesOf(before, key);
    }
  }

  predicate RedisDecides(calls: seq<Call>, i: nat, limit: int, window: real)
    requires i < |calls|
  {
    Increment(Get(CountersAfter(calls[..i], window), calls[i].key), calls[i].now, window).count <= limit
  }

  /** Redis and the fallback store, each given the same calls, decide every key the cap never drops alike. */
  ghost predicate StoresAgree(limit: int, window: real) {
    forall t: Trace, i: nat | IsTrace(t, limit, window) && i < |t.calls| && NeverCapped(t, t.calls[i].key, window) ::
      t.allowed[i] == RedisDecides(t.calls, i, limit, window)
  }

  /** The two implementations agree on every run of calls of any keys exactly when the limit is at least one. */
  lemma LimitersAgreeExactlyWhen(limit: int, window: real)
    requires window > 0.0
    ensures StoresAgree(limit, window) <==> limit >= 1
  {
    if limit >= 1 {
      forall t: Trace, i: nat | IsTrace(t, limit, window) && i < |t.calls| && NeverCapped(t, t.calls[i].key, window)
        ensures t.allowed[i] == RedisDecides(t.calls, i, limit, window)
      {
        var key := t.calls[i].key;
        DecisionsMatchSolo(t, key, limit, window, i);
        CountersMatchSolo(t.calls[..i], key, window);
        CountersSimulate(TimesOf(t.calls[..i], key), limit, window);
      }
    } else {
      var t := Trace([Call("", 0.0)], [map[], map["" := Entry(0.0, 1)]], [map[]], [true]);
      assert CheckedAt(t, 0, limit, window);
      assert IsTrace(t, limit, window) && NeverCapped(t, "", window);
      assert !RedisDecides(t.calls, 0, limit, window);
    }
  }

  lemma {:induction false} TimesOfPrefix(calls: seq<Call>, key: string, i: nat) returns (more: seq<real>)
    requires i <= |calls|
    ensures TimesOf(calls, key) == TimesOf(calls[..i], key) + more
    decreases |calls| - i
  {
    if i == |calls| {
      more := [];
      assert calls[..i] == calls;
    } else {
      var rest := TimesOfPrefix(calls, key, i + 1);
      TimesOfNext(calls, key, i);
      more := if calls[i].key == key then [calls[i].now] + rest else rest;
    }
  }

  /** Every fixed window that opens for a key admits at most the limit, from its beginning to its end. */
  lemma SoloFixedWindowBound(calls: seq<Call>, key: string, limit: int, window: real, i: nat)
    requires limit >= 1 && window > 0.0 && i <= |calls| && SoloState(TimesOf(calls[..i], key), limit, window).Some?
    requires forall i, j | 0 <= i < j < |calls| :: calls[i].now <= calls[j].now
    ensures var start := SoloState(TimesOf(calls[..i], key), limit, window).value.start;
      SoloAdmitted(TimesOf(calls, key), limit, window, start, start + window) <= limit
  {
    var more := TimesOfPrefix(calls, key, i);
    TimesOfOrdered(calls, key);
    WindowHoldsOn(TimesOf(calls[..i], key), more, limit, window, SoloState(TimesOf(calls[..i], key), limit, window).value.start);
  }

  /** And so does every fixed window the shared store opens. */
  lemma StoreFixedWindowBound(t: Trace, key: string, limit: int, window: real, i: nat)
    requires limit >= 1 && window > 0.0 && IsTrace(t, limit, window) && NeverCapped(t, key, window)
    requires i <= |t.calls| && key in t.stores[i]
    ensures var start := t.stores[i][key].start; Admitted(t, key, start, start + window, |t.calls|) <= limit
  {
    var start := t.stores[i][key].start;
    StoreRepresentsSolo(t, key, limit, window, i);
    SoloFixedWindowBound(t.calls, key, limit, window, i);
    AdmittedMatchesSolo(t, key, limit, window, start, start + window, |t.calls|);
    assert t.calls[..|t.calls|] == t.calls;
  }

  // ---------- mixed windows ----------

  /** A call at `then_` that evicts with window `purging` changes no later decision made with window
      `checking`, except about keys dropped by the size cap. */
  ghost predicate EvictionIsInvisible(purging: real, checking: real) {
    forall before: Store, after: Store, key: string, then_: real, now: real, limit: int |
      && then_ <= now && Evicted(before, then_, purging, after)
      && (key in before && Live(before[key], then_, purging) ==> key in after) ::
      Touch(Get(after, key), now, limit, checking) == Touch(Get(before, key), now, limit, checking)
  }

  /** `n` keys that each made one request at time 0. */
  function Crowd(n: nat): Store {
    if n == 0 then map[] else Crowd(n - 1)[seq(n, _ => 'x') := Entry(0.0, 1)]
  }

  lemma {:induction false} CrowdSize(n: nat)
    ensures |Crowd(n)| == n && forall k | k in Crowd(n) :: 1 <= |k| <= n && Crowd(n)[k] == Entry(0.0, 1)
  {
    if n > 0 {
      CrowdSize(n - 1);
    }
  }

  lemma ShorterWindowsUnaffected(before: Store, after: Store, key: string, then_: real, now: real, limit: int,
                                 purging: real, checking: real)
    requires checking <= purging && then_ <= now && Evicted(before, then_, purging, after)
    requires key in before && Live(before[key], then_, purging) ==> key in after
    ensures Touch(Get(after, key), now, limit, checking) == Touch(Get(before, key), now, limit, checking)
  {
  }

  /** A crowd above the cap, purged while a longer window is still open. */
  lemma LongerWindowsAffected(purging: real, checking: real)
    requires 0.0 < purging < checking
    ensures !EvictionIsInvisible(purging, checking)
  {
    var n := FALLBACK_MAX_ENTRIES + 1;
    var before, key := Crowd(n), seq(n, _ => 'x');
    CrowdSize(n);
    assert key in before;
    assert Unexpired(before, purging, purging) == map[];
    assert Evicted(before, purging, purging, map[]);
    assert Touch(Get<string, Entry>(map[], key), purging, 1, checking) != Touch(Get(before, key), purging, 1, checking);
  }

  /** `_evict` purges every key with the calling request's window.  Over all stores, those above the cap
      included, that leaves later checks unchanged exactly when none uses a longer window than the purge. */
  lemma EvictionIsInvisibleExactlyWhen(purging: real, checking: real)
    requires purging > 0.0 && checking > 0.0
    ensures EvictionIsInvisible(purging, checking) <==> checking <= purging
  {
    if checking > purging {
      LongerWindowsAffected(purging, checking);
    } else {
      forall before: Store, after: Store, key: string, then_: real, now: real, limit: int |
        && then_ <= now && Evicted(before, then_, purging, after)
        && (key in before && Live(before[key], then_, purging) ==> key in after)
        ensures Touch(Get(after, key), now, limit, checking) == Touch(Get(before, key), now, limit, checking)
      {
        ShorterWindowsUnaffected(before, after, key, then_, now, limit, purging, checking);
      }
    }
  }

  // ---------- Redis that comes and goes ----------

  /** One key's requests, each with the route it took. */
  datatype Routed = Routed(now: real, route: Route)

  /** The times a limiter saw: Redis counts a request whose reply is lost, the fallback decides it. */
  function Seen(reqs: seq<Routed>, skip: Route): seq<real> {
    if reqs == [] then []
    else
      var (before, last) := (reqs[..|reqs| - 1], reqs[|reqs| - 1]);
      if last.route == skip then Seen(before, skip) else Seen(before, skip) + [last.now]
  }

  /** The two limiters in play: Redis and the fallback, each with its own limit and window. */
  datatype Setup = Setup(limit: int, window: real, fallbackLimit: int, fallbackWindow: real)

  predicate Sensible(c: Setup) {
    c.limit >= 1 && c.window > 0.0 && c.fallbackLimit >= 1 && c.fallbackWindow > 0.0
  }

  predicate MixedAllows(before: seq<Routed>, q: Routed, c: Setup) {
    if q.route.Up? then RedisAllows(Seen(before, Down), q.now, c.limit, c.window)
    else SoloAllows(Seen(before, Up), q.now, c.fallbackLimit, c.fallbackWindow)
  }

  function MixedAdmitted(reqs: seq<Routed>, c: Setup, from: real, to: real): nat {
    if reqs == [] then 0
    else
      var (before, q) := (reqs[..|reqs| - 1], reqs[|reqs| - 1]);
      MixedAdmitted(before, c, from, to) + One(from <= q.now < to && MixedAllows(before, q, c))
  }

  predicate RoutedInOrder(reqs: seq<Routed>) {
    forall i, j | 0 <= i < j < |reqs| :: reqs[i].now <= reqs[j].now
  }

  lemma {:induction false} SeenInOrder(reqs: seq<Routed>, skip: Route)
    requires RoutedInOrder(reqs)
    ensures Ordered(Seen(reqs, skip))
    ensures reqs != [] ==> UpTo(Seen(reqs, skip), reqs[|reqs| - 1].now)
  {
    if reqs != [] {
      var (before, last) := (reqs[..|reqs| - 1], reqs[|reqs| - 1]);
      SeenInOrder(before, skip);
      OrderedAppend(Seen(before, skip), last.now);
    }
  }

  lemma {:induction false} MixedSplits(reqs: seq<Routed>, c: Setup, from: real, to: real)
    requires Sensible(c) && RoutedInOrder(reqs)
    ensures MixedAdmitted(reqs, c, from, to)
         <= SoloAdmitted(Seen(reqs, Down), c.limit, c.window, from, to)
            + SoloAdmitted(Seen(reqs, Up), c.fallbackLimit, c.fallbackWindow, from, to)
  {
    if reqs != [] {
      var (before, q) := (reqs[..|reqs| - 1], reqs[|reqs| - 1]);
      MixedSplits(before, c, from, to);
      SoloAppend(Seen(before, Down), q.now, c.limit, c.window, from, to);
      SoloAppend(Seen(before, Up), q.now, c.fallbackLimit, c.fallbackWindow, from, to);
      CountersSimulate(Seen(before, Down), c.limit, c.window);
    }
  }

  lemma {:induction false} ShorterAdmitsLess(times: seq<real>, limit: int, window: real, from: real, to: real, later: real)
    requires to <= later
    ensures SoloAdmitted(times, limit, window, from, to) <= SoloAdmitted(times, limit, window, from, later)
  {
    if times != [] {
      ShorterAdmitsLess(times[..|times| - 1], limit, window, from, to, later);
    }
  }

  lemma ShortIntervalBound(times: seq<real>, limit: int, window: real, from: real, to: real)
    requires limit >= 1 && window > 0.0 && Ordered(times) && to <= from + window
    ensures SoloAdmitted(times, limit, window, from, to) <= 2 * limit - 1
  {
    SlidingBound(times, limit, window, from);
    ShorterAdmitsLess(times, limit, window, from, to, from + window);
  }

  /** Whenever and however often Redis fails, an interval no longer than either window admits at most the
      sum of the two limiters' bounds. */
  lemma FailoverBound(reqs: seq<Routed>, c: Setup, from: real, to: real)
    requires Sensible(c) && RoutedInOrder(reqs) && to <= from + c.window && to <= from + c.fallbackWindow
    ensures MixedAdmitted(reqs, c, from, to) <= 2 * c.limit - 1 + (2 * c.fallbackLimit - 1)
  {
    SeenInOrder(reqs, Down);
    SeenInOrder(reqs, Up);
    var toRedis, toFallback := Seen(reqs, Down), Seen(reqs, Up);
    ShortIntervalBound(toRedis, c.limit, c.window, from, to);
    ShortIntervalBound(toFallback, c.fallbackLimit, c.fallbackWindow, from, to);
    MixedSplits(reqs, c, from, to);
  }
}
