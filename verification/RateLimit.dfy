/** The fixed-window rate limiter, implemented twice: a Redis script that counts every request, and an
    in-memory dictionary, bounded in size, that takes over when Redis is unavailable. */
module RateLimit {
  import opened Options

  const FALLBACK_MAX_ENTRIES := 10_000

  /** The fallback's record of a key: when its window began and how many requests it admitted. */
  datatype Entry = Entry(start: real, count: int)

  type Store = map<string, Entry>

  /** Redis's record of a key: how often it was incremented and when it expires. */
  datatype Counter = Counter(count: pos, expires: real)

  type pos = n: nat | n >= 1 witness 1

  /** One request against one key's entry: the decision and the entry left behind. */
  function Touch(e: Option<Entry>, now: real, limit: int, window: real): (bool, Entry) {
    if e.None? || now - e.value.start >= window then (true, Entry(now, 1))
    else if e.value.count >= limit then (false, e.value)
    else (true, Entry(e.value.start, e.value.count + 1))
  }

  /** INCR, with EXPIRE only on the increment that creates the key. */
  function Increment(c: Option<Counter>, now: real, window: real): Counter {
    if c.None? || now >= c.value.expires then Counter(1, now + window)
    else Counter(c.value.count + 1, c.value.expires)
  }

  // ---------- eviction ----------

  predicate Live(e: Entry, now: real, window: real) {
    now - e.start < window
  }

  function Unexpired(m: Store, now: real, window: real): (live: Store)
    ensures forall k :: k in live <==> k in m && now - m[k].start < window
    ensures forall k | k in live :: live[k] == m[k]
  {
    map k | k in m && Live(m[k], now, window) :: m[k]
  }

  /** `after` keeps the newest entries of `live`, exactly as many as the cap allows. */
  ghost predicate NewestKept(live: Store, after: Store) {
    && after.Keys <= live.Keys && (forall k | k in after :: after[k] == live[k])
    && |after| == 10_000
    && forall dropped, kept | dropped in live && dropped !in after && kept in after ::
         live[dropped].start <= after[kept].start
  }

  ghost predicate Evicted(before: Store, now: real, window: real, after: Store) {
    if |before| <= 10_000 then after == before
    else
      var live := Unexpired(before, now, window);
      if |live| <= 10_000 then after == live else NewestKept(live, after)
  }

  /** The decision on a key, and its entry in the store left behind. */
  predicate Decided(mid: Store, key: string, limit: int, now: real, window: real, allowed: bool, after: Store) {
    (allowed, after) == (Touch(Get(mid, key), now, limit, window).0, mid[key := Touch(Get(mid, key), now, limit, window).1])
  }

  /** One `check`: evict, leaving `mid`, then decide on the key. */
  ghost predicate Checked(before: Store, mid: Store, key: string, limit: int, now: real, window: real,
                          allowed: bool, after: Store) {
    Evicted(before, now, window, mid) && Decided(mid, key, limit, now, window, allowed, after)
  }

  function Elements(s: seq<string>): set<string> {
    set k | k in s
  }

  predicate SortedByStart(m: Store, keys: seq<string>) {
    && (forall i | 0 <= i < |keys| :: keys[i] in m)
    && forall i, j | 0 <= i < j < |keys| :: keys[i] != keys[j] && m[keys[i]].start <= m[keys[j]].start
  }

  lemma {:induction false} OldestExists(m: Store, todo: set<string>)
    requires todo != {} && todo <= m.Keys
    ensures exists k :: k in todo && forall j | j in todo :: m[k].start <= m[j].start
  {
    var k :| k in todo;
    if todo != {k} {
      OldestExists(m, todo - {k});
      var o :| o in todo - {k} && forall j | j in todo - {k} :: m[o].start <= m[j].start;
      var best := if m[k].start <= m[o].start then k else o;
      assert forall j | j in todo :: m[best].start <= m[j].start;
    }
  }

  lemma SortedAppend(m: Store, keys: seq<string>, k: string)
    requires SortedByStart(m, keys) && k in m && k !in Elements(keys)
    requires forall j | j in Elements(keys) :: m[j].start <= m[k].start
    ensures SortedByStart(m, keys + [k]) && Elements(keys + [k]) == Elements(keys) + {k}
  {
    forall i | 0 <= i < |keys| ensures keys[i] != k && m[keys[i]].start <= m[k].start {
      assert keys[i] in Elements(keys);
    }
  }

  /** Python's `sorted` on the start times, ties in any order. */
  method SortKeys(m: Store) returns (keys: seq<string>)
    ensures SortedByStart(m, keys) && |keys| == |m| && Elements(keys) == m.Keys
  {
    keys := [];
    var todo := m.Keys;
    while todo != {}
      invariant todo <= m.Keys && |keys| + |todo| == |m|
      invariant SortedByStart(m, keys) && Elements(keys) == m.Keys - todo
      invariant forall j, k | j in Elements(keys) && k in todo :: m[j].start <= m[k].start
      decreases todo
    {
      OldestExists(m, todo);
      var k :| k in todo && forall j | j in todo :: m[k].start <= m[j].start;
      SortedAppend(m, keys, k);
      todo := todo - {k};
      keys := keys + [k];
    }
  }

  lemma {:induction false} DistinctElements(m: Store, keys: seq<string>)
    requires SortedByStart(m, keys)
    ensures |Elements(keys)| == |keys|
  {
    if keys != [] {
      var n := |keys| - 1;
      DistinctElements(m, keys[..n]);
      assert keys == keys[..n] + [keys[n]];
      assert Elements(keys) == Elements(keys[..n]) + {keys[n]};
      assert forall i | 0 <= i < n :: keys[..n][i] != keys[n];
    }
  }

  lemma OneMoreDropped(live: Store, keys: seq<string>, i: nat)
    requires i < |keys|
    ensures live - Elements(keys[..i + 1]) == live - Elements(keys[..i]) - {keys[i]}
  {
    assert keys[..i + 1] == keys[..i] + [keys[i]];
    assert Elements(keys[..i + 1]) == Elements(keys[..i]) + {keys[i]};
  }

  lemma WithoutCount(m: Store, gone: set<string>)
    requires gone <= m.Keys
    ensures |m - gone| == |m| - |gone|
  {
    assert (m - gone).Keys == m.Keys - gone;
    assert |m - gone| == |(m - gone).Keys| && |m| == |m.Keys|;
  }

  lemma FirstElements(keys: seq<string>, n: nat)
    requires n <= |keys|
    ensures Elements(keys[..n]) <= Elements(keys)
    ensures forall k :: k in Elements(keys[..n]) <==> exists i :: 0 <= i < n && keys[i] == k
  {
    forall k | k in Elements(keys[..n]) ensures k in Elements(keys) && exists i :: 0 <= i < n && keys[i] == k {
      var i :| 0 <= i < n && keys[..n][i] == k;
      assert keys[i] == k;
    }
    forall i | 0 <= i < n ensures keys[i] in Elements(keys[..n]) {
      assert keys[..n][i] == keys[i];
    }
  }

  /** Of two sorted keys, one among the first `n` and one not, the former is no younger. */
  lemma FirstIsOlder(m: Store, keys: seq<string>, n: nat, first: string, later: string)
    requires SortedByStart(m, keys) && n <= |keys| && Elements(keys) == m.Keys
    requires first in Elements(keys[..n]) && later in m && later !in Elements(keys[..n])
    ensures m[first].start <= m[later].start
  {
    FirstElements(keys, n);
    assert later in Elements(keys);
    var i :| 0 <= i < n && keys[i] == first;
    var j :| 0 <= j < |keys| && keys[j] == later;
  }

  lemma DroppingTheOldest(live: Store, keys: seq<string>, excess: nat)
    requires SortedByStart(live, keys) && |keys| == |live| == FALLBACK_MAX_ENTRIES + excess && Elements(keys) == live.Keys
    ensures NewestKept(live, live - Elements(keys[..excess]))
  {
    var gone := Elements(keys[..excess]);
    FirstElements(keys, excess);
    DistinctElements(live, keys[..excess]);
    WithoutCount(live, gone);
    forall dropped, kept | dropped in live && dropped !in live - gone && kept in live - gone
      ensures live[dropped].start <= live[kept].start
    {
      FirstIsOlder(live, keys, excess, dropped, kept);
    }
  }

  class FallbackStore {
    var entries: Store

    constructor ()
      ensures entries == map[]
    {
      entries := map[];
    }

    /** `time.monotonic()` is the parameter `now`; `mid` names the store between eviction and decision. */
    method Check(key: string, limit: int, window: real, now: real) returns (allowed: bool, ghost mid: Store)
      modifies this
      ensures Checked(old(entries), mid, key, limit, now, window, allowed, entries)
      ensures |entries| <= 10_001
    {
      Evict(now, window);
      mid := entries;
      if key !in entries || now - entries[key].start >= window {
        entries := entries[key := Entry(now, 1)];
        return true, mid;
      }
      var Entry(windowStart, count) := entries[key];
      if count >= limit {
        assert entries[key := entries[key]] == entries;
        return false, mid;
      }
      entries := entries[key := Entry(windowStart, count + 1)];
      return true, mid;
    }

    method Evict(now: real, window: real)
      modifies this
      ensures Evicted(old(entries), now, window, entries)
      ensures |entries| <= 10_000
    {
      if |entries| <= FALLBACK_MAX_ENTRIES {
        return;
      }
      entries := map k | k in entries && Live(entries[k], now, window) :: entries[k];
      assert entries == Unexpired(old(entries), now, window);
      if |entries| > FALLBACK_MAX_ENTRIES {
        DropOldest();
      }
    }

    /** The second half of `_evict`: still over the cap, so delete in order of age. */
    method DropOldest()
      requires |entries| > FALLBACK_MAX_ENTRIES
      modifies this
      ensures NewestKept(old(entries), entries)
    {
      var live := entries;
      var sortedKeys := SortKeys(live);
      var excess := |live| - FALLBACK_MAX_ENTRIES;
      var i := 0;
      while i < excess
        invariant 0 <= i <= excess
        invariant entries == live - Elements(sortedKeys[..i])
      {
        OneMoreDropped(live, sortedKeys, i);
        entries := entries - {sortedKeys[i]};
        i := i + 1;
      }
      DroppingTheOldest(live, sortedKeys, excess);
    }

    method Clear()
      modifies this
      ensures entries == map[]
    {
      entries := map[];
    }
  }

  /** How a request to Redis went; with `ReplyLost` the script ran but its reply never arrived. */
  datatype Route = Up | Down | ReplyLost

  datatype Source = FromRedis | FromFallback

  datatype Result = Result(allowed: bool, count: Option<pos>, source: Source)

  class RateLimiter {
    var counters: map<string, Counter>
    const fallback: FallbackStore

    constructor ()
      ensures counters == map[] && fallback.entries == map[] && fresh(fallback)
    {
      counters := map[];
      fallback := new FallbackStore();
    }

    /** The Lua script, one atomic Redis command. */
    method RunScript(key: string, window: real, now: real) returns (current: pos)
      modifies this
      ensures counters == old(counters)[key := Increment(Get(old(counters), key), now, window)]
      ensures current == counters[key].count
    {
      if key in counters && now < counters[key].expires {
        current := counters[key].count + 1;
      } else {
        current := 1;
      }
      counters := counters[key := Counter(current, if current == 1 then now + window else counters[key].expires)];
    }

    method CheckRateLimit(key: string, limit: int, window: real, fallbackLimit: int, fallbackWindow: real,
                          now: real, route: Route) returns (result: Result, ghost mid: Store)
      modifies this, fallback
      ensures counters == if route.Down? then old(counters)
                          else old(counters)[key := Increment(Get(old(counters), key), now, window)]
      ensures route.Up? ==>
        && result == Result(counters[key].count <= limit, Some(counters[key].count), FromRedis)
        && fallback.entries == old(fallback.entries)
      ensures !route.Up? ==>
        && result.source == FromFallback && result.count == None
        && Checked(old(fallback.entries), mid, key, fallbackLimit, now, fallbackWindow, result.allowed, fallback.entries)
    {
      mid := map[];
      if !route.Down? {
        var count := RunScript(key, window, now);
        if route.Up? {
          return Result(count <= limit, Some(count), FromRedis), mid;
        }
      }
      var allowed;
      allowed, mid := fallback.Check(key, fallbackLimit, fallbackWindow, now);
      return Result(allowed, None, FromFallback), mid;
    }
  }
}
